# CodeMorph credit ledger, accounts and model adapters in Dafny

This project models the server side of CodeMorph, a code-conversion service. Its core is the
**credit ledger** of the `codemorph-proxy` backend. The ledger has four stores:

- accounts with a free-credit balance;
- purchased grants, each with `paid_credits` and an `end_date`;
- shares from an owner to a recipient, each with an `end_date`;
- an append-only `transactions` log.

The routes that read and change the stores are each modelled as a method on one `Db.Database`
object:

- convert;
- the Razorpay webhook;
- share;
- admin top-up;
- dashboard;
- transactions;
- payments;
- signup, verify and login;
- the Google and GitHub OAuth callbacks.

Each method's result is one variant per HTTP answer. Its `ensures` ties the new store
(`db.Snapshot()`) to the old one through pure state functions. Lemmas about those functions
state the ledger's invariants:

- exactly one pool and one log row per debit;
- no negative balance;
- pool priority;
- one grant per payment id;
- all-or-nothing rollback;
- unique share pairs.

Further modules cover:

- the retry-with-backoff loop and reply extraction of the three language-model adapters;
- two pure client-side reducers (the transaction filter and the payment-history summary);
- the stand-alone `LibrarySystem.java`. It is modelled as classes whose methods keep the
  invariant "a book is issued exactly when one user holds it".

Several inputs become parameters:

- the clock (an integer `now`, in milliseconds);
- fresh UUIDs;
- HMAC and bcrypt (functions passed in);
- the AI reply;
- the OAuth profile;
- which statement of a transaction throws (a `fault` parameter).

A rollback restores the fields saved at `BEGIN`.

Modules: `Common` (sequence and string helpers), `Db` (tables and lookups), `ConvertRoute`,
`WebhookRoute`, `ShareRoute`, `AdminRoute`, `DashboardRoute`, `TransactionsRoute`,
`PaymentsRoute`, `AuthRoute`, `GoogleCallback`, `GithubCallback`, `Backoff`, `GeminiClient`,
`ClaudeClient`, `HuggingFaceClient`, `TransactionHistoryPage`, `PaymentHistoryPage` and
`LibrarySystem`.

Several quirks are modelled exactly as written and exhibited by lemmas:

- The free-tier gate counts a grant ending exactly now (`>=`), but the debit does not (`>`).
- A share from an owner to themselves is not refused.
- The admin top-up logs its row before it learns that the user is missing.
- The dashboard subtracts a recipient's past draws from the owner's *current* remaining
  credits, so those draws are counted twice.

## Model

| member | source | states |
|---|---|---|
| ConvertRoute.Convert | codemorph-proxy/src/routes/convert.js:18-185 | A missing prompt or language is refused before any read. A user who is not paid (by the `>=` gate) is refused for a non-free language. A failed or empty AI reply deducts nothing. Otherwise the result is `insufficient_credits` exactly when no pool has credit, a failure when a statement throws, and the reply otherwise. A committed call equals `Debited` of the selected pool; every other outcome leaves the store unchanged. |
| ConvertRoute.GateMeansOwnGrant | codemorph-proxy/src/routes/convert.js:31-49 | The gate admits a user exactly when they own a grant with credits whose end is not before now; shares do not count. |
| ConvertRoute.DebitTakesExactlyOne | codemorph-proxy/src/routes/convert.js:89-165 | A debit lowers exactly one pool by one and appends exactly one `usage`, -1 row for the caller, tagged with that pool. All other accounts, grants, shares and links are unchanged. |
| ConvertRoute.DebitKeepsBalancesNonNegative | codemorph-proxy/src/routes/convert.js:74-163 | From a store without negative balances, a debit of the selected pool leaves none. |
| ConvertRoute.PoolPriority | codemorph-proxy/src/routes/convert.js:74-162 | An own live grant always wins. A shared grant wins over the free balance. Two valid choices agree on the pool kind and on the expiry of the grant used. |
| ConvertRoute.SharedDebitNamesOwner | codemorph-proxy/src/routes/convert.js:102-139 | A shared debit draws on a grant of an owner who shares with the caller now, and the usage row carries that owner. |
| ConvertRoute.BoundaryGrantPassesGateButIsNotDebited | codemorph-proxy/src/routes/convert.js:37 | A grant ending exactly now passes the gate for non-free languages, yet the conversion is charged to the free balance. |
| Db.SelectSoonest | codemorph-proxy/src/routes/convert.js:75-87 | Returns a matching grant with the smallest end date, or none exactly when no grant matches. |
| WebhookRoute.Razorpay | codemorph-proxy/src/routes/webhooks.js:17-129 | A bad signature is refused with no write. Otherwise the result and store are those of `Deliver`. If a statement throws during the three writes, the result is `WebhookFailed` and the store is unchanged. |
| WebhookRoute.FreshPaymentGrantsOnce | codemorph-proxy/src/routes/webhooks.js:76-116 | A fresh captured payment adds one grant of `credits` valid for one month, one purchase row carrying the payment id, and sets the paid flag. |
| WebhookRoute.ReplayIsNoOp | codemorph-proxy/src/routes/webhooks.js:59-74 | Delivering the same event again gives the same answer and changes nothing. |
| WebhookRoute.AtMostOnePurchasePerPayment | codemorph-proxy/src/routes/webhooks.js:59-107 | If at most one purchase row carries a payment id before a delivery, at most one does after it. |
| ShareRoute.CreateShare | codemorph-proxy/src/routes/share.js:67-172 | Each result holds exactly when its condition does. `missing_email` holds exactly for an empty email. `upgrade_required` holds exactly when the email is given and the owner has no live grant. `user_not_found` holds exactly when the owner is eligible and no account has the email. Otherwise a recipient with that email is always found. `already_shared` holds exactly for a taken pair. `share_failed` holds exactly for a fault on a free pair. `success` holds exactly for a free pair without a fault and adds the share and two audit rows. Every other outcome leaves the store unchanged. Nothing checks that owner and recipient differ. |
| ShareRoute.ShareMovesNoCredit | codemorph-proxy/src/routes/share.js:113-147 | A share changes no balance or grant, and its two audit rows carry amount 0. |
| ShareRoute.CreateKeepsPairsUnique | codemorph-proxy/src/routes/share.js:113-120 | Creating a share for a free pair keeps every (owner, recipient) pair unique. |
| ShareRoute.Sent | codemorph-proxy/src/routes/share.js:11-31 | Lists one row per unexpired share the caller made whose recipient account exists. Each row carries the recipient id, username, email, start and end. Every such share appears, and no other row does. |
| ShareRoute.Received | codemorph-proxy/src/routes/share.js:36-61 | Lists one row per unexpired share made to the caller whose owner account exists. Each row carries the owner id, username, email, start and end, and the owner's summed unexpired paid credits. Every such share appears, and no other row does. |
| ShareRoute.ReceivedRowsAreActiveShares | codemorph-proxy/src/routes/share.js:47-56 | Every received row names an owner who shares with the caller now, and carries that owner's current unexpired paid total. |
| AdminRoute.Topup | codemorph-proxy/src/routes/admin.js:10-49 | 403 unless a non-empty token is configured and matches the header. 400 for a missing user or a zero amount. Otherwise, on success both writes are done, with `user_not_found` exactly when the id has no account. A failed update writes nothing. A failed insert keeps the balance change. |
| AdminRoute.MissingUserStillLogged | codemorph-proxy/src/routes/admin.js:33-42 | For a missing user, the top-up row is still appended and no balance changes. |
| AdminRoute.TopupMovesOneBalance | codemorph-proxy/src/routes/admin.js:26-31 | For an existing user, only that balance moves, by `amount`. |
| AdminRoute.NegativeTopupGoesBelowZero | codemorph-proxy/src/routes/admin.js:21-31 | A negative amount is accepted and can leave the balance negative. |
| DashboardRoute.Summary | codemorph-proxy/src/routes/dashboard.js:16-181 | The handler's figures equal `SummaryOf` of the store: available = free + paid + shared. |
| DashboardRoute.SharedRemaining | codemorph-proxy/src/routes/dashboard.js:57-121 | The owners loop computes the sum, over distinct active owners, of max(0, owner's unexpired paid total − the caller's recorded draws from that owner). |
| DashboardRoute.DistinctOwners | codemorph-proxy/src/routes/dashboard.js:57-65 | The owners list has no repeats and holds exactly the owners sharing with the caller now. |
| DashboardRoute.LatestEnd | codemorph-proxy/src/routes/dashboard.js:25-38 | The latest end date among the caller's unexpired grants, or none when there is no such grant. |
| DashboardRoute.DaysLeft | codemorph-proxy/src/routes/dashboard.js:177-181 | None without an end date, 0 once it is past, otherwise the ceiling of the remaining time in days. |
| DashboardRoute.RecentActivity | codemorph-proxy/src/routes/dashboard.js:161-170 | At most 10 of the caller's rows, newest first. |
| DashboardRoute.SharedNeverNegative | codemorph-proxy/src/routes/dashboard.js:114-121 | The shared figure is at least 0, so available is at least free + paid. |
| DashboardRoute.DaysLeftPositive | codemorph-proxy/src/routes/dashboard.js:177-181 | Whenever daysLeft is present it is at least 1. With no end date, the paid total is 0. |
| DashboardRoute.OwnersAtMostReceived | codemorph-proxy/src/routes/dashboard.js:57-159 | `received` (rows) is never less than the number of distinct owners. |
| DashboardRoute.OwnersEqualReceivedWhenPairsUnique | codemorph-proxy/src/routes/dashboard.js:57-159 | Under unique pairs, the two counts agree. |
| DashboardRoute.FreeDebitRoundTrip | codemorph-proxy/src/routes/dashboard.js:124-135 | After a committed free-balance debit of the convert route, the summary shows free credits one lower and today's usage one higher. Paid and shared figures are unchanged, and the available total is one lower. |
| DashboardRoute.SharedDebitCountsTwice | codemorph-proxy/src/routes/dashboard.js:114-118 | One shared conversion lowers the owner's term by two while only one credit is used. |
| DashboardRoute.DashboardUnderstatesSharedCredits | codemorph-proxy/src/routes/dashboard.js:114-118 | A concrete store with 248 drawable credits reports 246. |
| TransactionsRoute.BuildWhere | codemorph-proxy/src/routes/transactions.js:13-34 | The appended conditions are `Conditions` of the request, and the parameters line up with their placeholders. |
| TransactionsRoute.ListingOf | codemorph-proxy/src/routes/transactions.js:7-68 | A negative limit or offset is refused. Otherwise the rows are the caller's matching rows, newest first, after skipping (page−1)·limit rows. A page holds exactly min(limit, total − offset) rows, or none when the offset reaches the total. The total counts every matching row. |
| TransactionsRoute.MatchingIsCallers | codemorph-proxy/src/routes/transactions.js:13-14 | Only the caller's rows match. |
| TransactionsRoute.TypeFilterApplies | codemorph-proxy/src/routes/transactions.js:17-20 | With a type other than `all`, every matching row has that type. Without one, no type condition is added. |
| TransactionsRoute.BlankSearchKeepsAll | codemorph-proxy/src/routes/transactions.js:23 | A blank search with no type keeps every row of the caller. |
| TransactionsRoute.SearchIsSubstring | codemorph-proxy/src/routes/transactions.js:23-33 | A query without wildcards keeps a row exactly when its lowercased type, source, amount text or formatted date contains the lowercased query. |
| TransactionsRoute.UnderscoreQueryMatchesAnyText | codemorph-proxy/src/routes/transactions.js:32 | Unescaped wildcards: the query `_` matches every non-empty text. |
| TransactionsRoute.LikeIsContains | codemorph-proxy/src/routes/transactions.js:26-32 | For a pattern without wildcards, `LIKE '%q%'` is substring search. |
| TransactionsRoute.TotalIgnoresPaging | codemorph-proxy/src/routes/transactions.js:54-61 | The total does not depend on page or limit. |
| TransactionsRoute.ConsecutivePagesTile | codemorph-proxy/src/routes/transactions.js:47-51 | Two consecutive pages together are one page of double size. |
| PaymentsRoute.OrderFor | codemorph-proxy/src/routes/payments.js:19-41 | An order is always 9900 paise INR for 250 credits, with the caller and the credits in its notes. |
| PaymentsRoute.OrderNotesBuyPlanCredits | codemorph-proxy/src/routes/payments.js:25-33 | A captured payment of such an order makes the webhook grant the caller 250 credits. |
| PaymentsRoute.VerifyPayment | codemorph-proxy/src/routes/payments.js:48-68 | Accepted exactly when the HMAC of `order_id|payment_id` equals the signature; no store is touched. |
| PaymentsRoute.SignedTextDeterminesIds | codemorph-proxy/src/routes/payments.js:55 | For ids free of `|`, the signed text determines both ids. |
| PaymentsRoute.SharedSignatureIsCollision | codemorph-proxy/src/routes/payments.js:53-61 | If one signature is accepted for two different `|`-free id pairs, the HMAC maps two different texts to the same value. |
| PaymentsRoute.HistoryOf | codemorph-proxy/src/routes/payments.js:73-107 | One entry per grant of the caller, newest first. Each entry carries the grant's id, its creation time (its start) and amount 99. totalSpent = 99 × count. The plan is Pro iff count > 0. nextRenewal is the newest grant's end, or none. |
| PaymentsRoute.NextRenewalIsNewestGrant | codemorph-proxy/src/routes/payments.js:76-93 | nextRenewal is the end date of the most recently created grant. |
| AuthRoute.Signup | codemorph-proxy/src/routes/auth.js:27-94 | Each answer holds exactly when its condition does. 400 `missing_fields` holds exactly when a field is empty. 400 `password_too_short` holds exactly when the fields are present and the password is shorter than 6 UTF-16 code units, as `password.length` counts them. 409 holds exactly for a taken email, with no write. 500 `signup_failed` holds exactly for valid fields, a free email and a used id or a failing step. Success adds the account (25 credits, unverified, one-day token) and its `local` provider row. A failure keeps exactly the writes done before the failing step. |
| AuthRoute.VerifyEmail | codemorph-proxy/src/routes/auth.js:99-132 | "Invalid token" is returned exactly for a missing token. "Invalid or expired token" is returned exactly when no account accepts the token. The request succeeds exactly when some unverified account holds the token with an unexpired date. It then sets verified and clears token and expiry; otherwise nothing changes. |
| AuthRoute.VerifyIsSingleUse | codemorph-proxy/src/routes/auth.js:106-129 | After verification, no account accepts the same token again. |
| AuthRoute.TokenOutlivesOneDay | codemorph-proxy/src/routes/auth.js:52-110 | The expiry is compared with the start of today, so a token is still accepted after 24 hours. |
| AuthRoute.Login | codemorph-proxy/src/routes/auth.js:137-175 | Unknown email gives 401. Unverified gives 403 before the password is checked. A wrong password gives 401. A login always names a verified account with that email. |
| AuthRoute.SignupThenLogin | codemorph-proxy/src/routes/auth.js:27-175 | A fresh signup cannot log in until verified, whatever the password; after verification the right password logs in. |
| GoogleCallback.Callback | codemorph-proxy/src/routes/oauth/google.js:24-121 | A missing code gives 400 and a failed exchange gives 500, with no write. A linked Google id reuses its account and writes nothing. Otherwise, on success one account (25 credits) plus one `google` link is created. Any fault rolls both back. |
| GoogleCallback.SecondSignInWritesNothing | codemorph-proxy/src/routes/oauth/google.js:66-103 | After a first sign-in the id is linked, so later callbacks write nothing. |
| GoogleCallback.NoLinkingByEmail | codemorph-proxy/src/routes/oauth/google.js:82-102 | An existing account with the same email is not reused; a second account is created. |
| GithubCallback.ChooseEmail | codemorph-proxy/src/routes/oauth/github.js:55-57 | The first primary-and-verified address if it is non-empty, else the first listed address. |
| GithubCallback.UsernameOf | codemorph-proxy/src/routes/oauth/github.js:60 | `name` when non-empty, else `login`. |
| GithubCallback.Callback | codemorph-proxy/src/routes/oauth/github.js:24-120 | A linked id reuses its account with no write. Otherwise an account with the chosen email is linked, or a new one (25 credits) is created and linked. Writes done before a failing insert stay. |
| GithubCallback.LinkedAfterSignIn | codemorph-proxy/src/routes/oauth/github.js:80-106 | After either write path, the GitHub id is linked. |
| GithubCallback.OrphanAccountAfterLinkFailure | codemorph-proxy/src/routes/oauth/github.js:87-106 | If the link insert fails after the account insert, the new account stays without a provider row. |
| Db.FindUser | codemorph-proxy/src/routes/oauth/github.js:80-83 | Returns a matching account, or none exactly when no account matches. |
| Db.FindLinkedUser | codemorph-proxy/src/routes/oauth/github.js:65-74 | Returns an account linked to the provider id, or none exactly when there is no such link. |
| Backoff.RetryWithBackoff | codemorph-proxy/src/utils/gemini.js:22-44 | `fn` is called between 1 and retries+1 times, and the last outcome is returned. Every earlier call failed with 429 or 503. A final failure is not retryable or exhausted the retries. Wait k is base·2^(k−1) plus jitter in [0, delay). |
| Backoff.TotalWaitBounds | codemorph-proxy/src/utils/gemini.js:35-41 | n waits total between base·(2^n−1) and twice that. |
| Backoff.DefaultDelays | codemorph-proxy/src/utils/gemini.js:87-89 | With base 500 the delays are 500, 1000, 2000, 4000 and 8000 ms, and their sum is 15500 ms. |
| GeminiClient.Extract | codemorph-proxy/src/utils/gemini.js:96-116 | No data gives `empty_response_from_gemini`. An empty or missing candidates list gives `invalid_gemini_response`. An empty fallback text gives `missing_text_in_gemini_response`. Otherwise the result is the trimmed fallback text. |
| GeminiClient.ReplyTextEmptyIff | codemorph-proxy/src/utils/gemini.js:105-109 | The fallback text is empty exactly when there is no first-part text, no `output_text`, and at most one part. |
| GeminiClient.TextlessPartsGiveEmptyReply | codemorph-proxy/src/utils/gemini.js:105-116 | Two textless parts pass the emptiness check as "\n" and come back as an empty reply. |
| GeminiClient.GenerateResponse | codemorph-proxy/src/utils/gemini.js:49-117 | At most 6 calls; only 429/503 read from `err.response.status` are retried. A success is `Extract` of the body; a failure is rethrown. |
| ClaudeClient.GenerateResponse | codemorph-proxy/src/utils/claude.js:18-79 | As the Gemini client, with the status read from `err.status`. |
| ClaudeClient.Extract | codemorph-proxy/src/utils/claude.js:65-78 | No content array gives `empty_response_from_claude`. No non-empty text gives `missing_text_in_claude_response`. A text reply is returned exactly when some block has a non-empty text; it is the non-empty texts joined by newlines and trimmed. |
| ClaudeClient.TruthyTexts | codemorph-proxy/src/utils/claude.js:69-71 | Equals the values of the order-preserving filter of the present, non-empty texts, so every such text is kept once and in order. It is empty exactly when no block has text. |
| ClaudeClient.TextlessBlocksIgnored | codemorph-proxy/src/utils/claude.js:69-72 | Blocks without text do not change the joined reply. |
| HuggingFaceClient.GeneratedText | codemorph-proxy/src/utils/huggingface.js:74-77 | The text is `data[0].generated_text` for a list, or `data.generated_text` for an object; it is non-empty exactly when that field is. |
| HuggingFaceClient.Extract | codemorph-proxy/src/utils/huggingface.js:74-83 | An empty text gives `missing_text_in_huggingface_response`; otherwise the trimmed text. |
| HuggingFaceClient.OnlyFirstElementRead | codemorph-proxy/src/utils/huggingface.js:75 | Only the first list element is read. |
| HuggingFaceClient.GenerateResponse | codemorph-proxy/src/utils/huggingface.js:14-84 | At most 6 calls; only 429/503 are retried. A success is `Extract` of the body. |
| Common.Trim | codemorph-proxy/src/utils/gemini.js:116 | The result is a contiguous piece of the input with only white space cut from both ends, and it neither starts nor ends with white space. White space is the full ECMAScript WhiteSpace and LineTerminator set. |
| Common.TrimStripsUnicodeSpaces | codemorph-proxy/src/utils/gemini.js:116 | An ideographic space trims to nothing. Line- and space-separator characters around a word are removed. |
| AuthRoute.AstralPasswordMeetsMinimum | codemorph-proxy/src/routes/auth.js:34 | Three emoji outside the Basic Multilingual Plane count as 6 code units and meet the minimum. |
| Common.TrimEmptyIff | codemorph-proxy/src/utils/claude.js:78 | A text trims to empty exactly when it is all white space, in the full ECMAScript sense. |
| TransactionHistoryPage.Filtered | website/src/pages/TransactionHistory.jsx:36-57 | A non-array gives []. Otherwise the result is an order-preserving subsequence holding exactly the rows that pass the type and search tests. |
| TransactionHistoryPage.TypeFilterDrops | website/src/pages/TransactionHistory.jsx:43-45 | With a type other than `all`, every kept row has that type. |
| TransactionHistoryPage.BlankSearchKeepsAll | website/src/pages/TransactionHistory.jsx:39-47 | A blank or white-space query keeps every row that passes the type test. |
| TransactionHistoryPage.SearchModes | website/src/pages/TransactionHistory.jsx:50-55 | A numeric query keeps rows whose amount equals it; a non-numeric one keeps rows whose lowercased type contains it. |
| TransactionHistoryPage.NumberOf | website/src/pages/TransactionHistory.jsx:50 | `Number(q)` for decimal forms: a text without any digit is not a number, so it falls back to the type search. |
| TransactionHistoryPage.DecimalRoundTrip | website/src/pages/TransactionHistory.jsx:50-52 | Every integer written in decimal, with or without a sign, reads back as that integer, so searching for a printed amount finds rows with that amount. |
| TransactionHistoryPage.NumberForms | website/src/pages/TransactionHistory.jsx:50 | "-1" and "25.0" are numbers, "1.5" is a fraction no integer amount equals, and "share" is not a number. |
| TransactionHistoryPage.PrevPage | website/src/pages/TransactionHistory.jsx:178 | The page never goes below 1. |
| PaymentHistoryPage.PaymentsOf | website/src/pages/PaymentHistory.jsx:11 | A missing list is empty. |
| PaymentHistoryPage.TotalSpent | website/src/pages/PaymentHistory.jsx:14 | The left-fold `reduce` equals the sum of the amounts, with a missing amount counting as 0. |
| PaymentHistoryPage.CurrentPlan | website/src/pages/PaymentHistory.jsx:17 | Pro exactly when the total is positive. |
| PaymentHistoryPage.NextRenewal | website/src/pages/PaymentHistory.jsx:20-23 | None for an empty list; otherwise 30 days after the first payment. |
| PaymentHistoryPage.TotalOfUniformPrices | website/src/pages/PaymentHistory.jsx:14 | A list of 99s totals 99 × length. |
| PaymentHistoryPage.PageAgreesWithServer | website/src/pages/PaymentHistory.jsx:11-23 | The page and the server agree on total and plan. They agree on renewal when the newest grant runs one month. |
| LibrarySystem.Book.constructor | LibrarySystem.java:23-28 | A new book is not issued. |
| LibrarySystem.Book.Issue | LibrarySystem.java:54-56 | Marks the book issued. |
| LibrarySystem.Book.Returned | LibrarySystem.java:61-63 | Marks the book available. |
| LibrarySystem.User.constructor | LibrarySystem.java:90-94 | A new user has an empty borrowed list. |
| LibrarySystem.User.BorrowBook | LibrarySystem.java:109-111 | Appends the id. |
| LibrarySystem.User.ReturnBook | LibrarySystem.java:117-120 | Removes the first occurrence of the id. |
| LibrarySystem.User.HasBorrowedBook | LibrarySystem.java:127-129 | True exactly when the list holds the id. |
| LibrarySystem.RemoveFirst | LibrarySystem.java:117-120 | Removes exactly one occurrence (the first) when present: the multiset loses one copy and the order is kept. |
| LibrarySystem.Library.constructor | LibrarySystem.java:151-154 | An empty library. |
| LibrarySystem.Library.AddBook | LibrarySystem.java:161-168 | An existing id changes nothing; otherwise exactly one entry is added. |
| LibrarySystem.Library.AddUser | LibrarySystem.java:175-182 | Likewise for users. |
| LibrarySystem.Library.IssueBook | LibrarySystem.java:190-212 | An unknown book, an unknown user or an already issued book changes nothing. Otherwise the book is marked issued and the id is appended to that user's list. |
| LibrarySystem.Library.ReturnBook | LibrarySystem.java:220-241 | Changes nothing unless both exist and the user holds the id. Otherwise the book is marked available and the first occurrence is removed; a warning is given when the book was not marked issued. |
| LibrarySystem.IssueKeepsSound | LibrarySystem.java:204-210 | Issuing keeps "issued exactly when one user holds it, at most once". |
| LibrarySystem.ReturnKeepsSound | LibrarySystem.java:229-239 | Returning keeps the same invariant. |
| LibrarySystem.AddKeepsSound | LibrarySystem.java:161-182 | Adding a fresh, unissued book or a user with an empty list keeps the invariant. |
| LibrarySystem.RunKeepsSound | LibrarySystem.java:161-241 | Any sequence of operations from a sound library keeps it sound. |

## Left out

- HTTP and Express plumbing are not modelled; responses are result variants. This covers routers, middleware and status codes as transport.
- The API-key middleware is not modelled: the caller's id is a parameter.
- Cryptography is not modelled. HMAC-SHA256, bcrypt and JWT signing become parameters or are dropped.
- Random UUIDs and tokens are parameters.
- Mail sending is not modelled: it is a fault point of signup only.
- The Razorpay order API is not modelled: the order's notes are a parameter.
- The OAuth token exchange and the Google and GitHub profile reads are not modelled: their outcome is a parameter.
- Google's profile read sits outside any handler, so its failure has no modelled answer.
- Concurrency is not modelled: `FOR UPDATE` row locks and interleaved requests are absent. Each handler is one sequential step.
- `sleep` is dropped; the waits are returned as a list.
- `Math.random` is left out; each jitter is a nondeterministic integer within its bound.
- Floating point is not modelled. `Math.pow` and `Math.floor` are taken on integers, and `Number(q)` is modelled only for optional-sign decimal forms.
- TransactionHistoryPage.NumberOf: the other numeric literals `Number` accepts are taken as no number. These are hexadecimal, binary and octal literals and exponents, such as "0x10", "0b1", "0o7" and "1e2". For such a search the model runs the type search, while the page reads the text as 16, 1, 7 or 100 and compares amounts.
- Calendar arithmetic is simplified: `INTERVAL 1 MONTH` is taken as 30 days, and `DATE()`/`CURDATE()` as whole days of the integer clock.
- Row ids are not modelled. `ORDER BY created_at` is insertion order in the append-only log, newest first by reversal.
- The dashboard's `plan` (`MAX(plan_type)`) is not modelled. It is a text maximum that no other figure depends on.
- `JSON_EXTRACT(meta, '$.owner') = ?` is taken as an exact comparison of the stored owner id.
- ShareRoute.CreateShare: the duplicate-key check assumes a unique key on (owner, recipient), because the schema is not part of this model.
- The `typeof out !== "string"` checks of the adapters are not modelled, because texts are modelled as strings.
- The `shouldRetry` option that the Gemini adapter passes is not modelled: the loop never reads it.
- Account e-mail uniqueness is not assumed: the lookups may find any matching account.
- SQL string equality is modelled as exact string equality. This covers the e-mail lookups of signup, login, share and the GitHub callback (`EmailTaken`, `EmailIs`, `LoginRow`). Column collations, which may ignore case or trailing spaces, are not modelled.
- Some handlers issue PostgreSQL-style calls on the MySQL pool that `db.js` creates. These are `pool.connect()` with `$n` placeholders in the Razorpay webhook and the Google callback, and the `{ rows }` result of the payment history. The model gives each such query its intended meaning: the statements run, and `rows` holds the selected rows. The failures these calls would raise against a MySQL pool are not modelled.
- `toLowerCase` is modelled on the ASCII letters only (`Common.ToLower`); other letters are left unchanged.
- GithubCallback.Callback: a `NULL` e-mail is stored as the empty string.
- LibrarySystem: Java `int` overflow is not modelled, because ids are plain integers.
- The library's console loop, `Scanner` input, `println` output and `showBooks`/`showUsers` (printing only) are left out.
- LibrarySystem.RunKeepsSound: the console creates a fresh `Book` and `User` each time, which the model takes as an unissued book and a user with an empty list.
- Dashboard and client rendering are not modelled, including `toLocaleString` and `computedDaysLeft`.
- The VS Code extension, the static language tables and `test.py` are outside this model.
