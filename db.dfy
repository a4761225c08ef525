/** The proxy's relational store: the users, user_auth_providers, purchased_credits,
    shared_credits and transactions tables, with the row predicates and lookups that the
    route handlers share. */
module Db {
  import opened Common

  type UserId = string

  /** The server clock is an integer number of milliseconds; `Day` is one day of it. */
  const Day: int := 86_400_000
  /** `INTERVAL 1 MONTH`, taken as thirty days. */
  const Month: int := 30 * Day
  /** Free credits given to every newly created account. */
  const SignupCredits: int := 25

  /** A row of `users`. */
  datatype Account = Account(
    username: string,
    email: string,
    credits: int,
    isPaid: bool,
    emailVerified: bool,
    verifyToken: Option<string>,
    verifyExpires: Option<int>)

  /** An account created by an OAuth callback: signup credits, not paid, and the unverified,
      token-less state of the columns the insert leaves at their defaults. */
  function ProvisionedAccount(username: string, email: string): Account {
    Account(username, email, SignupCredits, false, false, None, None)
  }

  datatype Provider = Local | Google | Github

  /** A row of `user_auth_providers`. */
  datatype AuthLink = AuthLink(userId: UserId, provider: Provider, providerUserId: string, passwordHash: Option<string>)

  /** A row of `purchased_credits`: a purchased grant of `paidCredits` valid in [start, end). */
  datatype Grant = Grant(id: string, owner: UserId, paidCredits: int, plan: string, start: int, end: int)

  /** A row of `shared_credits`: `recipient` may draw on `owner`'s grants while end > now. */
  datatype Share = Share(owner: UserId, recipient: UserId, start: int, end: int)

  datatype Kind = Usage | Purchase | Topup | ShareOut | ShareIn
  datatype Source = Free | Paid | Shared

  /** The JSON `meta` column, one variant per shape the handlers write. */
  datatype Meta =
    | FromConvert                      // { from: "convert" }
    | SharedConvert(owner: UserId)     // { owner, from: "convert" }
    | Payment(paymentId: string)       // { provider: "razorpay", payment_id }
    | ByAdmin                          // { by: "admin" }
    | SharedTo(recipient: UserId)      // { shared_to }
    | SharedFrom(owner: UserId)        // { shared_from }

  /** A row of the append-only `transactions` log. */
  datatype Txn = Txn(user: UserId, kind: Kind, amount: int, source: Source, meta: Meta, createdAt: int)

  function KindName(k: Kind): string {
    match k
    case Usage => "usage"
    case Purchase => "purchase"
    case Topup => "topup"
    case ShareOut => "share_out"
    case ShareIn => "share_in"
  }

  function SourceName(s: Source): string {
    match s
    case Free => "free"
    case Paid => "paid"
    case Shared => "shared"
  }

  /** Kinds are told apart by their column text. */
  lemma KindNameInjective(a: Kind, b: Kind)
    ensures KindName(a) == KindName(b) ==> a == b
  {
  }

  /** The whole store at one instant. */
  datatype Tables = Tables(
    users: map<UserId, Account>,
    links: seq<AuthLink>,
    grants: seq<Grant>,
    shares: seq<Share>,
    log: seq<Txn>)

  class Database {
    var users: map<UserId, Account>
    var links: seq<AuthLink>
    var grants: seq<Grant>
    var shares: seq<Share>
    var log: seq<Txn>

    constructor ()
      ensures Snapshot() == Tables(map[], [], [], [], [])
    {
      users, links, grants, shares, log := map[], [], [], [], [];
    }

    function Snapshot(): Tables
      reads this
    {
      Tables(users, links, grants, shares, log)
    }
  }

  // ---------------------------------------------------------------------------
  // Row predicates used by several handlers
  // ---------------------------------------------------------------------------

  /** A grant that can still be drawn on: credits left and not yet expired. */
  predicate Live(g: Grant, now: int) {
    g.paidCredits > 0 && g.end > now
  }

  /** `user_id = ? AND paid_credits > 0 AND end_date > NOW()`. */
  predicate OwnLive(g: Grant, user: UserId, now: int) {
    g.owner == user && Live(g, now)
  }

  /** An unexpired share from `owner` to `recipient` exists. */
  predicate SharedWith(shares: seq<Share>, owner: UserId, recipient: UserId, now: int) {
    exists i :: 0 <= i < |shares| && shares[i].owner == owner && shares[i].recipient == recipient
                                 && shares[i].end > now
  }

  /** The join of convert's shared-credit query: a live grant whose owner shares with `user`. */
  predicate SharedLive(shares: seq<Share>, g: Grant, user: UserId, now: int) {
    Live(g, now) && SharedWith(shares, g.owner, user, now)
  }

  /** Row `i` satisfies `q` and no row satisfying `q` expires earlier
      (`ORDER BY end_date ASC LIMIT 1`). */
  predicate Soonest(grants: seq<Grant>, i: int, q: Grant -> bool) {
    0 <= i < |grants| && q(grants[i])
    && forall j :: 0 <= j < |grants| && q(grants[j]) ==> grants[i].end <= grants[j].end
  }

  predicate NoneMatch(grants: seq<Grant>, q: Grant -> bool) {
    forall j :: 0 <= j < |grants| ==> !q(grants[j])
  }

  /** The row conditions as values, so that every query and lemma names the same condition. */
  function OwnLiveQ(user: UserId, now: int): Grant -> bool {
    (g: Grant) => OwnLive(g, user, now)
  }

  function SharedLiveQ(shares: seq<Share>, user: UserId, now: int): Grant -> bool {
    (g: Grant) => SharedLive(shares, g, user, now)
  }

  /** `user_id = ? AND end_date > NOW()`. */
  function UnexpiredOf(user: UserId, now: int): Grant -> bool {
    (g: Grant) => g.owner == user && g.end > now
  }

  function PaidCreditsOf(g: Grant): int { g.paidCredits }

  function AmountOf(x: Txn): int { x.amount }

  /** `SUM(paid_credits)` over `user`'s grants with end_date > now (no paid_credits filter). */
  function UnexpiredPaidTotal(grants: seq<Grant>, user: UserId, now: int): int {
    SumOf(Filter(grants, UnexpiredOf(user, now)), PaidCreditsOf)
  }

  // ---------------------------------------------------------------------------
  // Lookups (SELECT ... LIMIT 1 and friends), written as scans of the table
  // ---------------------------------------------------------------------------

  /** The grant row a `WHERE q ORDER BY end_date ASC LIMIT 1` query returns, if any. */
  method SelectSoonest(grants: seq<Grant>, q: Grant -> bool) returns (r: Option<nat>)
    ensures r.Some? ==> Soonest(grants, r.value, q)
    ensures r.None? <==> NoneMatch(grants, q)
  {
    r := None;
    var i := 0;
    while i < |grants|
      invariant 0 <= i <= |grants|
      invariant r.None? ==> forall j :: 0 <= j < i ==> !q(grants[j])
      invariant r.Some? ==> r.value < i && q(grants[r.value])
      invariant r.Some? ==> forall j :: 0 <= j < i && q(grants[j]) ==> grants[r.value].end <= grants[j].end
    {
      if q(grants[i]) && (r.None? || grants[i].end < grants[r.value].end) {
        r := Some(i);
      }
      i := i + 1;
    }
  }

  /** `SELECT id FROM users WHERE p LIMIT 1`: some matching user, or none when no row matches. */
  method FindUser(users: map<UserId, Account>, p: Account -> bool) returns (r: Option<UserId>)
    ensures r.Some? ==> r.value in users && p(users[r.value])
    ensures r.None? <==> forall u :: u in users ==> !p(users[u])
  {
    var rest := users.Keys;
    while rest != {}
      invariant rest <= users.Keys
      invariant forall u :: u in users && u !in rest ==> !p(users[u])
      decreases rest
    {
      var u :| u in rest;
      if p(users[u]) {
        return Some(u);
      }
      rest := rest - {u};
    }
    r := None;
  }

  /** Some join row links this provider identity to an existing account. */
  predicate Linked(users: map<UserId, Account>, links: seq<AuthLink>, provider: Provider, providerUserId: string) {
    exists i :: 0 <= i < |links| && LinkMatches(users, links[i], provider, providerUserId)
  }

  predicate LinkMatches(users: map<UserId, Account>, l: AuthLink, provider: Provider, providerUserId: string) {
    l.provider == provider && l.providerUserId == providerUserId && l.userId in users
  }

  /** `users u JOIN user_auth_providers p ON p.user_id = u.id WHERE p.provider = ? AND
      p.provider_user_id = ?`, first row. */
  method FindLinkedUser(users: map<UserId, Account>, links: seq<AuthLink>, provider: Provider, providerUserId: string)
    returns (r: Option<UserId>)
    ensures r.Some? ==> exists i :: 0 <= i < |links| && LinkMatches(users, links[i], provider, providerUserId)
                                   && links[i].userId == r.value
    ensures r.Some? ==> r.value in users
    ensures r.None? <==> forall i :: 0 <= i < |links| ==> !LinkMatches(users, links[i], provider, providerUserId)
  {
    var i := 0;
    while i < |links|
      invariant 0 <= i <= |links|
      invariant forall j :: 0 <= j < i ==> !LinkMatches(users, links[j], provider, providerUserId)
    {
      if LinkMatches(users, links[i], provider, providerUserId) {
        return Some(links[i].userId);
      }
      i := i + 1;
    }
    return None;
  }
}
