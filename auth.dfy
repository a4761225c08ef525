/** /auth: POST /signup creates an unverified local account with the signup credits and a
    verification token, GET /verify-email consumes that token, and POST /login refuses unknown
    emails, unverified accounts and wrong passwords, in that order. */
module AuthRoute {
  import opened Common
  import opened Db

  const MinPasswordLength: int := 6

  // ---------------------------------------------------------------------------
  // POST /signup
  // ---------------------------------------------------------------------------

  datatype SignupResult =
    | VerificationEmailSent   // 200 verification_email_sent
    | MissingFields           // 400 missing_fields
    | PasswordTooShort        // 400 password_too_short
    | EmailAlreadyExists      // 409 email_already_exists
    | SignupFailed            // 500 signup_failed

  /** Which awaited step throws. The steps are separate statements, so earlier writes stay. */
  datatype SignupFault = NoFault | UserInsertFails | LinkInsertFails | MailFails

  predicate EmailTaken(users: map<UserId, Account>, email: string) {
    exists u :: u in users && users[u].email == email
  }

  /** The new account: signup credits, not paid, unverified, token valid for one day. */
  function NewAccount(username: string, email: string, token: string, now: int): Account {
    Account(username, email, SignupCredits, false, false, Some(token), Some(now + Day))
  }

  function WithAccount(t: Tables, userId: UserId, username: string, email: string, token: string, now: int): Tables {
    t.(users := t.users[userId := NewAccount(username, email, token, now)])
  }

  /** Both inserts done: the account and its `local` provider row keyed by the email. */
  function SignedUp(t: Tables, userId: UserId, username: string, email: string, hash: string, token: string,
                    now: int): Tables {
    var t1 := WithAccount(t, userId, username, email, token, now);
    t1.(links := t1.links + [AuthLink(userId, Local, email, Some(hash))])
  }

  /** `userId`, `hash` and `token` are the fresh UUID, the bcrypt hash and the random hex token;
      an id already in use makes the user insert fail on its primary key. */
  method Signup(db: Database, username: string, email: string, password: string,
                userId: UserId, hash: string, token: string, fault: SignupFault, now: int)
    returns (r: SignupResult)
    modifies db
    ensures r == MissingFields <==> username == [] || email == [] || password == []
    ensures r == PasswordTooShort <==>
              username != [] && email != [] && password != [] && Utf16Length(password) < MinPasswordLength
    ensures r == EmailAlreadyExists <==>
              username != [] && email != [] && password != [] && Utf16Length(password) >= MinPasswordLength
              && EmailTaken(old(db.users), email)
    ensures r == SignupFailed <==>
              username != [] && email != [] && password != [] && Utf16Length(password) >= MinPasswordLength
              && !EmailTaken(old(db.users), email) && (userId in old(db.users) || fault != NoFault)
    ensures r == VerificationEmailSent <==>
              username != [] && email != [] && Utf16Length(password) >= MinPasswordLength && !EmailTaken(old(db.users), email)
              && userId !in old(db.users) && fault == NoFault
    ensures r == VerificationEmailSent ==>
              db.Snapshot() == SignedUp(old(db.Snapshot()), userId, username, email, hash, token, now)
    ensures r == SignupFailed ==> userId in old(db.users) || fault != NoFault
    ensures r == SignupFailed && (userId in old(db.users) || fault == UserInsertFails) ==>
              db.Snapshot() == old(db.Snapshot())
    ensures r == SignupFailed && userId !in old(db.users) && fault == LinkInsertFails ==>
              db.Snapshot() == WithAccount(old(db.Snapshot()), userId, username, email, token, now)
    ensures r == SignupFailed && userId !in old(db.users) && fault == MailFails ==>
              db.Snapshot() == SignedUp(old(db.Snapshot()), userId, username, email, hash, token, now)
    ensures r != VerificationEmailSent && r != SignupFailed ==> db.Snapshot() == old(db.Snapshot())
  {
    if username == [] || email == [] || password == [] {
      return MissingFields;
    }
    if Utf16Length(password) < MinPasswordLength {
      return PasswordTooShort;
    }
    var existing := FindUser(db.users, (a: Account) => a.email == email);
    if existing.Some? {
      return EmailAlreadyExists;
    }
    if userId in db.users || fault == UserInsertFails {
      return SignupFailed;
    }
    db.users := db.users[userId := Account(username, email, 25, false, false, Some(token), Some(now + Day))];
    if fault == LinkInsertFails {
      return SignupFailed;
    }
    db.links := db.links + [AuthLink(userId, Local, email, Some(hash))];
    if fault == MailFails {
      return SignupFailed;
    }
    return VerificationEmailSent;
  }

  /** The length check counts UTF-16 code units: three emoji outside the Basic Multilingual
      Plane are six units long and meet the minimum, though they are three characters. */
  lemma {:induction false} AstralPasswordMeetsMinimum()
    ensures |"\U{1F600}\U{1F600}\U{1F600}"| == 3
    ensures Utf16Length("\U{1F600}\U{1F600}\U{1F600}") == 6 >= MinPasswordLength
  {
    var s := "\U{1F600}\U{1F600}\U{1F600}";
    assert s[1..][1..][1..] == [];
    assert Utf16Length(s[1..][1..]) == 2;
    assert Utf16Length(s[1..]) == 4;
  }

  // ---------------------------------------------------------------------------
  // GET /verify-email
  // ---------------------------------------------------------------------------

  datatype VerifyResult =
    | Verified          // redirect to /login?verified=true
    | InvalidToken      // 400 Invalid token
    | InvalidOrExpired  // 400 Invalid or expired token

  /** `email_verification_expires >= CURDATE()`: compared with the start of today. */
  function StartOfDay(now: int): int {
    (now / Day) * Day
  }

  predicate TokenAccepted(a: Account, token: string, now: int) {
    a.verifyToken == Some(token) && a.verifyExpires.Some? && a.verifyExpires.value >= StartOfDay(now)
    && !a.emailVerified
  }

  function AcceptsQ(token: string, now: int): Account -> bool {
    (a: Account) => TokenAccepted(a, token, now)
  }

  function VerifiedState(t: Tables, u: UserId): Tables
    requires u in t.users
  {
    t.(users := t.users[u := t.users[u].(emailVerified := true, verifyToken := None, verifyExpires := None)])
  }

  method VerifyEmail(db: Database, token: string, now: int) returns (r: VerifyResult, ghost who: Option<UserId>)
    modifies db
    ensures r == InvalidToken <==> token == []
    ensures token != [] ==> (r == InvalidOrExpired <==> forall u :: u in old(db.users) ==> !TokenAccepted(old(db.users)[u], token, now))
    ensures r == Verified <==> who.Some?
    ensures who.Some? ==> who.value in old(db.users) && TokenAccepted(old(db.users)[who.value], token, now)
                          && db.Snapshot() == VerifiedState(old(db.Snapshot()), who.value)
    ensures who.None? ==> db.Snapshot() == old(db.Snapshot())
  {
    who := None;
    if token == [] {
      return InvalidToken, who;
    }
    var row := FindUser(db.users, AcceptsQ(token, now));
    if row.None? {
      return InvalidOrExpired, who;
    }
    var id := row.value;
    db.users := db.users[id := db.users[id].(emailVerified := true, verifyToken := None, verifyExpires := None)];
    who := row;
    return Verified, who;
  }

  /** A verified account accepts no token again, and when no other account holds the token it
      cannot be used a second time at all. */
  lemma VerifyIsSingleUse(t: Tables, u: UserId, token: string, now: int, later: int)
    requires u in t.users && TokenAccepted(t.users[u], token, now)
    requires forall v :: v in t.users && v != u ==> t.users[v].verifyToken != Some(token)
    ensures forall v :: v in VerifiedState(t, u).users ==> !TokenAccepted(VerifiedState(t, u).users[v], token, later)
  {
  }

  /** The expiry is compared with the start of the current day, so a token issued just after
      midnight is still accepted nearly two days later, not only within 24 hours. */
  lemma TokenOutlivesOneDay(t: Tables, userId: UserId, username: string, email: string, hash: string, token: string)
    ensures var t' := SignedUp(t, userId, username, email, hash, token, 1);
      TokenAccepted(t'.users[userId], token, 2 * Day - 2)
  {
  }

  // ---------------------------------------------------------------------------
  // POST /login
  // ---------------------------------------------------------------------------

  datatype LoginResult =
    | LoggedIn(userId: UserId)   // 200 login_success with a signed token
    | InvalidCredentials         // 401 invalid_credentials
    | EmailNotVerified           // 403 email_not_verified
    | LoginFailed                // a local row without a hash makes bcrypt throw

  /** A row of the join `users u JOIN user_auth_providers p WHERE u.email = ? AND p.provider = 'local'`. */
  predicate LoginRow(t: Tables, email: string, i: int) {
    0 <= i < |t.links| && t.links[i].provider == Local && t.links[i].userId in t.users
    && t.users[t.links[i].userId].email == email
  }

  /** What the handler answers once it picked row `i`; `matches` is bcrypt's compare. */
  function LoginOutcome(t: Tables, i: int, email: string, password: string, matches: (string, string) -> bool): LoginResult
    requires LoginRow(t, email, i)
  {
    var l := t.links[i];
    if !t.users[l.userId].emailVerified then EmailNotVerified
    else if l.passwordHash.None? then LoginFailed
    else if matches(password, l.passwordHash.value) then LoggedIn(l.userId)
    else InvalidCredentials
  }

  method Login(db: Database, email: string, password: string, matches: (string, string) -> bool)
    returns (r: LoginResult, ghost row: Option<nat>)
    ensures row.None? <==> forall i :: 0 <= i < |db.links| ==> !LoginRow(db.Snapshot(), email, i)
    ensures row.None? ==> r == InvalidCredentials
    ensures row.Some? ==> LoginRow(db.Snapshot(), email, row.value)
                          && r == LoginOutcome(db.Snapshot(), row.value, email, password, matches)
    ensures r.LoggedIn? ==> r.userId in db.users && db.users[r.userId].emailVerified
                            && db.users[r.userId].email == email
  {
    var found: Option<nat> := None;
    var i := 0;
    while i < |db.links|
      invariant 0 <= i <= |db.links|
      invariant found.None? ==> forall j :: 0 <= j < i ==> !LoginRow(db.Snapshot(), email, j)
      invariant found.Some? ==> LoginRow(db.Snapshot(), email, found.value)
    {
      var l := db.links[i];
      if l.provider == Local && l.userId in db.users && db.users[l.userId].email == email {
        found := Some(i);
        break;
      }
      i := i + 1;
    }
    row := found;
    assert found.Some? ==> LoginRow(db.Snapshot(), email, found.value);
    if found.None? {
      return InvalidCredentials, row;
    }
    var l := db.links[found.value];
    if !db.users[l.userId].emailVerified {
      return EmailNotVerified, row;
    }
    if l.passwordHash.None? {
      return LoginFailed, row;
    }
    if !matches(password, l.passwordHash.value) {
      return InvalidCredentials, row;
    }
    return LoggedIn(l.userId), row;
  }

  /** A fresh signup cannot log in until its email is verified, whatever the password; after
      verification the right password logs that account in. */
  lemma SignupThenLogin(t: Tables, userId: UserId, username: string, email: string, password: string,
                        hash: string, token: string, now: int, matches: (string, string) -> bool)
    requires !EmailTaken(t.users, email) && userId !in t.users
    requires matches(password, hash)
    ensures var t1 := SignedUp(t, userId, username, email, hash, token, now);
      && (forall i :: LoginRow(t1, email, i) ==> LoginOutcome(t1, i, email, password, matches) == EmailNotVerified)
      && LoginRow(t1, email, |t.links|)
      && var t2 := VerifiedState(t1, userId);
         LoginRow(t2, email, |t.links|) && LoginOutcome(t2, |t.links|, email, password, matches) == LoggedIn(userId)
  {
    var t1 := SignedUp(t, userId, username, email, hash, token, now);
    forall i | LoginRow(t1, email, i)
      ensures LoginOutcome(t1, i, email, password, matches) == EmailNotVerified
    {
      assert t1.links[i].userId == userId;
    }
  }
}
