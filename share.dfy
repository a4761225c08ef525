/** /share: POST creates a share from the caller (an owner holding a live paid grant) to the
    user with a given email, with two zero-amount audit rows; GET /sent and GET /received list
    the caller's unexpired shares in each direction. */
module ShareRoute {
  import opened Common
  import opened Db

  datatype ShareResult =
    | ShareCreated      // 200 { success: true }
    | MissingEmail      // 400 missing_email
    | UpgradeRequired   // 403 upgrade_required (NOT_PAID)
    | UserNotFound      // 404 user_not_found
    | AlreadyShared     // 409 already_shared (duplicate key)
    | ShareFailed       // 500 share_failed

  /** The owner-eligibility query: a grant of the owner with credits left and end_date > NOW(). */
  predicate OwnerEligible(grants: seq<Grant>, owner: UserId, now: int) {
    exists i :: 0 <= i < |grants| && OwnLive(grants[i], owner, now)
  }

  predicate HasEmail(a: Account, email: string) {
    a.email == email
  }

  function EmailIs(email: string): Account -> bool {
    (a: Account) => HasEmail(a, email)
  }

  /** A `shared_credits` row for this (owner, recipient) pair already exists; the table's unique
      key on the pair then rejects the insert. */
  predicate PairTaken(shares: seq<Share>, owner: UserId, recipient: UserId) {
    exists i :: 0 <= i < |shares| && shares[i].owner == owner && shares[i].recipient == recipient
  }

  /** The unique key holds: no two rows share an (owner, recipient) pair. */
  predicate UniquePairs(shares: seq<Share>) {
    forall i, j :: 0 <= i < j < |shares| ==>
      shares[i].owner != shares[j].owner || shares[i].recipient != shares[j].recipient
  }

  /** The share row and the two audit rows of a successful POST. */
  function WithShare(t: Tables, owner: UserId, recipient: UserId, now: int): Tables {
    t.(shares := t.shares + [Share(owner, recipient, now, now + Month)],
       log := t.log + [Txn(owner, ShareOut, 0, Paid, SharedTo(recipient), now),
                       Txn(recipient, ShareIn, 0, Shared, SharedFrom(owner), now)])
  }

  /** POST /share. The recipient found by email is returned as a ghost result (several users
      may carry the same email; the query takes whichever row comes first). */
  method CreateShare(db: Database, owner: UserId, email: string, fault: bool, now: int)
    returns (r: ShareResult, ghost recipient: Option<UserId>)
    modifies db
    ensures r == MissingEmail <==> email == []
    ensures r == UpgradeRequired <==> email != [] && !OwnerEligible(old(db.grants), owner, now)
    ensures email != [] && OwnerEligible(old(db.grants), owner, now) ==>
              ((forall u :: u in old(db.users) ==> old(db.users)[u].email != email) <==> r == UserNotFound)
    ensures recipient.Some? ==> recipient.value in old(db.users) && old(db.users)[recipient.value].email == email
    ensures recipient.Some? <==>
              email != [] && OwnerEligible(old(db.grants), owner, now)
              && exists u :: u in old(db.users) && old(db.users)[u].email == email
    ensures r == AlreadyShared <==> recipient.Some? && PairTaken(old(db.shares), owner, recipient.value)
    ensures r == ShareCreated <==> recipient.Some? && !PairTaken(old(db.shares), owner, recipient.value) && !fault
    ensures r == ShareCreated ==> db.Snapshot() == WithShare(old(db.Snapshot()), owner, recipient.value, now)
    ensures r != ShareCreated ==> db.Snapshot() == old(db.Snapshot())
    ensures r == ShareFailed <==> recipient.Some? && !PairTaken(old(db.shares), owner, recipient.value) && fault
  {
    recipient := None;
    if email == [] {
      return MissingEmail, recipient;
    }
    // BEGIN; 1. the owner must hold a live paid grant
    var paid := SelectSoonest(db.grants, OwnLiveQ(owner, now));
    if paid.None? {
      assert !OwnerEligible(db.grants, owner, now) by {
        forall i | 0 <= i < |db.grants| ensures !OwnLive(db.grants[i], owner, now) {
          assert !OwnLiveQ(owner, now)(db.grants[i]);
        }
      }
      return UpgradeRequired, recipient;
    }
    assert OwnLiveQ(owner, now)(db.grants[paid.value]);
    // 2. the recipient, by email
    var sharedUser := FindUser(db.users, EmailIs(email));
    if sharedUser.None? {
      return UserNotFound, recipient;
    }
    recipient := sharedUser;
    var to := sharedUser.value;
    // 3. the share row; the unique key on (owner, recipient) rejects a second one
    if PairTaken(db.shares, owner, to) {
      return AlreadyShared, recipient;
    }
    var savedShares, savedLog := db.shares, db.log;
    db.shares := db.shares + [Share(owner, to, now, now + Month)];
    // 4. the audit rows
    db.log := db.log + [Txn(owner, ShareOut, 0, Paid, SharedTo(to), now)];
    db.log := db.log + [Txn(to, ShareIn, 0, Shared, SharedFrom(owner), now)];
    if fault {
      db.shares, db.log := savedShares, savedLog;
      return ShareFailed, recipient;
    }
    // COMMIT
    return ShareCreated, recipient;
  }

  /** A new share moves no credit: balances, grants and the sum of logged amounts are as before. */
  lemma ShareMovesNoCredit(t: Tables, owner: UserId, recipient: UserId, now: int)
    ensures var t' := WithShare(t, owner, recipient, now);
      && t'.users == t.users && t'.grants == t.grants
      && SumOf(t'.log, AmountOf) == SumOf(t.log, AmountOf)
  {
    var rows := [Txn(owner, ShareOut, 0, Paid, SharedTo(recipient), now),
                 Txn(recipient, ShareIn, 0, Shared, SharedFrom(owner), now)];
    assert WithShare(t, owner, recipient, now).log == t.log + rows;
    SumOfAppend(t.log, rows, AmountOf);
    assert rows[1..][1..] == [];
    assert SumOf(rows, AmountOf) == AmountOf(rows[0]) + AmountOf(rows[1..][0]) + SumOf(rows[1..][1..], AmountOf);
  }

  /** Because a taken pair is refused, every created share keeps the pair key unique. */
  lemma CreateKeepsPairsUnique(t: Tables, owner: UserId, recipient: UserId, now: int)
    requires UniquePairs(t.shares) && !PairTaken(t.shares, owner, recipient)
    ensures UniquePairs(WithShare(t, owner, recipient, now).shares)
  {
    var s' := WithShare(t, owner, recipient, now).shares;
    forall i, j | 0 <= i < j < |s'|
      ensures s'[i].owner != s'[j].owner || s'[i].recipient != s'[j].recipient
    {
      if j == |t.shares| {
        assert s'[i] == t.shares[i];
      }
    }
  }

  // ---------------------------------------------------------------------------
  // GET /sent and GET /received
  // ---------------------------------------------------------------------------

  datatype SentRow = SentRow(recipient: UserId, username: string, email: string, start: int, end: int)
  datatype ReceivedRow = ReceivedRow(owner: UserId, username: string, email: string, start: int, end: int,
                                     ownerRemaining: int)

  /** The caller's share is listed by `/sent`: it is unexpired and its recipient's account exists
      (the inner join drops a share whose recipient row is missing). */
  predicate ListedSent(users: map<UserId, Account>, user: UserId, now: int, s: Share) {
    s.owner == user && s.end > now && s.recipient in users
  }

  function SentQ(users: map<UserId, Account>, user: UserId, now: int): Share -> bool {
    (s: Share) => ListedSent(users, user, now, s)
  }

  /** The `/sent` row of a share joined to its recipient's account. */
  function SentRowOf(users: map<UserId, Account>, s: Share): SentRow
    requires s.recipient in users
  {
    SentRow(s.recipient, users[s.recipient].username, users[s.recipient].email, s.start, s.end)
  }

  /** Unexpired shares the caller made, joined to the recipient's account: one row per listed
      share, every listed share appears, and nothing else does. */
  function Sent(users: map<UserId, Account>, shares: seq<Share>, user: UserId, now: int): (rows: seq<SentRow>)
    ensures |rows| == CountWhere(shares, SentQ(users, user, now))
    ensures forall row :: row in rows ==>
      exists s :: s in shares && ListedSent(users, user, now, s) && row == SentRowOf(users, s)
    ensures forall s :: s in shares && ListedSent(users, user, now, s) ==> SentRowOf(users, s) in rows
  {
    if shares == [] then []
    else
      var s := shares[0];
      var rest := Sent(users, shares[1..], user, now);
      assert forall x :: x in shares <==> x == s || x in shares[1..];
      if ListedSent(users, user, now, s) then [SentRowOf(users, s)] + rest else rest
  }

  /** A share made to the caller is listed by `/received`: it is unexpired and its owner's
      account exists. */
  predicate ListedReceived(users: map<UserId, Account>, user: UserId, now: int, s: Share) {
    s.recipient == user && s.end > now && s.owner in users
  }

  function ReceivedQ(users: map<UserId, Account>, user: UserId, now: int): Share -> bool {
    (s: Share) => ListedReceived(users, user, now, s)
  }

  /** The `/received` row of a share joined to its owner's account, with the owner's summed
      unexpired paid credits. */
  function ReceivedRowOf(users: map<UserId, Account>, grants: seq<Grant>, s: Share, now: int): ReceivedRow
    requires s.owner in users
  {
    ReceivedRow(s.owner, users[s.owner].username, users[s.owner].email, s.start, s.end,
                UnexpiredPaidTotal(grants, s.owner, now))
  }

  /** Unexpired shares made to the caller, joined to the owner's account: one row per listed
      share, every listed share appears, and nothing else does. */
  function Received(users: map<UserId, Account>, grants: seq<Grant>, shares: seq<Share>, user: UserId, now: int)
    : (rows: seq<ReceivedRow>)
    ensures |rows| == CountWhere(shares, ReceivedQ(users, user, now))
    ensures forall row :: row in rows ==>
      exists s :: s in shares && ListedReceived(users, user, now, s) && row == ReceivedRowOf(users, grants, s, now)
    ensures forall s :: s in shares && ListedReceived(users, user, now, s) ==>
      ReceivedRowOf(users, grants, s, now) in rows
  {
    if shares == [] then []
    else
      var s := shares[0];
      var rest := Received(users, grants, shares[1..], user, now);
      assert forall x :: x in shares <==> x == s || x in shares[1..];
      if ListedReceived(users, user, now, s) then [ReceivedRowOf(users, grants, s, now)] + rest else rest
  }

  /** Every row of `/received` names an owner who shares with the caller now, with that owner's
      current unexpired paid total. */
  lemma ReceivedRowsAreActiveShares(users: map<UserId, Account>, grants: seq<Grant>, shares: seq<Share>,
                                    user: UserId, now: int, k: nat)
    requires k < |Received(users, grants, shares, user, now)|
    ensures var row := Received(users, grants, shares, user, now)[k];
      && row.end > now && SharedWith(shares, row.owner, user, now)
      && row.ownerRemaining == UnexpiredPaidTotal(grants, row.owner, now)
  {
    var row := Received(users, grants, shares, user, now)[k];
    assert row in Received(users, grants, shares, user, now);
    var s :| s in shares && ListedReceived(users, user, now, s) && row == ReceivedRowOf(users, grants, s, now);
    var i :| 0 <= i < |shares| && shares[i] == s;
  }
}
