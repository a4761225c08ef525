/** /admin: the `requireAdmin` guard and POST /topup, which adds to a user's free balance and
    logs a top-up row. The two writes are separate statements outside any transaction. */
module AdminRoute {
  import opened Common
  import opened Db

  datatype TopupResult =
    | ToppedUp       // 200 { ok: true }
    | AdminOnly      // 403 admin_only
    | MissingParams  // 400 missing params
    | UserNotFound   // 404 user_not_found, answered after both writes
    | ServerError    // 500 server_error

  /** Which of the two statements throws, if any. */
  datatype Fault = NoFault | UpdateFails | InsertFails

  /** The guard passes only when a non-empty token is configured and the `x-admin-token`
      header equals it. */
  predicate AdminAllowed(configured: Option<string>, header: Option<string>) {
    configured.Some? && configured.value != [] && header == configured
  }

  /** `UPDATE users SET credits = credits + amount WHERE id = userId`: no row matches a
      missing user. */
  function Credited(users: map<UserId, Account>, userId: UserId, amount: int): map<UserId, Account> {
    if userId in users then users[userId := users[userId].(credits := users[userId].credits + amount)] else users
  }

  function TopupRow(userId: UserId, amount: int, now: int): Txn {
    Txn(userId, Kind.Topup, amount, Free, ByAdmin, now)
  }

  /** Both writes done. */
  function ToppedUpState(t: Tables, userId: UserId, amount: int, now: int): Tables {
    t.(users := Credited(t.users, userId, amount), log := t.log + [TopupRow(userId, amount, now)])
  }

  method Topup(db: Database, configured: Option<string>, header: Option<string>,
               userId: UserId, amount: int, fault: Fault, now: int)
    returns (r: TopupResult)
    modifies db
    ensures !AdminAllowed(configured, header) ==> r == AdminOnly && db.Snapshot() == old(db.Snapshot())
    ensures AdminAllowed(configured, header) && (userId == [] || amount == 0) ==>
              r == MissingParams && db.Snapshot() == old(db.Snapshot())
    ensures AdminAllowed(configured, header) && userId != [] && amount != 0 ==>
              match fault
              case NoFault =>
                && db.Snapshot() == ToppedUpState(old(db.Snapshot()), userId, amount, now)
                && (r == ToppedUp <==> userId in old(db.users))
                && (r == UserNotFound <==> userId !in old(db.users))
              case UpdateFails =>
                r == ServerError && db.Snapshot() == old(db.Snapshot())
              case InsertFails =>
                r == ServerError && db.Snapshot() == old(db.Snapshot()).(users := Credited(old(db.users), userId, amount))
  {
    if !(configured.Some? && configured.value != [] && header == configured) {
      return AdminOnly;
    }
    if userId == [] || amount == 0 {
      return MissingParams;
    }
    if fault == UpdateFails {
      return ServerError;
    }
    var affectedRows := 0;
    if userId in db.users {
      db.users := db.users[userId := db.users[userId].(credits := db.users[userId].credits + amount)];
      affectedRows := 1;
    }
    if fault == InsertFails {
      return ServerError;
    }
    db.log := db.log + [TopupRow(userId, amount, now)];
    if affectedRows == 0 {
      return UserNotFound;
    }
    return ToppedUp;
  }

  /** A top-up for an id with no account still leaves a `topup` row behind, owned by nobody,
      while no balance changes. */
  lemma MissingUserStillLogged(t: Tables, userId: UserId, amount: int, now: int)
    requires userId !in t.users
    ensures var t' := ToppedUpState(t, userId, amount, now);
      && t'.users == t.users
      && |t'.log| == |t.log| + 1
      && t'.log[|t.log|].user !in t'.users
  {
  }

  /** For an existing user exactly that balance moves, by `amount`, and every other account is
      untouched. */
  lemma TopupMovesOneBalance(t: Tables, userId: UserId, amount: int, now: int)
    requires userId in t.users
    ensures var t' := ToppedUpState(t, userId, amount, now);
      && t'.users.Keys == t.users.Keys
      && t'.users[userId].credits == t.users[userId].credits + amount
      && (forall u :: u in t.users && u != userId ==> t'.users[u] == t.users[u])
  {
  }

  /** The amount is only checked to be non-zero, so a negative top-up larger than the balance
      leaves the balance negative. */
  lemma NegativeTopupGoesBelowZero()
    ensures var a := Account("a", "a@example.com", 0, false, true, None, None);
      var t := Tables(map["u" := a], [], [], [], []);
      ToppedUpState(t, "u", -5, 0).users["u"].credits == -5
  {
  }
}
