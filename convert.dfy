/** POST /convert: validate the request, gate non-free languages behind a paid grant, call the
    AI backend first, and only after it replied debit exactly one credit pool, in the strict
    order own paid grant, then a grant reached through a share, then the free balance. */
module ConvertRoute {
  import opened Common
  import opened Db

  /** Languages a user without an active paid grant may convert between. */
  const FreeLanguages: seq<string> := ["python", "java", "javascript", "cpp", "c", "typescript"]

  datatype ConvertResult =
    | Converted(reply: string)   // 200 { reply }
    | MissingPrompt              // 400 missing_prompt
    | MissingLanguageInfo        // 400 missing_language_info
    | UpgradeRequired            // 403 upgrade_required
    | ConvertFailed              // 500 convert_failed: the AI call threw or replied nothing
    | InsufficientCredits        // 402 insufficient_credits
    | DeductionFailed            // 500 convert_failed_after_successful_ai: a write failed, rolled back

  /** The pool one conversion is charged to. */
  datatype Pool = OwnGrant(row: nat) | SharedGrant(row: nat, owner: UserId) | FreeBalance

  /** The pre-check's condition, `paid_credits > 0 AND end_date >= NOW()` (note `>=`). */
  function GateQ(user: UserId, now: int): Grant -> bool {
    (g: Grant) => g.owner == user && g.paidCredits > 0 && g.end >= now
  }

  predicate IsPaidUser(grants: seq<Grant>, user: UserId, now: int) {
    CountWhere(grants, GateQ(user, now)) > 0
  }

  /** The free-tier gate refuses the request. */
  predicate GateRefuses(grants: seq<Grant>, user: UserId, now: int, fromLang: string, toLang: string) {
    !IsPaidUser(grants, user, now) && (fromLang !in FreeLanguages || toLang !in FreeLanguages)
  }

  /** The request passes validation and the gate, so the AI backend is called. */
  predicate Admitted(grants: seq<Grant>, user: UserId, now: int, prompt: string, fromLang: string, toLang: string) {
    prompt != [] && fromLang != [] && toLang != [] && !GateRefuses(grants, user, now, fromLang, toLang)
  }

  /** `p` is a pool the three deduction queries can select for `user`: the first query's row
      if it has one, else the second's, else the free balance. Ties in end_date may go either way. */
  predicate SelectedPool(t: Tables, user: UserId, now: int, p: Pool) {
    match p
    case OwnGrant(i) => Soonest(t.grants, i, OwnLiveQ(user, now))
    case SharedGrant(i, o) =>
      && NoneMatch(t.grants, OwnLiveQ(user, now))
      && Soonest(t.grants, i, SharedLiveQ(t.shares, user, now))
      && o == t.grants[i].owner
    case FreeBalance =>
      NoneMatch(t.grants, OwnLiveQ(user, now)) && NoneMatch(t.grants, SharedLiveQ(t.shares, user, now))
  }

  /** Some pool can pay for one conversion. */
  predicate HasCredit(t: Tables, user: UserId, now: int) {
    || !NoneMatch(t.grants, OwnLiveQ(user, now))
    || !NoneMatch(t.grants, SharedLiveQ(t.shares, user, now))
    || (user in t.users && t.users[user].credits > 0)
  }

  predicate PoolInRange(t: Tables, user: UserId, p: Pool) {
    match p
    case OwnGrant(i) => i < |t.grants|
    case SharedGrant(i, _) => i < |t.grants|
    case FreeBalance => user in t.users
  }

  function Decremented(grants: seq<Grant>, i: nat): seq<Grant>
    requires i < |grants|
  {
    grants[i := grants[i].(paidCredits := grants[i].paidCredits - 1)]
  }

  /** The usage row a conversion charged to `p` appends. */
  function UsageRow(user: UserId, p: Pool, now: int): Txn {
    match p
    case OwnGrant(_) => Txn(user, Usage, -1, Paid, FromConvert, now)
    case SharedGrant(_, o) => Txn(user, Usage, -1, Shared, SharedConvert(o), now)
    case FreeBalance => Txn(user, Usage, -1, Free, FromConvert, now)
  }

  /** The store after a committed debit of pool `p`. */
  function Debited(t: Tables, user: UserId, now: int, p: Pool): Tables
    requires PoolInRange(t, user, p)
  {
    match p
    case OwnGrant(i) => t.(grants := Decremented(t.grants, i), log := t.log + [UsageRow(user, p, now)])
    case SharedGrant(i, _) => t.(grants := Decremented(t.grants, i), log := t.log + [UsageRow(user, p, now)])
    case FreeBalance =>
      t.(users := t.users[user := t.users[user].(credits := t.users[user].credits - 1)],
         log := t.log + [UsageRow(user, p, now)])
  }

  method Convert(db: Database, user: UserId, prompt: string, fromLang: string, toLang: string,
                 aiReply: Option<string>, fault: bool, now: int)
    returns (r: ConvertResult, ghost pool: Option<Pool>)
    modifies db
    ensures prompt == [] ==> r == MissingPrompt
    ensures prompt != [] && (fromLang == [] || toLang == []) ==> r == MissingLanguageInfo
    ensures prompt != [] && fromLang != [] && toLang != [] && GateRefuses(old(db.grants), user, now, fromLang, toLang)
            ==> r == UpgradeRequired
    ensures Admitted(old(db.grants), user, now, prompt, fromLang, toLang) && (aiReply.None? || aiReply == Some([]))
            ==> r == ConvertFailed
    ensures Admitted(old(db.grants), user, now, prompt, fromLang, toLang) && aiReply.Some? && aiReply.value != []
            ==> r == (if !HasCredit(old(db.Snapshot()), user, now) then InsufficientCredits
                      else if fault then DeductionFailed
                      else Converted(aiReply.value))
    ensures r.Converted? ==> pool.Some? && SelectedPool(old(db.Snapshot()), user, now, pool.value)
                             && PoolInRange(old(db.Snapshot()), user, pool.value)
                             && db.Snapshot() == Debited(old(db.Snapshot()), user, now, pool.value)
    ensures !r.Converted? ==> db.Snapshot() == old(db.Snapshot())
  {
    pool := None;
    if prompt == [] {
      return MissingPrompt, pool;
    }
    if fromLang == [] || toLang == [] {
      return MissingLanguageInfo, pool;
    }
    var active := CountWhere(db.grants, GateQ(user, now));
    var isPaidUser := active > 0;
    if !isPaidUser {
      if fromLang !in FreeLanguages || toLang !in FreeLanguages {
        return UpgradeRequired, pool;
      }
    }
    // The AI backend runs first; nothing is deducted when it fails.
    if aiReply.None? || aiReply.value == [] {
      return ConvertFailed, pool;
    }
    var reply := aiReply.value;

    // BEGIN: the rows this transaction may write, kept for ROLLBACK.
    var savedUsers, savedGrants, savedLog := db.users, db.grants, db.log;
    ghost var t := db.Snapshot();
    var paidRow := SelectSoonest(db.grants, OwnLiveQ(user, now));
    if paidRow.Some? {
      var i := paidRow.value;
      db.grants := Decremented(db.grants, i);
      db.log := db.log + [Txn(user, Usage, -1, Paid, FromConvert, now)];
      pool := Some(OwnGrant(i));
    } else {
      var sharedRow := SelectSoonest(db.grants, SharedLiveQ(db.shares, user, now));
      if sharedRow.Some? {
        var i := sharedRow.value;
        var owner := db.grants[i].owner;
        db.grants := Decremented(db.grants, i);
        db.log := db.log + [Txn(user, Usage, -1, Shared, SharedConvert(owner), now)];
        pool := Some(SharedGrant(i, owner));
      } else {
        if user !in db.users || db.users[user].credits <= 0 {
          // NO_CREDITS: ROLLBACK (nothing was written yet)
          return InsufficientCredits, None;
        }
        db.users := db.users[user := db.users[user].(credits := db.users[user].credits - 1)];
        db.log := db.log + [Txn(user, Usage, -1, Free, FromConvert, now)];
        pool := Some(FreeBalance);
      }
    }
    if fault {
      // A failed statement: ROLLBACK restores every row of the transaction.
      db.users, db.grants, db.log := savedUsers, savedGrants, savedLog;
      return DeductionFailed, None;
    }
    // COMMIT
    assert db.Snapshot() == Debited(t, user, now, pool.value);
    return Converted(reply), pool;
  }

  // ---------------------------------------------------------------------------
  // What a debit does and does not do
  // ---------------------------------------------------------------------------

  /** No store holds a negative balance. */
  predicate NonNegative(t: Tables) {
    && (forall u :: u in t.users ==> t.users[u].credits >= 0)
    && (forall i :: 0 <= i < |t.grants| ==> t.grants[i].paidCredits >= 0)
  }

  /** A committed debit lowers exactly one pool by exactly one credit, appends exactly one usage
      row of -1 for the caller tagged with that pool, and changes nothing else. */
  lemma DebitTakesExactlyOne(t: Tables, user: UserId, now: int, p: Pool)
    requires SelectedPool(t, user, now, p) && PoolInRange(t, user, p)
    ensures var t' := Debited(t, user, now, p);
      && t'.log == t.log + [UsageRow(user, p, now)]
      && t'.log[|t.log|].user == user && t'.log[|t.log|].kind == Usage && t'.log[|t.log|].amount == -1
      && t'.shares == t.shares && t'.links == t.links
      && (p.FreeBalance? ==> t'.grants == t.grants
                             && t'.users.Keys == t.users.Keys
                             && t'.users[user].credits == t.users[user].credits - 1
                             && forall u :: u in t.users && u != user ==> t'.users[u] == t.users[u])
      && (!p.FreeBalance? ==> t'.users == t.users
                              && |t'.grants| == |t.grants|
                              && t'.grants[p.row].paidCredits == t.grants[p.row].paidCredits - 1
                              && forall j :: 0 <= j < |t.grants| && j != p.row ==> t'.grants[j] == t.grants[j])
  {
  }

  /** A debit only draws on a pool that has a credit, so no balance goes below zero. */
  lemma DebitKeepsBalancesNonNegative(t: Tables, user: UserId, now: int, p: Pool)
    requires NonNegative(t)
    requires SelectedPool(t, user, now, p) && PoolInRange(t, user, p)
    requires p.FreeBalance? ==> t.users[user].credits > 0
    ensures NonNegative(Debited(t, user, now, p))
  {
    var t' := Debited(t, user, now, p);
    if !p.FreeBalance? {
      assert Live(t.grants[p.row], now);
      forall i | 0 <= i < |t'.grants| ensures t'.grants[i].paidCredits >= 0 {
        if i != p.row { assert t'.grants[i] == t.grants[i]; }
      }
    }
  }

  /** Pool priority: an own live grant always wins, and a shared grant wins over the free
      balance; the choice is unique up to grants of equal expiry. */
  lemma PoolPriority(t: Tables, user: UserId, now: int, p: Pool, q: Pool)
    requires SelectedPool(t, user, now, p) && SelectedPool(t, user, now, q)
    ensures (exists i :: 0 <= i < |t.grants| && OwnLive(t.grants[i], user, now)) ==> p.OwnGrant?
    ensures (forall i :: 0 <= i < |t.grants| ==> !OwnLive(t.grants[i], user, now))
            && (exists i :: 0 <= i < |t.grants| && SharedLive(t.shares, t.grants[i], user, now))
            ==> p.SharedGrant?
    ensures p.OwnGrant? <==> q.OwnGrant?
    ensures p.SharedGrant? <==> q.SharedGrant?
    ensures !p.FreeBalance? && !q.FreeBalance? ==> t.grants[p.row].end == t.grants[q.row].end
  {
    if (exists i :: 0 <= i < |t.grants| && OwnLive(t.grants[i], user, now)) {
      var i :| 0 <= i < |t.grants| && OwnLive(t.grants[i], user, now);
      assert OwnLiveQ(user, now)(t.grants[i]);
    }
    if (exists i :: 0 <= i < |t.grants| && SharedLive(t.shares, t.grants[i], user, now)) {
      var i :| 0 <= i < |t.grants| && SharedLive(t.shares, t.grants[i], user, now);
      assert SharedLiveQ(t.shares, user, now)(t.grants[i]);
    }
  }

  /** A shared debit draws on the grant of an owner who shares with the caller right now, and
      the usage row names that owner. */
  lemma SharedDebitNamesOwner(t: Tables, user: UserId, now: int, p: Pool)
    requires p.SharedGrant? && SelectedPool(t, user, now, p)
    ensures t.grants[p.row].owner == p.owner
    ensures SharedWith(t.shares, p.owner, user, now)
    ensures UsageRow(user, p, now) == Txn(user, Usage, -1, Shared, SharedConvert(p.owner), now)
  {
    assert SharedLiveQ(t.shares, user, now)(t.grants[p.row]);
  }

  /** The gate admits a user exactly when the user holds a grant with credits whose end is not
      before now; shares never lift it. */
  lemma {:induction false} GateMeansOwnGrant(grants: seq<Grant>, user: UserId, now: int)
    ensures IsPaidUser(grants, user, now)
            <==> exists i :: 0 <= i < |grants| && grants[i].owner == user && grants[i].paidCredits > 0
                                                && grants[i].end >= now
  {
    CountWherePositive(grants, GateQ(user, now));
    if IsPaidUser(grants, user, now) {
      var i :| 0 <= i < |grants| && GateQ(user, now)(grants[i]);
    } else {
      forall i | 0 <= i < |grants| && grants[i].owner == user && grants[i].paidCredits > 0
        ensures grants[i].end < now
      {
        assert !GateQ(user, now)(grants[i]);
      }
    }
  }

  /** The gate counts a grant whose end is exactly now, but the debit skips it: such a user may
      convert between non-free languages and is then charged to a share or the free balance. */
  lemma BoundaryGrantPassesGateButIsNotDebited(user: UserId, now: int)
    ensures var t := Tables(map[user := Account("u", "u@x", 1, true, true, None, None)], [],
                            [Grant("g", user, 5, "razorpay_monthly", now - Month, now)], [], []);
      && !GateRefuses(t.grants, user, now, "rust", "go")
      && SelectedPool(t, user, now, FreeBalance)
      && Debited(t, user, now, FreeBalance).grants == t.grants
      && Debited(t, user, now, FreeBalance).users[user].credits == 0
  {
    var g := Grant("g", user, 5, "razorpay_monthly", now - Month, now);
    assert CountWhere([g], GateQ(user, now)) == 1;
    assert !OwnLiveQ(user, now)(g);
    assert !SharedLiveQ([], user, now)(g);
  }
}
