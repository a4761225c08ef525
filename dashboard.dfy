/** GET /dashboard/summary: the caller's free balance, unexpired paid total, an estimate of what
    can still be drawn through shares, today's usage, share counts, recent activity and the
    days left on the latest grant. */
module DashboardRoute {
  import opened Common
  import opened Db
  import ConvertRoute
  import ShareRoute

  /** `Number(freeRow?.credits || 0)`: no row reads as zero. */
  function FreeCredits(users: map<UserId, Account>, user: UserId): int {
    if user in users then users[user].credits else 0
  }

  // ---------------------------------------------------------------------------
  // Usage sums over the log
  // ---------------------------------------------------------------------------

  predicate IsPaidUsage(x: Txn, user: UserId) {
    x.user == user && x.kind == Usage && x.source == Paid
  }

  /** A usage row of `user` drawn from `owner`'s grant (`JSON_EXTRACT(meta, '$.owner') = owner`). */
  predicate IsSharedUsageFrom(x: Txn, user: UserId, owner: UserId) {
    x.user == user && x.kind == Usage && x.source == Shared && x.meta.SharedConvert? && x.meta.owner == owner
  }

  /** `DATE(created_at) = CURDATE()`, with days counted from the clock's origin. */
  predicate IsUsageToday(x: Txn, user: UserId, now: int) {
    x.user == user && x.kind == Usage && x.createdAt / Day == now / Day
  }

  function PaidUsageQ(user: UserId): Txn -> bool {
    (x: Txn) => IsPaidUsage(x, user)
  }

  function SharedUsageQ(user: UserId, owner: UserId): Txn -> bool {
    (x: Txn) => IsSharedUsageFrom(x, user, owner)
  }

  function TodayQ(user: UserId, now: int): Txn -> bool {
    (x: Txn) => IsUsageToday(x, user, now)
  }

  function OwnRowQ(user: UserId): Txn -> bool {
    (x: Txn) => x.user == user
  }

  /** `COALESCE(ABS(SUM(amount)), 0)` over the rows `q` keeps. */
  function AbsSum(log: seq<Txn>, q: Txn -> bool): nat {
    Abs(SumOf(Filter(log, q), AmountOf))
  }

  // ---------------------------------------------------------------------------
  // Shared remaining
  // ---------------------------------------------------------------------------

  predicate ActiveShareTo(s: Share, user: UserId, now: int) {
    s.recipient == user && s.end > now
  }

  /** `SELECT DISTINCT owner_user_id ... WHERE shared_user_id = user AND end_date > NOW()`. */
  function DistinctOwners(shares: seq<Share>, user: UserId, now: int): (owners: seq<UserId>)
    ensures forall k, l :: 0 <= k < l < |owners| ==> owners[k] != owners[l]
    ensures forall o :: o in owners <==> SharedWith(shares, o, user, now)
  {
    if shares == [] then []
    else
      var rest := DistinctOwners(shares[1..], user, now);
      assert forall o :: SharedWith(shares[1..], o, user, now) ==> SharedWith(shares, o, user, now) by {
        forall o | SharedWith(shares[1..], o, user, now) ensures SharedWith(shares, o, user, now) {
          var i :| 0 <= i < |shares[1..]| && shares[1..][i].owner == o && shares[1..][i].recipient == user
                   && shares[1..][i].end > now;
          assert shares[i + 1] == shares[1..][i];
        }
      }
      assert forall o :: SharedWith(shares, o, user, now) && o != shares[0].owner ==> SharedWith(shares[1..], o, user, now) by {
        forall o | SharedWith(shares, o, user, now) && o != shares[0].owner ensures SharedWith(shares[1..], o, user, now) {
          var i :| 0 <= i < |shares| && shares[i].owner == o && shares[i].recipient == user && shares[i].end > now;
          assert shares[1..][i - 1] == shares[i];
        }
      }
      if ActiveShareTo(shares[0], user, now) && shares[0].owner !in rest then
        assert SharedWith(shares, shares[0].owner, user, now) by { assert ActiveShareTo(shares[0], user, now); }
        [shares[0].owner] + rest
      else rest
  }

  /** One owner's contribution: the owner's unexpired paid total less everything this recipient
      ever drew from that owner, floored at zero. */
  function OwnerTerm(t: Tables, user: UserId, owner: UserId, now: int): int {
    Max(0, UnexpiredPaidTotal(t.grants, owner, now) - AbsSum(t.log, SharedUsageQ(user, owner)))
  }

  function OwnerTermQ(t: Tables, user: UserId, now: int): UserId -> int {
    (o: UserId) => OwnerTerm(t, user, o, now)
  }

  function SharedRemainingOf(t: Tables, user: UserId, now: int): int {
    SumOf(DistinctOwners(t.shares, user, now), OwnerTermQ(t, user, now))
  }

  /** The `for (const row of owners)` loop. */
  method SharedRemaining(db: Database, user: UserId, now: int) returns (total: int)
    ensures total == SharedRemainingOf(db.Snapshot(), user, now)
  {
    var owners := DistinctOwners(db.shares, user, now);
    total := 0;
    var k := 0;
    while k < |owners|
      invariant 0 <= k <= |owners|
      invariant total == SumOf(owners[..k], OwnerTermQ(db.Snapshot(), user, now))
    {
      var ownerId := owners[k];
      var ownerTotalPaid := UnexpiredPaidTotal(db.grants, ownerId, now);
      var sharedUsedByRecipient := AbsSum(db.log, SharedUsageQ(user, ownerId));
      var ownerRemaining := Max(0, ownerTotalPaid - sharedUsedByRecipient);
      SumOfAppend(owners[..k], [ownerId], OwnerTermQ(db.Snapshot(), user, now));
      assert owners[..k + 1] == owners[..k] + [ownerId];
      total := total + ownerRemaining;
      k := k + 1;
    }
    assert owners[..k] == owners;
  }

  // ---------------------------------------------------------------------------
  // The summary
  // ---------------------------------------------------------------------------

  /** The latest end date among the caller's unexpired grants (`MAX(end_date)`), if any. */
  function LatestEnd(grants: seq<Grant>, user: UserId, now: int): (r: Option<int>)
    ensures r.None? <==> forall i :: 0 <= i < |grants| ==> !UnexpiredOf(user, now)(grants[i])
    ensures r.Some? ==> exists i :: 0 <= i < |grants| && UnexpiredOf(user, now)(grants[i]) && grants[i].end == r.value
    ensures r.Some? ==> forall i :: 0 <= i < |grants| && UnexpiredOf(user, now)(grants[i]) ==> grants[i].end <= r.value
  {
    if grants == [] then None
    else
      var rest := LatestEnd(grants[1..], user, now);
      assert forall i :: 1 <= i < |grants| ==> grants[i] == grants[1..][i - 1];
      if !UnexpiredOf(user, now)(grants[0]) then rest
      else if rest.None? || rest.value < grants[0].end then Some(grants[0].end)
      else rest
  }

  /** `daysLeft`: none without an end date, 0 once it has passed, else the whole days still to
      run, rounded up. */
  function DaysLeft(endsAt: Option<int>, now: int): (r: Option<int>)
    ensures r.None? <==> endsAt.None?
    ensures endsAt.Some? && endsAt.value <= now ==> r == Some(0)
    ensures endsAt.Some? && endsAt.value > now ==>
              r.Some? && r.value >= 1 && (r.value - 1) * Day < endsAt.value - now <= r.value * Day
  {
    if endsAt.None? then None
    else
      var diff := endsAt.value - now;
      if diff > 0 then Some((diff + Day - 1) / Day) else Some(0)
  }

  datatype SummaryView = SummaryView(
    freeCredits: int,
    paidCredits: int,
    sharedCredits: int,
    availableCredits: int,
    usedToday: nat,
    sharedOut: nat,
    received: nat,
    subscriptionEndsAt: Option<int>,
    daysLeft: Option<int>,
    recentActivity: seq<Txn>,
    paidUsed: nat)

  function ActiveOutQ(user: UserId, now: int): Share -> bool {
    (s: Share) => s.owner == user && s.end > now
  }

  function ActiveInQ(user: UserId, now: int): Share -> bool {
    (s: Share) => ActiveShareTo(s, user, now)
  }

  /** `ORDER BY created_at DESC LIMIT 10` over the caller's rows. */
  function RecentActivity(log: seq<Txn>, user: UserId): (r: seq<Txn>)
    ensures |r| == Min(10, CountWhere(log, OwnRowQ(user)))
    ensures forall k :: 0 <= k < |r| ==> r[k] in log && r[k].user == user
    ensures forall k :: 0 <= k < |r| ==> r[k] == Filter(log, OwnRowQ(user))[CountWhere(log, OwnRowQ(user)) - 1 - k]
  {
    var own := Filter(log, OwnRowQ(user));
    var newestFirst := Reverse(own);
    assert forall k :: 0 <= k < |own| ==> newestFirst[k] in own;
    newestFirst[..Min(10, |own|)]
  }

  function SummaryOf(t: Tables, user: UserId, now: int): SummaryView {
    var free := FreeCredits(t.users, user);
    var paid := UnexpiredPaidTotal(t.grants, user, now);
    var shared := SharedRemainingOf(t, user, now);
    var endsAt := LatestEnd(t.grants, user, now);
    SummaryView(
      free, paid, shared, free + paid + shared,
      AbsSum(t.log, TodayQ(user, now)),
      CountWhere(t.shares, ActiveOutQ(user, now)),
      CountWhere(t.shares, ActiveInQ(user, now)),
      endsAt, DaysLeft(endsAt, now),
      RecentActivity(t.log, user),
      AbsSum(t.log, PaidUsageQ(user)))
  }

  /** The handler: plain reads plus the shared-remaining loop. */
  method Summary(db: Database, user: UserId, now: int) returns (v: SummaryView)
    ensures v == SummaryOf(db.Snapshot(), user, now)
  {
    var freeCredits := FreeCredits(db.users, user);
    var paidRemaining := UnexpiredPaidTotal(db.grants, user, now);
    var subscriptionEndsAt := LatestEnd(db.grants, user, now);
    var paidUsed := AbsSum(db.log, PaidUsageQ(user));
    var sharedRemaining := SharedRemaining(db, user, now);
    var usedToday := AbsSum(db.log, TodayQ(user, now));
    var sharedOut := CountWhere(db.shares, ActiveOutQ(user, now));
    var received := CountWhere(db.shares, ActiveInQ(user, now));
    var recentActivity := RecentActivity(db.log, user);
    var availableCredits := freeCredits + paidRemaining + sharedRemaining;
    var daysLeft := DaysLeft(subscriptionEndsAt, now);
    v := SummaryView(freeCredits, paidRemaining, sharedRemaining, availableCredits, usedToday,
                     sharedOut, received, subscriptionEndsAt, daysLeft, recentActivity, paidUsed);
  }

  // ---------------------------------------------------------------------------
  // Properties of the summary
  // ---------------------------------------------------------------------------

  /** Every owner term is at least zero, so the shared figure never lowers the available total
      below free plus paid. */
  lemma SharedNeverNegative(t: Tables, user: UserId, now: int)
    ensures SummaryOf(t, user, now).sharedCredits >= 0
    ensures SummaryOf(t, user, now).availableCredits
            >= SummaryOf(t, user, now).freeCredits + SummaryOf(t, user, now).paidCredits
  {
    var owners := DistinctOwners(t.shares, user, now);
    SumOfNonNegative(owners, OwnerTermQ(t, user, now));
  }

  /** The latest end date comes from an unexpired grant, so whenever it exists at least one day
      is reported left; the 0 branch is never taken by this route. */
  lemma DaysLeftPositive(t: Tables, user: UserId, now: int)
    ensures SummaryOf(t, user, now).daysLeft.Some? ==> SummaryOf(t, user, now).daysLeft.value >= 1
    ensures SummaryOf(t, user, now).subscriptionEndsAt.None? ==> SummaryOf(t, user, now).paidCredits == 0
  {
    CountWherePositive(t.grants, UnexpiredOf(user, now));
  }

  /** `received` counts rows while `sharedCredits` counts each owner once: there are never more
      distinct owners than received rows. */
  lemma {:induction false} OwnersAtMostReceived(shares: seq<Share>, user: UserId, now: int)
    ensures |DistinctOwners(shares, user, now)| <= CountWhere(shares, ActiveInQ(user, now))
  {
    if shares != [] {
      OwnersAtMostReceived(shares[1..], user, now);
    }
  }

  /** Under the unique (owner, recipient) key every active share comes from a different owner,
      so the two figures agree. */
  lemma {:induction false} OwnersEqualReceivedWhenPairsUnique(shares: seq<Share>, user: UserId, now: int)
    requires ShareRoute.UniquePairs(shares)
    ensures |DistinctOwners(shares, user, now)| == CountWhere(shares, ActiveInQ(user, now))
  {
    if shares != [] {
      assert ShareRoute.UniquePairs(shares[1..]) by {
        forall i, j | 0 <= i < j < |shares[1..]|
          ensures shares[1..][i].owner != shares[1..][j].owner || shares[1..][i].recipient != shares[1..][j].recipient
        {
          assert shares[1..][i] == shares[i + 1] && shares[1..][j] == shares[j + 1];
        }
      }
      OwnersEqualReceivedWhenPairsUnique(shares[1..], user, now);
      var rest := DistinctOwners(shares[1..], user, now);
      if ActiveShareTo(shares[0], user, now) {
        assert !SharedWith(shares[1..], shares[0].owner, user, now) by {
          forall j | 0 <= j < |shares[1..]|
            ensures shares[1..][j].owner != shares[0].owner || shares[1..][j].recipient != user
          {
            assert shares[1..][j] == shares[j + 1];
          }
        }
      }
    }
  }

  /** A debit of the free balance, as convert commits it, shows on the next summary: the free
      balance is one lower and today's usage one higher, while the paid and shared figures stay as
      they were, so the available total is one lower. */
  lemma FreeDebitRoundTrip(t: Tables, user: UserId, now: int)
    requires ConvertRoute.PoolInRange(t, user, ConvertRoute.FreeBalance)
    requires SumOf(Filter(t.log, TodayQ(user, now)), AmountOf) <= 0
    ensures var before := SummaryOf(t, user, now);
      var after := SummaryOf(ConvertRoute.Debited(t, user, now, ConvertRoute.FreeBalance), user, now);
      && after.freeCredits == before.freeCredits - 1
      && after.usedToday == before.usedToday + 1
      && after.paidCredits == before.paidCredits
      && after.sharedCredits == before.sharedCredits
      && after.availableCredits == before.availableCredits - 1
  {
    var row := ConvertRoute.UsageRow(user, ConvertRoute.FreeBalance, now);
    var t' := ConvertRoute.Debited(t, user, now, ConvertRoute.FreeBalance);
    assert t'.log == t.log + [row];
    FilterAppend(t.log, row, TodayQ(user, now));
    assert TodayQ(user, now)(row);
    SumOfAppend(Filter(t.log, TodayQ(user, now)), [row], AmountOf);
    assert SumOf([row], AmountOf) == -1 by { assert [row][1..] == []; }
    forall o | o in DistinctOwners(t.shares, user, now)
      ensures OwnerTermQ(t', user, now)(o) == OwnerTermQ(t, user, now)(o)
    {
      FilterAppend(t.log, row, SharedUsageQ(user, o));
      assert !SharedUsageQ(user, o)(row);
      assert Filter(t'.log, SharedUsageQ(user, o)) == Filter(t.log, SharedUsageQ(user, o));
      assert t'.grants == t.grants;
      assert OwnerTerm(t', user, o, now) == OwnerTerm(t, user, o, now);
    }
    SumOfSameTerms(DistinctOwners(t.shares, user, now), OwnerTermQ(t', user, now), OwnerTermQ(t, user, now));
  }

  /** The shared figure double counts a recipient's draws: one conversion charged to an owner's
      grant lowers that owner's unexpired total by one and raises the recipient's recorded
      draw from that owner by one, so the owner's term falls by two while the credits the
      recipient can still draw fall by one. */
  lemma SharedDebitCountsTwice(t: Tables, user: UserId, now: int, i: nat, owner: UserId)
    requires ConvertRoute.PoolInRange(t, user, ConvertRoute.SharedGrant(i, owner))
    requires ConvertRoute.SelectedPool(t, user, now, ConvertRoute.SharedGrant(i, owner))
    requires SumOf(Filter(t.log, SharedUsageQ(user, owner)), AmountOf) <= 0
    ensures var t' := ConvertRoute.Debited(t, user, now, ConvertRoute.SharedGrant(i, owner));
      && UnexpiredPaidTotal(t'.grants, owner, now) == UnexpiredPaidTotal(t.grants, owner, now) - 1
      && AbsSum(t'.log, SharedUsageQ(user, owner)) == AbsSum(t.log, SharedUsageQ(user, owner)) + 1
      && (OwnerTerm(t, user, owner, now) >= 2 ==> OwnerTerm(t', user, owner, now) == OwnerTerm(t, user, owner, now) - 2)
  {
    SharedDebitLowersOwnerTotal(t, user, now, i, owner);
    SharedDebitRaisesDraw(t, user, now, i, owner);
  }

  lemma SharedDebitLowersOwnerTotal(t: Tables, user: UserId, now: int, i: nat, owner: UserId)
    requires ConvertRoute.PoolInRange(t, user, ConvertRoute.SharedGrant(i, owner))
    requires ConvertRoute.SelectedPool(t, user, now, ConvertRoute.SharedGrant(i, owner))
    ensures var t' := ConvertRoute.Debited(t, user, now, ConvertRoute.SharedGrant(i, owner));
      UnexpiredPaidTotal(t'.grants, owner, now) == UnexpiredPaidTotal(t.grants, owner, now) - 1
  {
    var g := t.grants[i];
    assert SharedLiveQ(t.shares, user, now)(g);
    var g' := g.(paidCredits := g.paidCredits - 1);
    SumFilterUpdate(t.grants, i, g', UnexpiredOf(owner, now), PaidCreditsOf);
  }

  lemma SharedDebitRaisesDraw(t: Tables, user: UserId, now: int, i: nat, owner: UserId)
    requires ConvertRoute.PoolInRange(t, user, ConvertRoute.SharedGrant(i, owner))
    requires SumOf(Filter(t.log, SharedUsageQ(user, owner)), AmountOf) <= 0
    ensures var t' := ConvertRoute.Debited(t, user, now, ConvertRoute.SharedGrant(i, owner));
      AbsSum(t'.log, SharedUsageQ(user, owner)) == AbsSum(t.log, SharedUsageQ(user, owner)) + 1
  {
    var row := ConvertRoute.UsageRow(user, ConvertRoute.SharedGrant(i, owner), now);
    FilterAppend(t.log, row, SharedUsageQ(user, owner));
    SumOfAppend(Filter(t.log, SharedUsageQ(user, owner)), [row], AmountOf);
  }

  /** A store in which an owner bought 250 credits, shared them, and the recipient has drawn 2. */
  function DoubleCountExample(): Tables {
    Tables(map[], [],
           [Grant("g", "owner", 248, "razorpay_monthly", 0, Month)],
           [Share("owner", "rcpt", 0, Month)],
           [Txn("rcpt", Usage, -1, Shared, SharedConvert("owner"), 1),
            Txn("rcpt", Usage, -1, Shared, SharedConvert("owner"), 2)])
  }

  lemma ExampleOwnerTotal()
    ensures UnexpiredPaidTotal(DoubleCountExample().grants, "owner", 3) == 248
  {
    var grants := DoubleCountExample().grants;
    assert UnexpiredOf("owner", 3)(grants[0]);
    assert grants[1..] == [];
    assert Filter(grants, UnexpiredOf("owner", 3)) == grants;
    assert SumOf(grants, PaidCreditsOf) == PaidCreditsOf(grants[0]) + SumOf(grants[1..], PaidCreditsOf);
  }

  lemma ExampleRecipientDraw()
    ensures AbsSum(DoubleCountExample().log, SharedUsageQ("rcpt", "owner")) == 2
  {
    var log := DoubleCountExample().log;
    assert SharedUsageQ("rcpt", "owner")(log[0]) && SharedUsageQ("rcpt", "owner")(log[1]);
    assert log[1..][1..] == [];
    assert Filter(log, SharedUsageQ("rcpt", "owner")) == log;
    assert SumOf(log[1..], AmountOf) == -1;
  }

  lemma ExampleOwners()
    ensures DistinctOwners(DoubleCountExample().shares, "rcpt", 3) == ["owner"]
  {
    var shares := DoubleCountExample().shares;
    assert ActiveShareTo(shares[0], "rcpt", 3);
    assert shares[1..] == [];
  }

  /** In that store 248 credits remain to be drawn, yet the recipient's dashboard reports 246. */
  lemma DashboardUnderstatesSharedCredits()
    ensures UnexpiredPaidTotal(DoubleCountExample().grants, "owner", 3) == 248
    ensures SummaryOf(DoubleCountExample(), "rcpt", 3).sharedCredits == 246
  {
    ExampleOwnerTotal();
    ExampleRecipientDraw();
    ExampleOwners();
    var t := DoubleCountExample();
    assert OwnerTerm(t, "rcpt", "owner", 3) == 246;
    assert SumOf(["owner"], OwnerTermQ(t, "rcpt", 3)) == OwnerTerm(t, "rcpt", "owner", 3) + SumOf([], OwnerTermQ(t, "rcpt", 3));
  }
}
