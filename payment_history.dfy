/** The payment-history page's derived figures: total spent, current plan and next renewal,
    computed in the browser from the list GET /payments returns. */
module PaymentHistoryPage {
  import opened Common
  import opened Db
  import PaymentsRoute

  /** One listed payment as the page sees it; an absent or zero `amount` counts as 0. */
  datatype PaymentItem = PaymentItem(createdAt: int, amount: Option<int>)

  /** `p.amount || 0`. */
  function AmountOrZero(p: PaymentItem): int {
    if p.amount.Some? then p.amount.value else 0
  }

  /** `data?.data || []`. */
  function PaymentsOf(data: Option<seq<PaymentItem>>): (ps: seq<PaymentItem>)
    ensures data.None? ==> ps == []
    ensures data.Some? ==> ps == data.value
  {
    if data.Some? then data.value else []
  }

  /** `payments.reduce((sum, p) => sum + (p.amount || 0), 0)`, a left fold: it is the sum of the
      amounts, a missing amount counting as 0. */
  function TotalSpent(ps: seq<PaymentItem>): (total: int)
    ensures total == SumOf(ps, AmountOrZero)
  {
    if ps == [] then 0
    else
      var init, last := ps[..|ps| - 1], ps[|ps| - 1];
      assert ps == init + [last];
      SumOfAppend(init, [last], AmountOrZero);
      assert SumOf([last], AmountOrZero) == AmountOrZero(last) by { assert [last][1..] == []; }
      TotalSpent(init) + AmountOrZero(last)
  }

  function CurrentPlan(total: int): (plan: string)
    ensures plan == "Pro" <==> total > 0
    ensures plan == "Free" <==> total <= 0
  {
    if total > 0 then "Pro" else "Free"
  }

  /** Thirty days after the first listed payment, or none ("N/A") for an empty list. */
  function NextRenewal(ps: seq<PaymentItem>): (r: Option<int>)
    ensures r.None? <==> ps == []
    ensures r.Some? ==> r.value == ps[0].createdAt + Month
  {
    if ps == [] then None else Some(ps[0].createdAt + 30 * 24 * 60 * 60 * 1000)
  }

  /** A list whose every amount is 99 costs 99 per entry. */
  lemma {:induction false} TotalOfUniformPrices(ps: seq<PaymentItem>)
    requires forall k :: 0 <= k < |ps| ==> ps[k].amount == Some(99)
    ensures TotalSpent(ps) == 99 * |ps|
  {
    if ps != [] {
      TotalOfUniformPrices(ps[..|ps| - 1]);
    }
  }

  /** What the page receives from the server: each entry's created_at and amount. */
  function FromServer(es: seq<PaymentsRoute.PaymentEntry>): (ps: seq<PaymentItem>)
    ensures |ps| == |es|
    ensures forall k :: 0 <= k < |es| ==> ps[k] == PaymentItem(es[k].createdAt, Some(es[k].amount))
  {
    if es == [] then [] else [PaymentItem(es[0].createdAt, Some(es[0].amount))] + FromServer(es[1..])
  }

  /** Page and server agree on the total and the plan. On the renewal date they agree when the
      newest grant runs one month from its creation, as every webhook-created grant does. */
  lemma PageAgreesWithServer(grants: seq<Grant>, user: UserId)
    ensures var h := PaymentsRoute.HistoryOf(grants, user);
      var ps := FromServer(h.data);
      && TotalSpent(ps) == h.totalSpent
      && CurrentPlan(TotalSpent(ps)) == h.currentPlan
      && (ps == [] <==> h.nextRenewal.None?)
    ensures var h := PaymentsRoute.HistoryOf(grants, user);
      var newest := PaymentsRoute.PurchasesOf(grants, user);
      |h.data| > 0 && newest[0].end == newest[0].start + Month ==>
        NextRenewal(FromServer(h.data)) == h.nextRenewal
  {
    var h := PaymentsRoute.HistoryOf(grants, user);
    TotalOfUniformPrices(FromServer(h.data));
  }
}
