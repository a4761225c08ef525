/** /payments: the fixed order terms of POST /create-order, the signature check of POST /verify
    (which writes nothing), and the purchase history of GET /. */
module PaymentsRoute {
  import opened Common
  import opened Db
  import WebhookRoute

  /** The plan's price in rupees and the credits it buys. */
  const PriceInr: int := 99
  const PlanCredits: int := 250

  /** The order handed to the payment gateway. */
  datatype OrderTerms = OrderTerms(amountPaise: int, currency: string, receipt: string,
                                   notes: WebhookRoute.OrderNotes)

  /** POST /create-order; `receipt` is the fresh UUID. */
  function OrderFor(user: UserId, receipt: string): (o: OrderTerms)
    ensures o.amountPaise == 9900 && o.currency == "INR" && o.receipt == receipt
    ensures o.notes.userId == user && o.notes.credits == Some(250)
  {
    OrderTerms(PriceInr * 100, "INR", receipt, WebhookRoute.OrderNotes(user, Some(PlanCredits)))
  }

  /** Once the gateway captures a payment for such an order, the webhook grants the caller 250
      credits, exactly once. */
  lemma OrderNotesBuyPlanCredits(t: Tables, user: UserId, receipt: string, paymentId: string, orderId: string,
                                 grantId: string, now: int)
    requires user != []
    requires !WebhookRoute.AlreadyRecorded(t.log, paymentId)
    ensures var ev := WebhookRoute.Event("payment.captured", paymentId, orderId);
      var (r, t') := WebhookRoute.Deliver(t, ev, OrderFor(user, receipt).notes, grantId, now);
      && r == WebhookRoute.Acknowledged
      && t'.grants == t.grants + [Grant(grantId, user, PlanCredits, WebhookRoute.PlanType, now, now + Month)]
  {
    var ev := WebhookRoute.Event("payment.captured", paymentId, orderId);
    WebhookRoute.FreshPaymentGrantsOnce(t, ev, OrderFor(user, receipt).notes, grantId, now);
  }

  /** The text POST /verify signs: `order_id|payment_id`. */
  function SignedText(orderId: string, paymentId: string): string {
    orderId + "|" + paymentId
  }

  predicate NoBar(s: string) {
    forall k :: 0 <= k < |s| ==> s[k] != '|'
  }

  /** POST /verify: accepted exactly when the HMAC of the signed text equals the signature. */
  function VerifyPayment(orderId: string, paymentId: string, signature: string, hmac: string -> string): (ok: bool)
    ensures ok <==> hmac(SignedText(orderId, paymentId)) == signature
  {
    hmac(orderId + "|" + paymentId) == signature
  }

  /** With ids free of `|`, the signed text determines both ids, so a signature for one
      (order, payment) pair is not a signature for another. */
  lemma SignedTextDeterminesIds(o1: string, p1: string, o2: string, p2: string)
    requires NoBar(o1) && NoBar(o2)
    requires SignedText(o1, p1) == SignedText(o2, p2)
    ensures o1 == o2 && p1 == p2
  {
    var s := SignedText(o1, p1);
    assert s[|o1|] == '|' && s[|o2|] == '|';
    assert forall k :: 0 <= k < |o1| ==> s[k] == o1[k];
    assert forall k :: 0 <= k < |o2| ==> s[k] == o2[k];
    assert |o1| == |o2|;
    assert o1 == s[..|o1|] && o2 == s[..|o2|];
    assert p1 == s[|o1| + 1..] && p2 == s[|o2| + 1..];
  }

  /** One signature accepted for two different `|`-free (order, payment) pairs means the HMAC
      maps two different signed texts to the same value. */
  lemma SharedSignatureIsCollision(o1: string, p1: string, o2: string, p2: string, signature: string,
                                   hmac: string -> string)
    requires NoBar(o1) && NoBar(o2) && (o1 != o2 || p1 != p2)
    requires VerifyPayment(o1, p1, signature, hmac) && VerifyPayment(o2, p2, signature, hmac)
    ensures SignedText(o1, p1) != SignedText(o2, p2)
    ensures hmac(SignedText(o1, p1)) == hmac(SignedText(o2, p2))
  {
    if SignedText(o1, p1) == SignedText(o2, p2) {
      SignedTextDeterminesIds(o1, p1, o2, p2);
    }
  }

  // ---------------------------------------------------------------------------
  // GET /payments
  // ---------------------------------------------------------------------------

  datatype PaymentEntry = PaymentEntry(id: string, createdAt: int, amount: int)
  datatype History = History(data: seq<PaymentEntry>, currentPlan: string, totalSpent: int, nextRenewal: Option<int>)

  function OwnedQ(user: UserId): Grant -> bool {
    (g: Grant) => g.owner == user
  }

  /** `ORDER BY created_at DESC` over the caller's grants; a grant is created at its start. */
  function PurchasesOf(grants: seq<Grant>, user: UserId): seq<Grant> {
    Reverse(Filter(grants, OwnedQ(user)))
  }

  function EntryOf(g: Grant): PaymentEntry {
    PaymentEntry(g.id, g.start, PriceInr)
  }

  function Entries(purchases: seq<Grant>): (es: seq<PaymentEntry>)
    ensures |es| == |purchases|
    ensures forall k :: 0 <= k < |es| ==> es[k] == EntryOf(purchases[k])
  {
    if purchases == [] then [] else [EntryOf(purchases[0])] + Entries(purchases[1..])
  }

  function HistoryOf(grants: seq<Grant>, user: UserId): (h: History)
    ensures |h.data| == CountWhere(grants, OwnedQ(user))
    ensures h.totalSpent == 99 * |h.data|
    ensures h.currentPlan == (if |h.data| > 0 then "Pro" else "Free")
    ensures forall k :: 0 <= k < |h.data| ==> h.data[k].amount == 99
    ensures forall k :: 0 <= k < |h.data| ==>
              h.data[k].id == PurchasesOf(grants, user)[k].id && h.data[k].createdAt == PurchasesOf(grants, user)[k].start
    ensures h.nextRenewal.None? <==> |h.data| == 0
    ensures h.nextRenewal.Some? ==> h.nextRenewal.value == PurchasesOf(grants, user)[0].end
  {
    var purchases := PurchasesOf(grants, user);
    var n := |purchases|;
    History(Entries(purchases), if n > 0 then "Pro" else "Free", n * PriceInr,
            if n > 0 then Some(purchases[0].end) else None)
  }

  /** The newest entry is the caller's most recently created grant, not necessarily the one
      that ends last. */
  lemma NextRenewalIsNewestGrant(grants: seq<Grant>, user: UserId)
    requires CountWhere(grants, OwnedQ(user)) > 0
    ensures var own := Filter(grants, OwnedQ(user));
      HistoryOf(grants, user).nextRenewal == Some(own[|own| - 1].end)
  {
  }
}
