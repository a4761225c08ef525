/** POST /webhooks/razorpay: check the signature, keep only `payment.captured`, read the buyer
    and credit count from the order's notes, and, once per payment id, insert a purchased grant,
    a purchase row and set the buyer's paid flag, all in one transaction. */
module WebhookRoute {
  import opened Common
  import opened Db

  const PlanType: string := "razorpay_monthly"

  datatype WebhookResult =
    | Acknowledged       // 200 { ok: true }: granted, replayed, or an event that is not a capture
    | InvalidSignature   // 400 invalid signature
    | MissingMetadata    // 400 { ok: false }
    | WebhookFailed      // 500 { ok: false }: a write failed and everything was rolled back

  /** The parsed payload: its event name and the payment entity's id and order id. */
  datatype Event = Event(name: string, paymentId: string, orderId: string)

  /** The fetched order's notes; `credits` is `Number(notes.credits)`, None when that is NaN. */
  datatype OrderNotes = OrderNotes(userId: string, credits: Option<int>)

  predicate IsPurchaseOf(x: Txn, paymentId: string) {
    x.kind == Purchase && x.meta == Payment(paymentId)
  }

  function PurchaseOf(paymentId: string): Txn -> bool {
    (x: Txn) => IsPurchaseOf(x, paymentId)
  }

  /** The idempotency query: a purchase row already carries this payment id. */
  predicate AlreadyRecorded(log: seq<Txn>, paymentId: string) {
    exists i :: 0 <= i < |log| && IsPurchaseOf(log[i], paymentId)
  }

  /** `!userId || !creditsToAdd`. */
  predicate MissingNotes(notes: OrderNotes) {
    notes.userId == [] || notes.credits.None? || notes.credits.value == 0
  }

  /** The three writes of a fresh payment. */
  function Granted(t: Tables, userId: UserId, credits: int, paymentId: string, grantId: string, now: int): Tables {
    t.(grants := t.grants + [Grant(grantId, userId, credits, PlanType, now, now + Month)],
       log := t.log + [Txn(userId, Purchase, credits, Paid, Payment(paymentId), now)],
       users := if userId in t.users then t.users[userId := t.users[userId].(isPaid := true)] else t.users)
  }

  /** A delivery whose signature matched and whose writes succeed. */
  function Deliver(t: Tables, event: Event, notes: OrderNotes, grantId: string, now: int): (WebhookResult, Tables) {
    if event.name != "payment.captured" then (Acknowledged, t)
    else if MissingNotes(notes) then (MissingMetadata, t)
    else if AlreadyRecorded(t.log, event.paymentId) then (Acknowledged, t)
    else (Acknowledged, Granted(t, notes.userId, notes.credits.value, event.paymentId, grantId, now))
  }

  /** Handles one delivery. `hmac` is HMAC-SHA256 under the key secret, hex encoded; `grantId`
      the fresh UUID; `fault` says a statement inside BEGIN/COMMIT fails. */
  method Razorpay(db: Database, body: string, signature: string, hmac: string -> string,
                  event: Event, notes: OrderNotes, grantId: string, fault: bool, now: int)
    returns (r: WebhookResult)
    modifies db
    ensures hmac(body) != signature ==> r == InvalidSignature && db.Snapshot() == old(db.Snapshot())
    ensures hmac(body) == signature && !fault ==> (r, db.Snapshot()) == Deliver(old(db.Snapshot()), event, notes, grantId, now)
    ensures hmac(body) == signature && fault ==>
              if Deliver(old(db.Snapshot()), event, notes, grantId, now).1 == old(db.Snapshot())
              then (r, db.Snapshot()) == Deliver(old(db.Snapshot()), event, notes, grantId, now)
              else r == WebhookFailed && db.Snapshot() == old(db.Snapshot())
  {
    if hmac(body) != signature {
      return InvalidSignature;
    }
    if event.name != "payment.captured" {
      return Acknowledged;
    }
    var userId := notes.userId;
    if userId == [] || notes.credits.None? || notes.credits.value == 0 {
      return MissingMetadata;
    }
    var creditsToAdd := notes.credits.value;
    // BEGIN
    if AlreadyRecorded(db.log, event.paymentId) {
      // ROLLBACK of a transaction that wrote nothing
      return Acknowledged;
    }
    ghost var t := db.Snapshot();
    var savedUsers, savedGrants, savedLog := db.users, db.grants, db.log;
    db.grants := db.grants + [Grant(grantId, userId, creditsToAdd, PlanType, now, now + Month)];
    db.log := db.log + [Txn(userId, Purchase, creditsToAdd, Paid, Payment(event.paymentId), now)];
    if userId in db.users {
      db.users := db.users[userId := db.users[userId].(isPaid := true)];
    }
    assert db.Snapshot() == Granted(t, userId, creditsToAdd, event.paymentId, grantId, now);
    if fault {
      db.users, db.grants, db.log := savedUsers, savedGrants, savedLog;
      assert Granted(t, userId, creditsToAdd, event.paymentId, grantId, now).log != t.log;
      return WebhookFailed;
    }
    // COMMIT
    return Acknowledged;
  }

  // ---------------------------------------------------------------------------
  // Idempotency
  // ---------------------------------------------------------------------------

  /** A fresh captured payment adds one grant of `credits` for [now, now + 1 month), one
      purchase row of +credits carrying the payment id, and marks the buyer as paid. */
  lemma FreshPaymentGrantsOnce(t: Tables, event: Event, notes: OrderNotes, grantId: string, now: int)
    requires event.name == "payment.captured" && !MissingNotes(notes)
    requires !AlreadyRecorded(t.log, event.paymentId)
    ensures var (r, t') := Deliver(t, event, notes, grantId, now);
      && r == Acknowledged
      && t'.grants == t.grants + [Grant(grantId, notes.userId, notes.credits.value, PlanType, now, now + Month)]
      && t'.log == t.log + [Txn(notes.userId, Purchase, notes.credits.value, Paid, Payment(event.paymentId), now)]
      && (notes.userId in t.users ==> t'.users[notes.userId].isPaid)
      && t'.users.Keys == t.users.Keys
      && AlreadyRecorded(t'.log, event.paymentId)
  {
    var t' := Deliver(t, event, notes, grantId, now).1;
    assert IsPurchaseOf(t'.log[|t.log|], event.paymentId);
  }

  /** Replaying a delivery changes nothing: the same payment id never yields a second grant. */
  lemma ReplayIsNoOp(t: Tables, event: Event, notes: OrderNotes, grantId: string, grantId': string,
                     now: int, now': int)
    ensures var t1 := Deliver(t, event, notes, grantId, now).1;
      Deliver(t1, event, notes, grantId', now') == (Deliver(t, event, notes, grantId, now).0, t1)
  {
    var t1 := Deliver(t, event, notes, grantId, now).1;
    if event.name == "payment.captured" && !MissingNotes(notes) && !AlreadyRecorded(t.log, event.paymentId) {
      FreshPaymentGrantsOnce(t, event, notes, grantId, now);
    }
  }

  /** At most one purchase row per payment id holds before a delivery and still holds after it. */
  lemma AtMostOnePurchasePerPayment(t: Tables, event: Event, notes: OrderNotes, grantId: string, now: int, pid: string)
    requires CountWhere(t.log, PurchaseOf(pid)) <= 1
    ensures CountWhere(Deliver(t, event, notes, grantId, now).1.log, PurchaseOf(pid)) <= 1
  {
    var t' := Deliver(t, event, notes, grantId, now).1;
    if t'.log != t.log {
      var x := Txn(notes.userId, Purchase, notes.credits.value, Paid, Payment(event.paymentId), now);
      assert t'.log == t.log + [x];
      CountWhereAppend(t.log, x, PurchaseOf(pid));
      if PurchaseOf(pid)(x) {
        CountWherePositive(t.log, PurchaseOf(pid));
        assert pid == event.paymentId;
        assert CountWhere(t.log, PurchaseOf(pid)) == 0;
      }
    }
  }
}
