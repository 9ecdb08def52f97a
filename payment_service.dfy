/** The payment simulator: charging an order and refunding a payment. The
    random outcome of a charge is the input `succeeds`, the clock reading is
    `now` and the random suffix of the transaction id is `nonce`; the
    simulated network delay is not modelled. */
module PaymentService {
  import opened Records
  import opened Text
  import opened Store

  /** The token stored with a payment: "mock_", the clock reading, "_", the random suffix. */
  function TransactionId(now: nat, nonce: string): (id: string)
    ensures |id| >= |nonce| + 7 && id[..5] == "mock_"
    ensures id[|id| - |nonce|..] == nonce
  {
    "mock_" + DecimalString(now) + "_" + nonce
  }

  /** A transaction id without its "mock_" prefix: the numeral, then "_" and the suffix. */
  lemma TransactionIdBody(now: nat, nonce: string)
    ensures TransactionId(now, nonce)[5..] == DecimalString(now) + ("_" + nonce)
  {
    var d := DecimalString(now);
    assert "mock_" + d + "_" + nonce == "mock_" + (d + ("_" + nonce));
  }

  /** Two transaction ids agree only when clock reading and suffix both agree. */
  lemma {:induction false} TransactionIdInjective(t1: nat, n1: string, t2: nat, n2: string)
    ensures TransactionId(t1, n1) == TransactionId(t2, n2) ==> t1 == t2 && n1 == n2
  {
    if TransactionId(t1, n1) == TransactionId(t2, n2) {
      var d1, d2 := DecimalString(t1), DecimalString(t2);
      var body := TransactionId(t1, n1)[5..];
      TransactionIdBody(t1, n1);
      TransactionIdBody(t2, n2);
      // the first '_' after the prefix ends the numeral, so both numerals are equally long
      LeadingDigitsOfNumeral(d1, "_" + n1);
      LeadingDigitsOfNumeral(d2, "_" + n2);
      assert d1 == body[..|d1|] == d2;
      DecimalStringInjective(t1, t2);
      assert "_" + n1 == body[|d1|..] == "_" + n2;
      assert n1 == ("_" + n1)[1..] == ("_" + n2)[1..] == n2;
    }
  }

  /** processPayment on a snapshot: a declined charge raises and persists
      nothing; an accepted one inserts one COMPLETED payment under the next id.
      The database refuses a payment for an order that does not exist or that
      already has one. */
  function ProcessPaymentStep(db: Db, orderId: nat, amount: int, currency: string, paymentMethod: string,
                              succeeds: bool, now: nat, nonce: string): (out: (Result<Payment>, Db))
    ensures out.0.Failure? ==> out.1 == db
    ensures out.0.Success? ==> out.1.payments == db.payments[out.0.value.id := out.0.value]
    ensures out.1.(payments := db.payments, nextPaymentId := db.nextPaymentId) == db
  {
    if !succeeds then (Failure(PaymentDeclined), db)
    else if orderId !in db.orders || PaymentOf(db, orderId).Some? then (Failure(ConstraintViolation), db)
    else
      var payment := Payment(db.nextPaymentId, orderId, amount, currency, StatusCompleted, paymentMethod,
                             TransactionId(now, nonce));
      (Success(payment), db.(payments := db.payments[payment.id := payment], nextPaymentId := payment.id + 1))
  }

  /** With a success outcome on an order without a payment exactly one new
      payment appears, COMPLETED and carrying the order, amount, currency and
      method it was given; with a failure outcome the charge is declined and
      nothing is stored. */
  lemma ProcessPaymentOutcome(db: Db, orderId: nat, amount: int, currency: string, paymentMethod: string,
                              succeeds: bool, now: nat, nonce: string)
    requires forall k | k in db.payments :: k < db.nextPaymentId
    ensures var out := ProcessPaymentStep(db, orderId, amount, currency, paymentMethod, succeeds, now, nonce);
      && (!succeeds ==> out == (Failure(PaymentDeclined), db))
      && (out.0.Success? <==> succeeds && orderId in db.orders && PaymentOf(db, orderId).None?)
      && (out.0.Success? ==>
            && out.0.value.id !in db.payments
            && out.1.payments.Keys == db.payments.Keys + {out.0.value.id}
            && |out.1.payments| == |db.payments| + 1
            && out.0.value.orderId == orderId && out.0.value.amount == amount
            && out.0.value.currency == currency && out.0.value.paymentMethod == paymentMethod
            && out.0.value.status == StatusCompleted
            && out.0.value.transactionId[..5] == "mock_")
  {
    var out := ProcessPaymentStep(db, orderId, amount, currency, paymentMethod, succeeds, now, nonce);
    if out.0.Success? {
      var p := out.0.value;
      assert p.id == db.nextPaymentId && p.id !in db.payments;
      assert out.1.payments.Keys == db.payments.Keys + {p.id};
      assert |db.payments.Keys + {p.id}| == |db.payments.Keys| + 1;
    }
  }

  lemma ProcessPaymentKeepsConsistent(db: Db, orderId: nat, amount: int, currency: string, paymentMethod: string,
                                      succeeds: bool, now: nat, nonce: string)
    requires Consistent(db)
    ensures Consistent(ProcessPaymentStep(db, orderId, amount, currency, paymentMethod, succeeds, now, nonce).1)
  {
    var out := ProcessPaymentStep(db, orderId, amount, currency, paymentMethod, succeeds, now, nonce);
    if out.0.Success? {
      forall k | k in db.payments ensures db.payments[k].orderId != orderId {
        PaymentOfUnique(db, k);
      }
    }
  }

  /** refundPayment on a snapshot: the payment becomes REFUNDED and its amount
      drops by the refunded amount; a missing payment is a database error. */
  function RefundPaymentStep(db: Db, paymentId: nat, amount: int): (out: (Result<Payment>, Db))
    ensures paymentId !in db.payments <==> out.0.Failure?
    ensures out.0.Failure? ==> out == (Failure(RecordNotFound), db)
    ensures out.0.Success? ==>
      && out.0.value.status == StatusRefunded
      && out.0.value.amount == db.payments[paymentId].amount - amount
      && out.0.value == db.payments[paymentId].(status := StatusRefunded, amount := out.0.value.amount)
      && out.1 == db.(payments := db.payments[paymentId := out.0.value])
  {
    if paymentId !in db.payments then (Failure(RecordNotFound), db)
    else
      var old_ := db.payments[paymentId];
      var refunded := old_.(status := StatusRefunded, amount := old_.amount - amount);
      (Success(refunded), db.(payments := db.payments[paymentId := refunded]))
  }

  /** Only the identified payment changes; every other payment is untouched. */
  lemma RefundTouchesOnlyThatPayment(db: Db, paymentId: nat, amount: int, k: nat)
    requires k in db.payments && k != paymentId
    ensures RefundPaymentStep(db, paymentId, amount).1.payments[k] == db.payments[k]
    ensures RefundPaymentStep(db, paymentId, amount).1.payments.Keys == db.payments.Keys
  {
  }

  /** A refund of the whole amount leaves 0; nothing stops a larger refund
      from driving the amount negative. */
  lemma RefundBalance(db: Db, paymentId: nat, amount: int)
    requires paymentId in db.payments
    ensures var left := RefundPaymentStep(db, paymentId, amount).1.payments[paymentId].amount;
      && (left == 0 <==> amount == db.payments[paymentId].amount)
      && (left < 0 <==> amount > db.payments[paymentId].amount)
  {
  }

  lemma RefundPaymentKeepsConsistent(db: Db, paymentId: nat, amount: int)
    requires Consistent(db)
    ensures Consistent(RefundPaymentStep(db, paymentId, amount).1)
  {
  }

  method ProcessPayment(store: Database, orderId: nat, amount: int, currency: string, paymentMethod: string,
                        succeeds: bool, now: nat, nonce: string) returns (r: Result<Payment>)
    requires store.Valid()
    modifies store
    ensures store.Valid()
    ensures (r, store.State()) ==
      ProcessPaymentStep(old(store.State()), orderId, amount, currency, paymentMethod, succeeds, now, nonce)
  {
    ProcessPaymentKeepsConsistent(store.State(), orderId, amount, currency, paymentMethod, succeeds, now, nonce);
    if !succeeds {
      return Failure(PaymentDeclined);
    }
    if orderId !in store.orders || PaymentOf(store.State(), orderId).Some? {
      return Failure(ConstraintViolation);
    }
    var payment := Payment(store.nextPaymentId, orderId, amount, currency, StatusCompleted, paymentMethod,
                           TransactionId(now, nonce));
    store.payments := store.payments[payment.id := payment];
    store.nextPaymentId := payment.id + 1;
    return Success(payment);
  }

  method RefundPayment(store: Database, paymentId: nat, amount: int) returns (r: Result<Payment>)
    requires store.Valid()
    modifies store
    ensures store.Valid()
    ensures (r, store.State()) == RefundPaymentStep(old(store.State()), paymentId, amount)
  {
    RefundPaymentKeepsConsistent(store.State(), paymentId, amount);
    if paymentId !in store.payments {
      return Failure(RecordNotFound);
    }
    var payment := store.payments[paymentId];
    payment := payment.(status := StatusRefunded, amount := payment.amount - amount);
    store.payments := store.payments[paymentId := payment];
    return Success(payment);
  }
}
