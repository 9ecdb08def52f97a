/** The order workflow: placing an order (per-line stock check, total from
    snapshotted prices, payment, stock decrement), cancelling it (refund, stock
    restore), overwriting its status and reading orders back. Each of
    createOrder and cancelOrder runs in one database transaction, modelled as
    all-or-nothing: when the body throws, the store is left as it was. */
module OrderService {
  import opened Records
  import opened Store
  import PaymentService

  // ---------------------------------------------------------------------------
  // Order lines: the per-line check and the price snapshot

  /** A line passes when its product exists and has at least that many in stock. */
  predicate LineOk(products: map<nat, Product>, line: LineRequest) {
    line.productId in products && products[line.productId].stockCount >= line.quantity
  }

  function LineError(products: map<nat, Product>, line: LineRequest): (e: Error)
    requires !LineOk(products, line)
    ensures e.ProductNotFound? <==> line.productId !in products
    ensures e.ProductNotFound? || e.InsufficientStock?
  {
    if line.productId !in products then ProductNotFound(line.productId)
    else InsufficientStock(products[line.productId].name)
  }

  /** The persisted line: product, quantity and the product's price right now. */
  function Snapshot(products: map<nat, Product>, line: LineRequest): OrderItem
    requires line.productId in products
  {
    OrderItem(line.productId, line.quantity, products[line.productId].price)
  }

  /** Line `i` is the first one that fails its check. */
  predicate FirstBadLine(products: map<nat, Product>, items: seq<LineRequest>, i: int) {
    && 0 <= i < |items|
    && !LineOk(products, items[i])
    && forall j | 0 <= j < i :: LineOk(products, items[j])
  }

  /** Every line is checked on its own against the stock as it was before the
      order; the first failing line decides the error. On success the lines
      are snapshotted in request order. */
  function CheckLines(products: map<nat, Product>, items: seq<LineRequest>): (r: Result<seq<OrderItem>>)
    ensures r.Success? <==> forall i | 0 <= i < |items| :: LineOk(products, items[i])
    ensures r.Success? ==>
      && |r.value| == |items|
      && forall i | 0 <= i < |items| :: items[i].productId in products && r.value[i] == Snapshot(products, items[i])
    ensures r.Failure? ==>
      exists i :: FirstBadLine(products, items, i) && r.error == LineError(products, items[i])
  {
    if items == [] then Success([])
    else if !LineOk(products, items[0]) then
      assert FirstBadLine(products, items, 0);
      Failure(LineError(products, items[0]))
    else
      match CheckLines(products, items[1..])
      case Failure(e) =>
        ghost var i :| FirstBadLine(products, items[1..], i) && e == LineError(products, items[1..][i]);
        assert FirstBadLine(products, items, i + 1);
        Failure(e)
      case Success(rest) => Success([Snapshot(products, items[0])] + rest)
  }

  // ---------------------------------------------------------------------------
  // The order total

  /** Σ price × quantity over the lines, summed left to right. */
  function Total(lines: seq<OrderItem>): int {
    if lines == [] then 0
    else Total(lines[..|lines| - 1]) + lines[|lines| - 1].price * lines[|lines| - 1].quantity
  }

  /** What a request costs at the products' current prices. */
  function Quote(products: map<nat, Product>, items: seq<LineRequest>): int
    requires forall i | 0 <= i < |items| :: items[i].productId in products
  {
    if items == [] then 0
    else products[items[0].productId].price * items[0].quantity + Quote(products, items[1..])
  }

  lemma {:induction false} TotalAppend(a: seq<OrderItem>, b: seq<OrderItem>)
    ensures Total(a + b) == Total(a) + Total(b)
  {
    if b != [] {
      assert (a + b)[..|a + b| - 1] == a + b[..|b| - 1];
      TotalAppend(a, b[..|b| - 1]);
    } else {
      assert a + b == a;
    }
  }

  /** The snapshotted lines cost what the request costs at the prices of the
      moment the order is placed. */
  lemma {:induction false} TotalOfSnapshot(products: map<nat, Product>, items: seq<LineRequest>)
    requires CheckLines(products, items).Success?
    ensures Total(CheckLines(products, items).value) == Quote(products, items)
  {
    if items != [] {
      var lines := CheckLines(products, items).value;
      TotalOfSnapshot(products, items[1..]);
      assert lines == [lines[0]] + CheckLines(products, items[1..]).value;
      TotalAppend([lines[0]], CheckLines(products, items[1..]).value);
      assert Total([lines[0]]) == Total([]) + lines[0].price * lines[0].quantity;
    }
  }

  /** The order in which lines are stored does not change the total. */
  lemma {:induction false} TotalIgnoresLineOrder(a: seq<OrderItem>, b: seq<OrderItem>)
    requires multiset(a) == multiset(b)
    ensures Total(a) == Total(b)
    decreases |a|
  {
    if a == [] {
      assert |b| == |multiset(b)| == 0;
    } else {
      var x := a[|a| - 1];
      assert a == a[..|a| - 1] + [x];
      assert x in multiset(b);
      var k :| 0 <= k < |b| && b[k] == x;
      assert b == b[..k] + [x] + b[k + 1..];
      var rest := b[..k] + b[k + 1..];
      assert multiset(a) == multiset(a[..|a| - 1]) + multiset{x};
      assert multiset(b) == multiset(b[..k]) + multiset{x} + multiset(b[k + 1..]);
      assert multiset(rest) == multiset(b[..k]) + multiset(b[k + 1..]);
      assert multiset(a[..|a| - 1]) == multiset(a) - multiset{x};
      assert multiset(rest) == multiset(b) - multiset{x};
      TotalIgnoresLineOrder(a[..|a| - 1], rest);
      TotalAppend(a[..|a| - 1], [x]);
      TotalAppend(b[..k] + [x], b[k + 1..]);
      TotalAppend(b[..k], [x]);
      TotalAppend(b[..k], b[k + 1..]);
      assert Total([x]) == Total([]) + x.price * x.quantity;
    }
  }

  // ---------------------------------------------------------------------------
  // Stock bookkeeping

  datatype Direction = Decrement | Increment

  function Signed(dir: Direction, quantity: int): int {
    if dir == Decrement then -quantity else quantity
  }

  /** How many units of `productId` the lines name, over all of them. */
  function QuantityOf(lines: seq<OrderItem>, productId: nat): int {
    if lines == [] then 0
    else
      QuantityOf(lines[..|lines| - 1], productId) +
      (if lines[|lines| - 1].productId == productId then lines[|lines| - 1].quantity else 0)
  }

  /** One stock update per line, in line order, each moving the product's
      stockCount by that line's quantity in the given direction. */
  function StockShift(products: map<nat, Product>, lines: seq<OrderItem>, dir: Direction): (r: map<nat, Product>)
    ensures r.Keys == products.Keys
  {
    if lines == [] then products
    else
      var before := StockShift(products, lines[..|lines| - 1], dir);
      var line := lines[|lines| - 1];
      if line.productId in before then
        before[line.productId := before[line.productId].(
          stockCount := before[line.productId].stockCount + Signed(dir, line.quantity))]
      else before
  }

  /** Net effect on one product: its stock moves by the total quantity of
      the lines naming it, and nothing else about it changes. */
  lemma {:induction false} StockShiftAt(products: map<nat, Product>, lines: seq<OrderItem>, dir: Direction, productId: nat)
    requires productId in products
    ensures StockShift(products, lines, dir)[productId] ==
      products[productId].(stockCount := products[productId].stockCount + Signed(dir, QuantityOf(lines, productId)))
  {
    if lines != [] {
      StockShiftAt(products, lines[..|lines| - 1], dir, productId);
    }
  }

  /** Putting back what was taken restores every product exactly. */
  lemma IncrementUndoesDecrement(products: map<nat, Product>, lines: seq<OrderItem>)
    ensures StockShift(StockShift(products, lines, Decrement), lines, Increment) == products
  {
    var taken := StockShift(products, lines, Decrement);
    var back := StockShift(taken, lines, Increment);
    forall p | p in products ensures back[p] == products[p] {
      StockShiftAt(products, lines, Decrement, p);
      StockShiftAt(taken, lines, Increment, p);
    }
  }

  predicate DistinctProducts(items: seq<LineRequest>) {
    forall i, j | 0 <= i < j < |items| :: items[i].productId != items[j].productId
  }

  predicate DistinctLines(lines: seq<OrderItem>) {
    forall i, j | 0 <= i < j < |lines| :: lines[i].productId != lines[j].productId
  }

  lemma {:induction false} QuantityOfAbsent(lines: seq<OrderItem>, productId: nat)
    requires forall i | 0 <= i < |lines| :: lines[i].productId != productId
    ensures QuantityOf(lines, productId) == 0
  {
    if lines != [] {
      QuantityOfAbsent(lines[..|lines| - 1], productId);
    }
  }

  /** When no product is named twice, a product's quantity is that of its one line. */
  lemma {:induction false} QuantityOfDistinct(lines: seq<OrderItem>, k: nat)
    requires DistinctLines(lines) && k < |lines|
    ensures QuantityOf(lines, lines[k].productId) == lines[k].quantity
  {
    var n := |lines| - 1;
    if k == n {
      QuantityOfAbsent(lines[..n], lines[k].productId);
    } else {
      QuantityOfDistinct(lines[..n], k);
    }
  }

  // ---------------------------------------------------------------------------
  // Placing an order

  /** Writes `order` under its id as the next order. */
  function Place(db: Db, order: Order): Db {
    db.(orders := db.orders[order.id := order], nextOrderId := order.id + 1)
  }

  /** Overwrites the order stored under `id` and moves the stock of its lines. */
  function Settle(db: Db, id: nat, order: Order, dir: Direction): Db {
    db.(orders := db.orders[id := order], products := StockShift(db.products, order.items, dir))
  }

  /** createOrder on a snapshot. A failing line aborts before anything is
      written. Otherwise the order is written PENDING with its snapshotted
      lines and the total is charged in USD; a failed charge makes the body
      throw, so the transaction discards the order (and the PAYMENT_FAILED
      status written just before the throw). A successful charge marks the
      order PAID and takes each line's quantity out of stock. The order
      returned is the row as first written, still PENDING. `now` is the
      clock at the insert (the order's createdAt); `payTime` is the later
      clock reading the payment simulator embeds in the transaction id. */
  function CreateOrderStep(db: Db, userId: nat, items: seq<LineRequest>, paymentMethod: string,
                           paymentSucceeds: bool, now: nat, payTime: nat, nonce: string): (out: (Result<Order>, Db))
    ensures out.0.Failure? ==> out.1 == db
    ensures out.0.Success? ==>
      && out.0.value.status == StatusPending
      && out.0.value.id in out.1.orders && out.1.orders[out.0.value.id].status == StatusPaid
  {
    match CheckLines(db.products, items)
    case Failure(e) => (Failure(e), db)
    case Success(lines) =>
      var order := Order(db.nextOrderId, userId, StatusPending, Total(lines), now, None, lines);
      var charge := PaymentService.ProcessPaymentStep(Place(db, order), order.id, order.total, Usd, paymentMethod,
                                                      paymentSucceeds, payTime, nonce);
      if charge.0.Failure? then (Failure(PaymentProcessingFailed), db)
      else (Success(order), Settle(charge.1, order.id, order.(status := StatusPaid), Decrement))
  }

  /** A line that fails its check makes createOrder fail and leaves the store
      unchanged; the first failing line names the error (not found before
      insufficient stock for that line). */
  lemma CreateOrderRejectsBadLine(db: Db, userId: nat, items: seq<LineRequest>, paymentMethod: string,
                                  paymentSucceeds: bool, now: nat, payTime: nat, nonce: string, i: nat)
    requires i < |items| && !LineOk(db.products, items[i])
    ensures var out := CreateOrderStep(db, userId, items, paymentMethod, paymentSucceeds, now, payTime, nonce);
      && out.1 == db
      && (out.0.error.ProductNotFound? || out.0.error.InsufficientStock?)
      && (FirstBadLine(db.products, items, i) ==> out.0 == Failure(LineError(db.products, items[i])))
  {
    var r := CheckLines(db.products, items);
    assert r.Failure?;
    var j :| FirstBadLine(db.products, items, j) && r.error == LineError(db.products, items[j]);
    if FirstBadLine(db.products, items, i) {
      assert !(j < i) && !(i < j);
    }
  }

  /** In a consistent store createOrder succeeds exactly when every line passes
      and the payment goes through; a failed payment leaves the whole store,
      stock included, as it was. */
  lemma CreateOrderSucceedsIff(db: Db, userId: nat, items: seq<LineRequest>, paymentMethod: string,
                               paymentSucceeds: bool, now: nat, payTime: nat, nonce: string)
    requires Consistent(db)
    ensures var out := CreateOrderStep(db, userId, items, paymentMethod, paymentSucceeds, now, payTime, nonce);
      && (out.0.Success? <==> paymentSucceeds && forall i | 0 <= i < |items| :: LineOk(db.products, items[i]))
      && (!paymentSucceeds ==> out.1 == db)
      && (!paymentSucceeds && (forall i | 0 <= i < |items| :: LineOk(db.products, items[i])) ==>
            out.0 == Failure(PaymentProcessingFailed))
  {
    var r := CheckLines(db.products, items);
    if r.Success? && paymentSucceeds {
      var lines := r.value;
      var order := Order(db.nextOrderId, userId, StatusPending, Total(lines), now, None, lines);
      PaymentOfNone(Place(db, order), order.id);
    }
  }

  /** What a successful createOrder stores: the order under the next id, PAID,
      with the lines snapshotted at current prices and a total equal both to
      Σ price × quantity over those lines and to the request's cost at the
      prices of the moment; exactly one new payment, COMPLETED, for that total
      in USD; and nothing else but stock changes. */
  lemma CreateOrderRecords(db: Db, userId: nat, items: seq<LineRequest>, paymentMethod: string,
                           paymentSucceeds: bool, now: nat, payTime: nat, nonce: string)
    requires Consistent(db)
    requires CreateOrderStep(db, userId, items, paymentMethod, paymentSucceeds, now, payTime, nonce).0.Success?
    ensures var out := CreateOrderStep(db, userId, items, paymentMethod, paymentSucceeds, now, payTime, nonce);
      var order := out.0.value;
      && order.id == db.nextOrderId && order.id !in db.orders
      && order.userId == userId && order.createdAt == now && order.cancelledAt == None
      && |order.items| == |items|
      && (forall i | 0 <= i < |items| ::
            items[i].productId in db.products && order.items[i] == Snapshot(db.products, items[i]))
      && order.total == Total(order.items)
      && order.total == Quote(db.products, items)
      && out.1.orders == db.orders[order.id := order.(status := StatusPaid)]
      && out.1.nextOrderId == db.nextOrderId + 1
      && db.nextPaymentId !in db.payments
      && out.1.payments == db.payments[db.nextPaymentId :=
           Payment(db.nextPaymentId, order.id, order.total, Usd, StatusCompleted, paymentMethod,
                   PaymentService.TransactionId(payTime, nonce))]
      && out.1.nextPaymentId == db.nextPaymentId + 1
      && out.1.categories == db.categories
      && out.1.nextCategoryId == db.nextCategoryId
  {
    TotalOfSnapshot(db.products, items);
  }

  /** A successful createOrder takes from each product exactly the quantity
      its lines ask for; products the order does not name keep their stock.
      When no product is named twice, each line's product drops by exactly
      that line's quantity. */
  lemma CreateOrderTakesStock(db: Db, userId: nat, items: seq<LineRequest>, paymentMethod: string,
                              paymentSucceeds: bool, now: nat, payTime: nat, nonce: string, productId: nat)
    requires CreateOrderStep(db, userId, items, paymentMethod, paymentSucceeds, now, payTime, nonce).0.Success?
    requires productId in db.products
    ensures var out := CreateOrderStep(db, userId, items, paymentMethod, paymentSucceeds, now, payTime, nonce);
      && out.1.products.Keys == db.products.Keys
      && out.1.products[productId] == db.products[productId].(
           stockCount := db.products[productId].stockCount - QuantityOf(out.0.value.items, productId))
      && ((forall i | 0 <= i < |items| :: items[i].productId != productId) ==>
            out.1.products[productId] == db.products[productId])
      && (forall i | 0 <= i < |items| && items[i].productId == productId && DistinctProducts(items) ::
            out.1.products[productId].stockCount == db.products[productId].stockCount - items[i].quantity)
  {
    var out := CreateOrderStep(db, userId, items, paymentMethod, paymentSucceeds, now, payTime, nonce);
    var lines := CheckLines(db.products, items).value;
    var order := Order(db.nextOrderId, userId, StatusPending, Total(lines), now, None, lines);
    var charge := PaymentService.ProcessPaymentStep(Place(db, order), order.id, order.total, Usd, paymentMethod,
                                                    paymentSucceeds, payTime, nonce);
    assert charge.1.products == db.products;
    assert out.0.value == order && out.1 == Settle(charge.1, order.id, order.(status := StatusPaid), Decrement);
    StockShiftAt(db.products, lines, Decrement, productId);
    if forall i | 0 <= i < |items| :: items[i].productId != productId {
      QuantityOfAbsent(lines, productId);
    }
    forall i | 0 <= i < |items| && items[i].productId == productId && DistinctProducts(items)
      ensures out.1.products[productId].stockCount == db.products[productId].stockCount - items[i].quantity
    {
      assert DistinctLines(lines);
      QuantityOfDistinct(lines, i);
    }
  }

  /** When no product is named twice, createOrder never drives a stock count
      below zero. */
  lemma CreateOrderKeepsStockNonNegative(db: Db, userId: nat, items: seq<LineRequest>, paymentMethod: string,
                                         paymentSucceeds: bool, now: nat, payTime: nat, nonce: string)
    requires DistinctProducts(items)
    requires forall p | p in db.products :: db.products[p].stockCount >= 0
    ensures var out := CreateOrderStep(db, userId, items, paymentMethod, paymentSucceeds, now, payTime, nonce);
      forall p | p in out.1.products :: out.1.products[p].stockCount >= 0
  {
    var out := CreateOrderStep(db, userId, items, paymentMethod, paymentSucceeds, now, payTime, nonce);
    if out.0.Success? {
      forall p | p in out.1.products ensures out.1.products[p].stockCount >= 0 {
        CreateOrderTakesStock(db, userId, items, paymentMethod, paymentSucceeds, now, payTime, nonce, p);
        if i :| 0 <= i < |items| && items[i].productId == p {
          assert LineOk(db.products, items[i]);
        }
      }
    }
  }

  /** Each line is checked against the stock as it was before the order, so
      an order naming one product twice can pass every check and still
      oversell: one unit in stock, two lines of one unit each, stock ends at -1. */
  lemma DuplicateLinesOversell()
    ensures var db := Db(map[7 := Product("mug", 500, 1, None)], map[], map[], map[], 0, 0, 0);
      var out := CreateOrderStep(db, 1, [LineRequest(7, 1), LineRequest(7, 1)], "card", true, 0, 0, "x");
      out.0.Success? && out.1.products[7].stockCount == -1
  {
    var db := Db(map[7 := Product("mug", 500, 1, None)], map[], map[], map[], 0, 0, 0);
    var items := [LineRequest(7, 1), LineRequest(7, 1)];
    assert CheckLines(db.products, items[1..]).Success?;
    CreateOrderSucceedsIff(db, 1, items, "card", true, 0, 0, "x");
    CreateOrderTakesStock(db, 1, items, "card", true, 0, 0, "x", 7);
    var lines := CreateOrderStep(db, 1, items, "card", true, 0, 0, "x").0.value.items;
    assert lines[..1] == [lines[0]];
    assert QuantityOf(lines, 7) == 2;
  }

  // ---------------------------------------------------------------------------
  // Cancelling an order

  /** cancelOrder on a snapshot. Only a PENDING or PAID order can be
      cancelled. A COMPLETED payment is refunded in full; then every line's
      quantity goes back into stock, whatever the status was; then the order
      is marked CANCELLED with the time of cancellation. */
  function CancelOrderStep(db: Db, id: nat, now: nat): (out: (Result<OrderDetail>, Db))
    ensures out.0.Failure? ==> out.1 == db
    ensures out.0.Success? <==> id in db.orders && db.orders[id].status in {StatusPending, StatusPaid}
    ensures out.0.Success? ==>
      && id in out.1.orders && out.1.orders[id].status == StatusCancelled
      && out.0.value == OrderDetail(out.1.orders[id], PaymentOf(out.1, id))
  {
    if id !in db.orders then (Failure(OrderNotFound), db)
    else
      var order := db.orders[id];
      if order.status != StatusPending && order.status != StatusPaid then (Failure(NotCancellable), db)
      else
        var after := Settle(RefundIfCompleted(db, id), id, order.(status := StatusCancelled, cancelledAt := Some(now)),
                            Increment);
        (Success(OrderDetail(after.orders[id], PaymentOf(after, id))), after)
  }

  /** Refunds the order's payment in full when it is COMPLETED. */
  function RefundIfCompleted(db: Db, id: nat): (after: Db)
    ensures after.(payments := db.payments) == db
  {
    match PaymentOf(db, id)
    case Some(p) => if p.status == StatusCompleted then PaymentService.RefundPaymentStep(db, p.id, p.amount).1 else db
    case None => db
  }

  /** A missing order is not found; an order neither PENDING nor PAID (for
      instance one already CANCELLED) cannot be cancelled; neither failure
      changes anything. */
  lemma CancelOrderRejects(db: Db, id: nat, now: nat)
    ensures id !in db.orders ==> CancelOrderStep(db, id, now) == (Failure(OrderNotFound), db)
    ensures id in db.orders && db.orders[id].status != StatusPending && db.orders[id].status != StatusPaid ==>
      CancelOrderStep(db, id, now) == (Failure(NotCancellable), db)
  {
  }

  /** What a successful cancelOrder does: the order becomes CANCELLED at
      `now`; a COMPLETED payment becomes REFUNDED with nothing left of its
      amount, any other payment is untouched; every product's stock goes up by
      the quantity the order's lines name; categories and counters stay. */
  lemma CancelOrderEffects(db: Db, id: nat, now: nat, productId: nat)
    requires Consistent(db)
    requires id in db.orders && db.orders[id].status in {StatusPending, StatusPaid}
    requires productId in db.products
    ensures var out := CancelOrderStep(db, id, now);
      var order := db.orders[id];
      && out.0.Success?
      && out.1.orders == db.orders[id := order.(status := StatusCancelled, cancelledAt := Some(now))]
      && out.1.products.Keys == db.products.Keys
      && out.1.products[productId] == db.products[productId].(
           stockCount := db.products[productId].stockCount + QuantityOf(order.items, productId))
      && (match PaymentOf(db, id)
          case Some(p) =>
            if p.status == StatusCompleted
            then p.id in db.payments && out.1.payments == db.payments[p.id := p.(status := StatusRefunded, amount := 0)]
            else out.1.payments == db.payments
          case None => out.1.payments == db.payments)
      && out.1.categories == db.categories
      && out.1.nextOrderId == db.nextOrderId && out.1.nextPaymentId == db.nextPaymentId
  {
    var order := db.orders[id];
    StockShiftAt(db.products, order.items, Increment, productId);
  }

  /** What a successful cancelOrder returns: the order as now stored,
      CANCELLED at `now`, with its payment, which is the refunded row when the
      payment was COMPLETED and the untouched row (or none) otherwise. */
  lemma CancelOrderReturns(db: Db, id: nat, now: nat)
    requires Consistent(db)
    requires id in db.orders && db.orders[id].status in {StatusPending, StatusPaid}
    ensures var out := CancelOrderStep(db, id, now);
      && out.0.Success?
      && out.0.value.order == db.orders[id].(status := StatusCancelled, cancelledAt := Some(now))
      && out.0.value.payment ==
           match PaymentOf(db, id)
           case Some(p) =>
             if p.status == StatusCompleted then Some(p.(status := StatusRefunded, amount := 0)) else Some(p)
           case None => None
  {
    var out := CancelOrderStep(db, id, now);
    var refunded := RefundIfCompleted(db, id);
    assert out.1.payments == refunded.payments && out.1.nextPaymentId == refunded.nextPaymentId;
    match PaymentOf(db, id)
    case Some(p) =>
      if p.status == StatusCompleted {
        var k :| k in db.payments && db.payments[k] == p;
        assert p.id == k;
        CancelOrderKeepsConsistent(db, id, now);
        assert out.1.payments[k] == p.(status := StatusRefunded, amount := 0);
        PaymentOfUnique(out.1, k);
      }
    case None =>
  }

  /** Stock is put back even for a PENDING order, whose stock createOrder
      never took (createOrder only ever stores PAID orders): cancelling it
      credits products with stock that was never sold. */
  lemma CancelPendingOverCredits(db: Db, id: nat, now: nat, productId: nat)
    requires Consistent(db)
    requires id in db.orders && db.orders[id].status == StatusPending
    requires productId in db.products && QuantityOf(db.orders[id].items, productId) > 0
    ensures CancelOrderStep(db, id, now).1.products[productId].stockCount > db.products[productId].stockCount
  {
    CancelOrderEffects(db, id, now, productId);
  }

  /** Right after createOrder, the order is stored PAID, its payment is the
      new COMPLETED one, and stock has been taken for its lines. */
  lemma CreatedOrderIsPaid(db: Db, userId: nat, items: seq<LineRequest>, paymentMethod: string,
                           paymentSucceeds: bool, now: nat, payTime: nat, nonce: string)
    requires Consistent(db)
    requires CreateOrderStep(db, userId, items, paymentMethod, paymentSucceeds, now, payTime, nonce).0.Success?
    ensures var out := CreateOrderStep(db, userId, items, paymentMethod, paymentSucceeds, now, payTime, nonce);
      var order := out.0.value;
      && Consistent(out.1)
      && order.id in out.1.orders && out.1.orders[order.id] == order.(status := StatusPaid)
      && db.nextPaymentId in out.1.payments
      && PaymentOf(out.1, order.id) == Some(out.1.payments[db.nextPaymentId])
      && out.1.payments[db.nextPaymentId].status == StatusCompleted
      && out.1.products == StockShift(db.products, order.items, Decrement)
  {
    var out := CreateOrderStep(db, userId, items, paymentMethod, paymentSucceeds, now, payTime, nonce);
    CreateOrderRecords(db, userId, items, paymentMethod, paymentSucceeds, now, payTime, nonce);
    CreateOrderKeepsConsistent(db, userId, items, paymentMethod, paymentSucceeds, now, payTime, nonce);
    PaymentOfUnique(out.1, db.nextPaymentId);
  }

  /** Cancelling an order right after createOrder placed it puts every
      product's stock back to its value before the order, and refunds the
      payment in full. */
  lemma CancelAfterCreateRestoresStock(db: Db, userId: nat, items: seq<LineRequest>, paymentMethod: string,
                                       paymentSucceeds: bool, now: nat, payTime: nat, nonce: string, later: nat)
    requires Consistent(db)
    requires CreateOrderStep(db, userId, items, paymentMethod, paymentSucceeds, now, payTime, nonce).0.Success?
    ensures var created := CreateOrderStep(db, userId, items, paymentMethod, paymentSucceeds, now, payTime, nonce);
      var cancelled := CancelOrderStep(created.1, created.0.value.id, later);
      && cancelled.0.Success?
      && cancelled.1.products == db.products
      && cancelled.1.payments[db.nextPaymentId].status == StatusRefunded
      && cancelled.1.payments[db.nextPaymentId].amount == 0
      && cancelled.1.orders[created.0.value.id].status == StatusCancelled
  {
    var created := CreateOrderStep(db, userId, items, paymentMethod, paymentSucceeds, now, payTime, nonce);
    var order := created.0.value;
    var mid := created.1;
    CreatedOrderIsPaid(db, userId, items, paymentMethod, paymentSucceeds, now, payTime, nonce);
    var paid := mid.orders[order.id];
    var p := mid.payments[db.nextPaymentId];
    var refunded := RefundIfCompleted(mid, order.id);
    assert refunded == PaymentService.RefundPaymentStep(mid, p.id, p.amount).1;
    assert refunded.payments[db.nextPaymentId] == p.(status := StatusRefunded, amount := 0);
    var after := Settle(refunded, order.id, paid.(status := StatusCancelled, cancelledAt := Some(later)), Increment);
    assert CancelOrderStep(mid, order.id, later).1 == after;
    IncrementUndoesDecrement(db.products, order.items);
    assert after.products == db.products;
  }

  /** A cancelled order cannot be cancelled again. */
  lemma CancelIsNotRepeatable(db: Db, id: nat, now: nat, later: nat)
    requires CancelOrderStep(db, id, now).0.Success?
    ensures var once := CancelOrderStep(db, id, now).1;
      CancelOrderStep(once, id, later) == (Failure(NotCancellable), once)
  {
  }

  // ---------------------------------------------------------------------------
  // Overwriting the status

  /** updateOrderStatus on a snapshot: any status string is written, whatever
      the current one; a missing order is a database error. */
  function UpdateOrderStatusStep(db: Db, id: nat, status: string): (out: (Result<OrderDetail>, Db))
    ensures out.0.Failure? <==> id !in db.orders
    ensures out.0.Failure? ==> out == (Failure(RecordNotFound), db)
    ensures out.0.Success? ==>
      && out.1 == db.(orders := db.orders[id := db.orders[id].(status := status)])
      && out.0.value.order == out.1.orders[id]
      && out.0.value.payment == PaymentOf(db, id)
  {
    if id !in db.orders then (Failure(RecordNotFound), db)
    else
      var order := db.orders[id].(status := status);
      var after := db.(orders := db.orders[id := order]);
      (Success(OrderDetail(order, PaymentOf(after, id))), after)
  }

  /** Nothing restricts the transition: a CANCELLED order set back to PENDING
      can be cancelled again, and its stock is then credited a second time. */
  lemma ReopenedOrderCancelsAgain(db: Db, id: nat, now: nat, later: nat, productId: nat)
    requires Consistent(db)
    requires CancelOrderStep(db, id, now).0.Success?
    requires productId in db.products
    ensures var once := CancelOrderStep(db, id, now).1;
      var reopened := UpdateOrderStatusStep(once, id, StatusPending).1;
      var twice := CancelOrderStep(reopened, id, later);
      && twice.0.Success?
      && twice.1.products[productId].stockCount ==
           db.products[productId].stockCount + 2 * QuantityOf(db.orders[id].items, productId)
  {
    var once := CancelOrderStep(db, id, now).1;
    CancelOrderKeepsConsistent(db, id, now);
    var reopened := UpdateOrderStatusStep(once, id, StatusPending).1;
    UpdateOrderStatusKeepsConsistent(once, id, StatusPending);
    CancelOrderEffects(db, id, now, productId);
    CancelOrderEffects(reopened, id, later, productId);
  }

  // ---------------------------------------------------------------------------
  // Reading orders

  /** getOrderById: the order with its payment, or not found. */
  function GetOrderById(db: Db, id: nat): (r: Result<OrderDetail>)
    ensures r.Failure? <==> id !in db.orders
    ensures r.Failure? ==> r.error == OrderNotFound
    ensures r.Success? ==>
      && r.value.order == db.orders[id]
      && (r.value.payment.Some? ==> r.value.payment.value.orderId == id && r.value.payment.value in db.payments.Values)
  {
    if id !in db.orders then Failure(OrderNotFound) else Success(OrderDetail(db.orders[id], PaymentOf(db, id)))
  }

  /** In a consistent store getOrderById returns the one payment naming the
      order when there is one, and no payment when none names it. */
  lemma GetOrderByIdPayment(db: Db, id: nat)
    requires Consistent(db) && id in db.orders
    ensures forall k | k in db.payments && db.payments[k].orderId == id ::
      GetOrderById(db, id).value.payment == Some(db.payments[k])
    ensures (forall k | k in db.payments :: db.payments[k].orderId != id) ==>
      GetOrderById(db, id).value.payment == None
  {
    forall k | k in db.payments && db.payments[k].orderId == id
      ensures GetOrderById(db, id).value.payment == Some(db.payments[k])
    {
      PaymentOfUnique(db, k);
    }
    if forall k | k in db.payments :: db.payments[k].orderId != id {
      PaymentOfNone(db, id);
    }
  }

  predicate NewestFirst(details: seq<OrderDetail>) {
    forall i, j | 0 <= i < j < |details| :: details[i].order.createdAt >= details[j].order.createdAt
  }

  predicate DistinctOrders(details: seq<OrderDetail>) {
    forall i, j | 0 <= i < j < |details| :: details[i].order.id != details[j].order.id
  }

  /** Putting in front an entry no older than any other keeps the list newest first. */
  lemma NewestFirstCons(head: OrderDetail, rest: seq<OrderDetail>)
    requires NewestFirst(rest)
    requires forall x | x in rest :: head.order.createdAt >= x.order.createdAt
    ensures NewestFirst([head] + rest)
  {
    var r := [head] + rest;
    forall i, j | 0 <= i < j < |r| ensures r[i].order.createdAt >= r[j].order.createdAt {
      assert r[j] == rest[j - 1];
      if i > 0 {
        assert r[i] == rest[i - 1];
      } else {
        assert rest[j - 1] in rest;
      }
    }
  }

  /** Putting in front an entry whose id no other has keeps the ids distinct. */
  lemma DistinctOrdersCons(head: OrderDetail, rest: seq<OrderDetail>)
    requires DistinctOrders(rest)
    requires forall x | x in rest :: x.order.id != head.order.id
    ensures DistinctOrders([head] + rest)
  {
    var r := [head] + rest;
    forall i, j | 0 <= i < j < |r| ensures r[i].order.id != r[j].order.id {
      assert r[j] == rest[j - 1];
      if i > 0 {
        assert r[i] == rest[i - 1];
      } else {
        assert rest[j - 1] in rest;
      }
    }
  }

  /** Puts `d` in front of the first entry that is not newer than it. */
  function InsertNewestFirst(d: OrderDetail, details: seq<OrderDetail>): (r: seq<OrderDetail>)
    ensures multiset(r) == multiset(details) + multiset{d}
  {
    if details == [] || d.order.createdAt >= details[0].order.createdAt then [d] + details
    else
      assert details == [details[0]] + details[1..];
      [details[0]] + InsertNewestFirst(d, details[1..])
  }

  /** Inserting adds `d` and keeps every entry already there. */
  lemma InsertNewestFirstMembers(d: OrderDetail, details: seq<OrderDetail>)
    ensures forall x :: x in InsertNewestFirst(d, details) <==> x == d || x in details
  {
    var r := InsertNewestFirst(d, details);
    forall x ensures x in r <==> x == d || x in details {
      assert x in r <==> x in multiset(r);
      assert x in details <==> x in multiset(details);
    }
  }

  /** Inserting into a newest-first list keeps it newest first. */
  lemma {:induction false} InsertNewestFirstSorted(d: OrderDetail, details: seq<OrderDetail>)
    requires NewestFirst(details)
    ensures NewestFirst(InsertNewestFirst(d, details))
  {
    if details == [] || d.order.createdAt >= details[0].order.createdAt {
      NewestFirstCons(d, details);
    } else {
      var head, tail := details[0], details[1..];
      assert forall i | 0 <= i < |tail| :: tail[i] == details[i + 1];
      InsertNewestFirstSorted(d, tail);
      var rest := InsertNewestFirst(d, tail);
      forall x | x in rest ensures head.order.createdAt >= x.order.createdAt {
        assert x in multiset(rest);
        if x != d {
          var j :| 0 <= j < |tail| && tail[j] == x;
        }
      }
      NewestFirstCons(head, rest);
    }
  }

  /** Inserting an entry whose id is new keeps the ids distinct. */
  lemma {:induction false} InsertNewestFirstDistinct(d: OrderDetail, details: seq<OrderDetail>)
    requires DistinctOrders(details)
    requires forall x | x in details :: x.order.id != d.order.id
    ensures DistinctOrders(InsertNewestFirst(d, details))
  {
    if details == [] || d.order.createdAt >= details[0].order.createdAt {
      DistinctOrdersCons(d, details);
    } else {
      var head, tail := details[0], details[1..];
      assert forall i | 0 <= i < |tail| :: tail[i] == details[i + 1];
      InsertNewestFirstDistinct(d, tail);
      var rest := InsertNewestFirst(d, tail);
      forall x | x in rest ensures x.order.id != head.order.id {
        assert x in multiset(rest);
        if x != d {
          var j :| 0 <= j < |tail| && tail[j] == x;
        }
      }
      DistinctOrdersCons(head, rest);
    }
  }

  /** The orders of `userId` with ids below `n`, newest first. */
  function UserOrdersBelow(db: Db, userId: nat, n: nat): seq<OrderDetail> {
    if n == 0 then []
    else
      var rest := UserOrdersBelow(db, userId, n - 1);
      if n - 1 in db.orders && db.orders[n - 1].userId == userId
      then InsertNewestFirst(OrderDetail(db.orders[n - 1], PaymentOf(db, n - 1)), rest)
      else rest
  }

  /** `x` is the stored order `x.order.id` of `userId`, with its payment. */
  predicate ListedFor(db: Db, userId: nat, x: OrderDetail) {
    && x.order.id in db.orders
    && x == OrderDetail(db.orders[x.order.id], PaymentOf(db, x.order.id))
    && x.order.userId == userId
  }

  /** Everything listed below `n` is an order of `userId` with an id below `n`. */
  lemma {:induction false} UserOrdersBelowSound(db: Db, userId: nat, n: nat)
    requires forall k | k in db.orders :: db.orders[k].id == k
    ensures forall x | x in UserOrdersBelow(db, userId, n) :: ListedFor(db, userId, x)
  {
    if n > 0 {
      UserOrdersBelowSound(db, userId, n - 1);
      var rest := UserOrdersBelow(db, userId, n - 1);
      if n - 1 in db.orders && db.orders[n - 1].userId == userId {
        InsertNewestFirstMembers(OrderDetail(db.orders[n - 1], PaymentOf(db, n - 1)), rest);
      }
    }
  }

  /** Only ids below `n` are listed. */
  lemma {:induction false} UserOrdersBelowIds(db: Db, userId: nat, n: nat)
    requires forall k | k in db.orders :: db.orders[k].id == k
    ensures forall x | x in UserOrdersBelow(db, userId, n) :: x.order.id < n
  {
    if n > 0 {
      UserOrdersBelowIds(db, userId, n - 1);
      var rest := UserOrdersBelow(db, userId, n - 1);
      if n - 1 in db.orders && db.orders[n - 1].userId == userId {
        InsertNewestFirstMembers(OrderDetail(db.orders[n - 1], PaymentOf(db, n - 1)), rest);
      }
    }
  }

  /** Every order of `userId` with an id below `n` is listed. */
  lemma {:induction false} UserOrdersBelowComplete(db: Db, userId: nat, n: nat)
    ensures forall k | k in db.orders && k < n && db.orders[k].userId == userId ::
      OrderDetail(db.orders[k], PaymentOf(db, k)) in UserOrdersBelow(db, userId, n)
  {
    if n > 0 {
      UserOrdersBelowComplete(db, userId, n - 1);
      var rest := UserOrdersBelow(db, userId, n - 1);
      if n - 1 in db.orders && db.orders[n - 1].userId == userId {
        InsertNewestFirstMembers(OrderDetail(db.orders[n - 1], PaymentOf(db, n - 1)), rest);
      }
    }
  }

  /** The list is newest first. */
  lemma {:induction false} UserOrdersBelowSorted(db: Db, userId: nat, n: nat)
    ensures NewestFirst(UserOrdersBelow(db, userId, n))
  {
    if n > 0 {
      UserOrdersBelowSorted(db, userId, n - 1);
      var rest := UserOrdersBelow(db, userId, n - 1);
      if n - 1 in db.orders && db.orders[n - 1].userId == userId {
        InsertNewestFirstSorted(OrderDetail(db.orders[n - 1], PaymentOf(db, n - 1)), rest);
      }
    }
  }

  /** The list names no order twice. */
  lemma {:induction false} UserOrdersBelowDistinct(db: Db, userId: nat, n: nat)
    requires forall k | k in db.orders :: db.orders[k].id == k
    ensures DistinctOrders(UserOrdersBelow(db, userId, n))
  {
    if n > 0 {
      UserOrdersBelowDistinct(db, userId, n - 1);
      UserOrdersBelowIds(db, userId, n - 1);
      var rest := UserOrdersBelow(db, userId, n - 1);
      if n - 1 in db.orders && db.orders[n - 1].userId == userId {
        var d := OrderDetail(db.orders[n - 1], PaymentOf(db, n - 1));
        forall x | x in rest ensures x.order.id != d.order.id {
          assert x.order.id < n - 1;
        }
        InsertNewestFirstDistinct(d, rest);
      }
    }
  }

  /** getUserOrders: exactly the orders of `userId`, each once, with their
      payments, newest first by creation time. */
  function GetUserOrders(db: Db, userId: nat): (r: seq<OrderDetail>)
    requires Consistent(db)
    ensures NewestFirst(r) && DistinctOrders(r)
    ensures forall x | x in r ::
      x.order.id in db.orders && x.order == db.orders[x.order.id] && x.order.userId == userId &&
      x.payment == PaymentOf(db, x.order.id)
    ensures forall k | k in db.orders && db.orders[k].userId == userId ::
      OrderDetail(db.orders[k], PaymentOf(db, k)) in r
  {
    UserOrdersBelowSound(db, userId, db.nextOrderId);
    UserOrdersBelowComplete(db, userId, db.nextOrderId);
    UserOrdersBelowSorted(db, userId, db.nextOrderId);
    UserOrdersBelowDistinct(db, userId, db.nextOrderId);
    UserOrdersBelow(db, userId, db.nextOrderId)
  }

  // ---------------------------------------------------------------------------
  // Invariants the operations keep

  /** Every stored total is Σ price × quantity over the stored lines. */
  ghost predicate TotalsMatch(db: Db) {
    forall k | k in db.orders :: db.orders[k].total == Total(db.orders[k].items)
  }

  /** Storing an order whose total matches its lines keeps every total matching. */
  lemma StoreKeepsTotals(db: Db, after: Db, id: nat, order: Order)
    requires TotalsMatch(db)
    requires after.orders == db.orders[id := order] && order.total == Total(order.items)
    ensures TotalsMatch(after)
  {
  }

  /** A stored total is never out of step with its lines after createOrder. */
  lemma CreateOrderKeepsTotals(db: Db, userId: nat, items: seq<LineRequest>, paymentMethod: string,
                               paymentSucceeds: bool, now: nat, payTime: nat, nonce: string)
    requires TotalsMatch(db)
    ensures TotalsMatch(CreateOrderStep(db, userId, items, paymentMethod, paymentSucceeds, now, payTime, nonce).1)
  {
    var out := CreateOrderStep(db, userId, items, paymentMethod, paymentSucceeds, now, payTime, nonce);
    if out.0.Success? {
      var order := out.0.value;
      assert out.1.orders == db.orders[order.id := order.(status := StatusPaid)];
      StoreKeepsTotals(db, out.1, order.id, order.(status := StatusPaid));
    }
  }

  /** cancelOrder and updateOrderStatus rewrite an order without touching its
      lines or total. */
  lemma CancelOrderKeepsTotals(db: Db, id: nat, now: nat)
    requires TotalsMatch(db)
    ensures TotalsMatch(CancelOrderStep(db, id, now).1)
  {
    var out := CancelOrderStep(db, id, now);
    if out.0.Success? {
      var order := db.orders[id].(status := StatusCancelled, cancelledAt := Some(now));
      assert out.1.orders == db.orders[id := order];
      StoreKeepsTotals(db, out.1, id, order);
    }
  }

  lemma UpdateOrderStatusKeepsTotals(db: Db, id: nat, status: string)
    requires TotalsMatch(db)
    ensures TotalsMatch(UpdateOrderStatusStep(db, id, status).1)
  {
    var out := UpdateOrderStatusStep(db, id, status);
    if out.0.Success? {
      StoreKeepsTotals(db, out.1, id, db.orders[id].(status := status));
    }
  }

  /** Writing a new order whose lines name existing products under the next id. */
  lemma PlaceKeepsConsistent(db: Db, order: Order)
    requires Consistent(db)
    requires order.id == db.nextOrderId
    requires forall i | 0 <= i < |order.items| :: order.items[i].productId in db.products
    ensures Consistent(Place(db, order))
  {
  }

  /** Overwriting an existing order (same lines) and moving stock. */
  lemma SettleKeepsConsistent(db: Db, id: nat, order: Order, dir: Direction)
    requires Consistent(db) && id in db.orders && order.id == id && order.items == db.orders[id].items
    ensures Consistent(Settle(db, id, order, dir))
  {
    var after := Settle(db, id, order, dir);
    forall p | p in after.products ensures after.products[p].categoryId == db.products[p].categoryId {
      StockShiftAt(db.products, order.items, dir, p);
    }
  }

  lemma CreateOrderKeepsConsistent(db: Db, userId: nat, items: seq<LineRequest>, paymentMethod: string,
                                   paymentSucceeds: bool, now: nat, payTime: nat, nonce: string)
    requires Consistent(db)
    ensures var out := CreateOrderStep(db, userId, items, paymentMethod, paymentSucceeds, now, payTime, nonce);
      Consistent(out.1)
  {
    var r := CheckLines(db.products, items);
    if r.Success? {
      var lines := r.value;
      var order := Order(db.nextOrderId, userId, StatusPending, Total(lines), now, None, lines);
      PlaceKeepsConsistent(db, order);
      var charge := PaymentService.ProcessPaymentStep(Place(db, order), order.id, order.total, Usd, paymentMethod,
                                                      paymentSucceeds, payTime, nonce);
      PaymentService.ProcessPaymentKeepsConsistent(Place(db, order), order.id, order.total, Usd, paymentMethod,
                                                   paymentSucceeds, payTime, nonce);
      if charge.0.Success? {
        SettleKeepsConsistent(charge.1, order.id, order.(status := StatusPaid), Decrement);
      }
    }
  }

  lemma CancelOrderKeepsConsistent(db: Db, id: nat, now: nat)
    requires Consistent(db)
    ensures var out := CancelOrderStep(db, id, now);
      Consistent(out.1)
  {
    if id in db.orders && db.orders[id].status in {StatusPending, StatusPaid} {
      var refunded := RefundIfCompleted(db, id);
      assert Consistent(refunded) by {
        match PaymentOf(db, id)
        case Some(p) =>
          if p.status == StatusCompleted {
            PaymentService.RefundPaymentKeepsConsistent(db, p.id, p.amount);
          }
        case None =>
      }
      SettleKeepsConsistent(refunded, id, db.orders[id].(status := StatusCancelled, cancelledAt := Some(now)), Increment);
    }
  }

  lemma UpdateOrderStatusKeepsConsistent(db: Db, id: nat, status: string)
    requires Consistent(db)
    ensures var out := UpdateOrderStatusStep(db, id, status);
      Consistent(out.1)
  {
  }

  // ---------------------------------------------------------------------------
  // The operations on the live store

  /** One stock update per line: decrement (createOrder) or increment
      (cancelOrder) the line's product by the line's quantity. */
  method ShiftStock(store: Database, lines: seq<OrderItem>, dir: Direction)
    requires forall i | 0 <= i < |lines| :: lines[i].productId in store.products
    modifies store
    ensures store.State() == old(store.State()).(products := StockShift(old(store.products), lines, dir))
  {
    ghost var before := store.State();
    var i := 0;
    while i < |lines|
      invariant 0 <= i <= |lines|
      invariant store.State() == before.(products := StockShift(before.products, lines[..i], dir))
    {
      var line := lines[i];
      assert lines[..i + 1][..i] == lines[..i];
      var product := store.products[line.productId];
      var stock := if dir == Decrement then product.stockCount - line.quantity else product.stockCount + line.quantity;
      store.products := store.products[line.productId := product.(stockCount := stock)];
      i := i + 1;
    }
    assert lines[..i] == lines;
  }

  method CreateOrder(store: Database, userId: nat, items: seq<LineRequest>, paymentMethod: string,
                     paymentSucceeds: bool, now: nat, payTime: nat, nonce: string) returns (r: Result<Order>)
    requires store.Valid()
    modifies store
    ensures store.Valid()
    ensures (r, store.State()) ==
      CreateOrderStep(old(store.State()), userId, items, paymentMethod, paymentSucceeds, now, payTime, nonce)
  {
    ghost var db := store.State();
    CreateOrderKeepsConsistent(db, userId, items, paymentMethod, paymentSucceeds, now, payTime, nonce);
    var checked := CheckLines(store.products, items);
    if checked.Failure? {
      return Failure(checked.error);
    }
    var lines := checked.value;
    var total := Total(lines);
    // start of the transaction's writes: what to put back if the body throws
    var savedOrders, savedNextOrderId := store.orders, store.nextOrderId;
    var order := Order(store.nextOrderId, userId, StatusPending, total, now, None, lines);
    store.orders := store.orders[order.id := order];
    store.nextOrderId := order.id + 1;
    PlaceKeepsConsistent(db, order);
    assert store.State() == Place(db, order);
    var payment := PaymentService.ProcessPayment(store, order.id, total, Usd, paymentMethod,
                                                 paymentSucceeds, payTime, nonce);
    if payment.Failure? {
      store.orders := store.orders[order.id := order.(status := StatusPaymentFailed)];
      // the error thrown here aborts the transaction and discards its writes
      store.orders, store.nextOrderId := savedOrders, savedNextOrderId;
      assert store.State() == db;
      return Failure(PaymentProcessingFailed);
    }
    ghost var paid := store.State();
    store.orders := store.orders[order.id := order.(status := StatusPaid)];
    ShiftStock(store, lines, Decrement);
    assert store.State() == Settle(paid, order.id, order.(status := StatusPaid), Decrement);
    return Success(order);
  }

  method CancelOrder(store: Database, id: nat, now: nat) returns (r: Result<OrderDetail>)
    requires store.Valid()
    modifies store
    ensures store.Valid()
    ensures (r, store.State()) == CancelOrderStep(old(store.State()), id, now)
  {
    ghost var db := store.State();
    CancelOrderKeepsConsistent(db, id, now);
    if id !in store.orders {
      return Failure(OrderNotFound);
    }
    var order := store.orders[id];
    if order.status != StatusPending && order.status != StatusPaid {
      return Failure(NotCancellable);
    }
    var payment := PaymentOf(store.State(), id);
    if payment.Some? && payment.value.status == StatusCompleted {
      var refund := PaymentService.RefundPayment(store, payment.value.id, payment.value.amount);
    }
    ghost var refunded := store.State();
    assert refunded == RefundIfCompleted(db, id);
    ShiftStock(store, order.items, Increment);
    var cancelled := order.(status := StatusCancelled, cancelledAt := Some(now));
    store.orders := store.orders[id := cancelled];
    assert store.State() == Settle(refunded, id, cancelled, Increment);
    return Success(OrderDetail(cancelled, PaymentOf(store.State(), id)));
  }

  method UpdateOrderStatus(store: Database, id: nat, status: string) returns (r: Result<OrderDetail>)
    requires store.Valid()
    modifies store
    ensures store.Valid()
    ensures (r, store.State()) == UpdateOrderStatusStep(old(store.State()), id, status)
  {
    UpdateOrderStatusKeepsConsistent(store.State(), id, status);
    if id !in store.orders {
      return Failure(RecordNotFound);
    }
    var order := store.orders[id].(status := status);
    store.orders := store.orders[id := order];
    return Success(OrderDetail(order, PaymentOf(store.State(), id)));
  }
}
