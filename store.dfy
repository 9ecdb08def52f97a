/** The database the services share: one table per entity, keyed by id, with
    auto-incremented ids. `Db` is a snapshot of all tables as a value; the
    class `Database` is the live store the services update in place. */
module Store {
  import opened Records

  datatype Db = Db(
    products: map<nat, Product>,
    orders: map<nat, Order>,
    payments: map<nat, Payment>,
    categories: map<nat, Category>,
    nextOrderId: nat,
    nextPaymentId: nat,
    nextCategoryId: nat)

  /** Primary keys, auto-increment counters and the foreign keys the services
      rely on: every order line names an existing product, every payment an
      existing order (and no order has two payments), every parent category
      and every product's category exists. */
  ghost predicate Consistent(db: Db) {
    && (forall k | k in db.orders :: db.orders[k].id == k && k < db.nextOrderId)
    && (forall k, i | k in db.orders && 0 <= i < |db.orders[k].items| ::
          db.orders[k].items[i].productId in db.products)
    && (forall k | k in db.payments ::
          db.payments[k].id == k && k < db.nextPaymentId && db.payments[k].orderId in db.orders)
    && (forall k, j | k in db.payments && j in db.payments && k != j ::
          db.payments[k].orderId != db.payments[j].orderId)
    && (forall k | k in db.categories ::
          db.categories[k].id == k && k < db.nextCategoryId &&
          (db.categories[k].parentId.Some? ==> db.categories[k].parentId.value in db.categories))
    && (forall k | k in db.products && db.products[k].categoryId.Some? ::
          db.products[k].categoryId.value in db.categories)
  }

  /** The key of the highest-numbered payment below `n` made for `orderId`. */
  function PaymentKey(payments: map<nat, Payment>, orderId: nat, n: nat): (r: Option<nat>)
    ensures r.Some? ==> r.value < n && r.value in payments && payments[r.value].orderId == orderId
    ensures r.None? ==> forall k | k in payments && k < n :: payments[k].orderId != orderId
  {
    if n == 0 then None
    else if n - 1 in payments && payments[n - 1].orderId == orderId then Some(n - 1)
    else PaymentKey(payments, orderId, n - 1)
  }

  /** The payment of an order, as the `payment` relation of an order row yields it. */
  function PaymentOf(db: Db, orderId: nat): (r: Option<Payment>)
    ensures r.Some? ==> r.value.orderId == orderId && r.value in db.payments.Values
  {
    match PaymentKey(db.payments, orderId, db.nextPaymentId)
    case Some(k) => Some(db.payments[k])
    case None => None
  }

  /** In a consistent store an order's payment is THE payment naming it. */
  lemma PaymentOfUnique(db: Db, k: nat)
    requires Consistent(db)
    requires k in db.payments
    ensures PaymentOf(db, db.payments[k].orderId) == Some(db.payments[k])
  {
    var found := PaymentKey(db.payments, db.payments[k].orderId, db.nextPaymentId);
    assert found.Some?;
  }

  /** An order with no payment row has no payment. */
  lemma PaymentOfNone(db: Db, orderId: nat)
    requires Consistent(db)
    requires forall k | k in db.payments :: db.payments[k].orderId != orderId
    ensures PaymentOf(db, orderId) == None
  {
  }

  class Database {
    var products: map<nat, Product>
    var orders: map<nat, Order>
    var payments: map<nat, Payment>
    var categories: map<nat, Category>
    var nextOrderId: nat
    var nextPaymentId: nat
    var nextCategoryId: nat

    function State(): Db
      reads this
    {
      Db(products, orders, payments, categories, nextOrderId, nextPaymentId, nextCategoryId)
    }

    ghost predicate Valid()
      reads this
    {
      Consistent(State())
    }

    constructor ()
      ensures Valid()
      ensures State() == Db(map[], map[], map[], map[], 0, 0, 0)
    {
      products, orders, payments, categories := map[], map[], map[], map[];
      nextOrderId, nextPaymentId, nextCategoryId := 0, 0, 0;
    }
  }
}
