/** Rows of the shop's database that the order, payment and category services
    read and write, and the failures those services raise. Money is counted in
    whole cents and clock readings in milliseconds. */
module Records {

  datatype Option<T> = None | Some(value: T)

  datatype Result<T> = Success(value: T) | Failure(error: Error)

  /** The services' errors. The first eight are the services' own application
      errors; the last two stand for errors the database itself raises (no row
      to update or delete, a violated key constraint). */
  datatype Error =
    | ProductNotFound(productId: nat)
    | InsufficientStock(productName: string)
    | PaymentDeclined
    | PaymentProcessingFailed
    | OrderNotFound
    | NotCancellable
    | CategoryNotFound
    | CategoryInUse
    | RecordNotFound
    | ConstraintViolation

  /** The HTTP status `handleError` in src/utils/ errorHandler.ts answers with:
      application errors carry their own code, anything else becomes an
      internal server error. */
  function StatusCode(e: Error): (code: nat)
    ensures code == 404 <==> e.ProductNotFound? || e.OrderNotFound? || e.CategoryNotFound?
    ensures code == 500 <==> e.RecordNotFound? || e.ConstraintViolation?
    ensures code in {400, 404, 500}
  {
    match e
    case ProductNotFound(_) => 404
    case OrderNotFound => 404
    case CategoryNotFound => 404
    case RecordNotFound => 500
    case ConstraintViolation => 500
    case _ => 400
  }

  // Order and payment statuses are plain strings in the store.
  const StatusPending := "PENDING"
  const StatusPaid := "PAID"
  const StatusPaymentFailed := "PAYMENT_FAILED"
  const StatusCancelled := "CANCELLED"
  const StatusCompleted := "COMPLETED"
  const StatusRefunded := "REFUNDED"
  const Usd := "USD"

  datatype Product = Product(name: string, price: int, stockCount: int, categoryId: Option<nat>)

  /** One line of an order request: which product and how many. */
  datatype LineRequest = LineRequest(productId: nat, quantity: int)

  /** One persisted order line; `price` is the product's price when the order was placed. */
  datatype OrderItem = OrderItem(productId: nat, quantity: int, price: int)

  datatype Order = Order(
    id: nat,
    userId: nat,
    status: string,
    total: int,
    createdAt: nat,
    cancelledAt: Option<nat>,
    items: seq<OrderItem>)

  datatype Payment = Payment(
    id: nat,
    orderId: nat,
    amount: int,
    currency: string,
    status: string,
    paymentMethod: string,
    transactionId: string)

  /** An order as the services return it: the row with its payment, if any. */
  datatype OrderDetail = OrderDetail(order: Order, payment: Option<Payment>)

  datatype Category = Category(id: nat, name: string, description: Option<string>, parentId: Option<nat>)

  /** The data createCategory receives: every column but the generated ones. */
  datatype CategoryInput = CategoryInput(name: string, description: Option<string>, parentId: Option<nat>)

  /** The data updateCategory receives: `None` leaves a column as it is. */
  datatype CategoryPatch = CategoryPatch(
    name: Option<string>,
    description: Option<Option<string>>,
    parentId: Option<Option<nat>>)
}
