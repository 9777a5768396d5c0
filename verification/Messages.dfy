/** The events that the order, product and wallet services exchange. */
module Messages {
  import opened Common

  /** An order id or user id, as the text of its UUID. */
  type Id = GoString

  /** `InsufficientBalance` stands for the text that InsufficientBalanceException formats from its two amounts. */
  datatype ErrorMessage = Text(text: string) | InsufficientBalance(current: real, amount: real)

  datatype PaymentEvent =
    | PaymentSuccess(orderId: Id)
    | PaymentFailed(orderId: Id, reason: ErrorMessage)

  datatype Message =
    | OrderCreated(id: Id, payload: seq<byte>)
    | StockSuccess(id: Id)
    | StockFail(id: Id, text: string)
    | Payment(event: PaymentEvent)

  /** The topic that a message is published on. */
  function Topic(m: Message): string {
    match m
    case OrderCreated(_, _) => "order.created"
    case StockSuccess(_) => "stock.reduction.success"
    case StockFail(_, _) => "stock.reduction.fail"
    case Payment(PaymentSuccess(_)) => "payment.success"
    case Payment(PaymentFailed(_, _)) => "payment.fail"
  }

  /** What the payload of a stock or payment message says: the order it is about, and a text if the type has one. */
  function Payload(m: Message): (Id, ErrorMessage) {
    match m
    case OrderCreated(id, _) => (id, Text(""))
    case StockSuccess(id) => (id, Text(""))
    case StockFail(id, text) => (id, Text(text))
    case Payment(PaymentSuccess(id)) => (id, Text(""))
    case Payment(PaymentFailed(id, reason)) => (id, reason)
  }
}
