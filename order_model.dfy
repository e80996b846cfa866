/**
 * The values the order-execution step works on: the inbound "order placed"
 * event, the stored order entity, the outbound "order executed" event and
 * the record handed to the broker.
 */
module OrderModel {

  import opened Utf8

  /** A `LocalDateTime` reading, as a number of clock ticks. */
  type Timestamp = int

  /** A nullable reference: `None` stands for Java's `null`. */
  datatype Option<T> = None | Some(value: T)

  datatype OrderSide = Buy | Sell

  /** The statuses this service sets: SUBMITTED on creation, EXECUTED on acceptance. */
  datatype OrderStatus = Submitted | Executed

  /** A `BigDecimal` as unscaled value and scale; the service only copies prices. */
  datatype Decimal = Decimal(unscaled: int, scale: int)

  /** The inbound event consumed from topic "order.placed.event". */
  datatype OrderPlacedEvent = OrderPlacedEvent(
    orderId: int,
    userId: int,
    ticker: string,
    quantity: int,
    price: Decimal,
    orderSide: OrderSide)

  /** The persisted order entity; `updatedAt` is null until the order is first executed. */
  datatype Order = Order(
    id: int,
    userId: int,
    ticker: string,
    quantity: int,
    price: Decimal,
    orderSide: OrderSide,
    status: OrderStatus,
    createdAt: Timestamp,
    updatedAt: Option<Timestamp>)

  /** The outbound payload, with the seven fields of the DTO. */
  datatype OrderExecutedEvent = OrderExecutedEvent(
    orderId: int,
    userId: int,
    ticker: string,
    quantity: int,
    price: Decimal,
    orderSide: OrderSide,
    executedAt: Option<Timestamp>)

  datatype Header = Header(key: string, value: seq<byte>)

  /** A producer record: topic, partition key, payload and headers. */
  datatype ProducerRecord = ProducerRecord(
    topic: string,
    key: string,
    value: OrderExecutedEvent,
    headers: seq<Header>)

  /** The order carries the event's id and order details. */
  ghost predicate CopiedFrom(order: Order, e: OrderPlacedEvent)
  {
    && order.id == e.orderId
    && order.userId == e.userId
    && order.ticker == e.ticker
    && order.quantity == e.quantity
    && order.price == e.price
    && order.orderSide == e.orderSide
  }

  /** Two orders agree on everything but the lifecycle fields `status` and `updatedAt`. */
  ghost predicate SameDetails(a: Order, b: Order)
  {
    && a.id == b.id
    && a.userId == b.userId
    && a.ticker == b.ticker
    && a.quantity == b.quantity
    && a.price == b.price
    && a.orderSide == b.orderSide
    && a.createdAt == b.createdAt
  }

  /** The outbound payload reports this order, with its `updatedAt` as execution time. */
  ghost predicate Describes(event: OrderExecutedEvent, order: Order)
  {
    && event.orderId == order.id
    && event.userId == order.userId
    && event.ticker == order.ticker
    && event.quantity == order.quantity
    && event.price == order.price
    && event.orderSide == order.orderSide
    && event.executedAt == order.updatedAt
  }
}
