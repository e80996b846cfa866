/**
 * The order-execution step: per inbound "order placed" event, load or create
 * the order, save it, ask the validator, and on acceptance mark the order
 * EXECUTED, save it again and publish one "order executed" record.
 *
 * `Consume` states the step on values; the class `OrderExecutionService`
 * performs it step by step on its repository (a map keyed by order id) and
 * its outbound log (the records sent, in order), and is proved to agree.
 */
module OrderExecution {

  import opened Utf8
  import opened OrderModel

  const ORDER_EXECUTED_TOPIC: string := "order.executed.event"
  const TYPE_ID_HEADER: string := "__TypeId__"
  const EXECUTED_TYPE_ID: string := "orderExecutedEvent"

  /**
   * The two readings of the wall clock during one delivery: the one taken
   * when a new order is created and the one taken at the EXECUTED transition.
   */
  datatype ClockReadings = ClockReadings(created: Timestamp, executed: Timestamp)

  /** What the step changes: the stored orders and the records sent so far. */
  datatype ServiceState = ServiceState(orders: map<int, Order>, sent: seq<ProducerRecord>)

  /** The repository holds every order under its own id. */
  ghost predicate KeyedById(orders: map<int, Order>)
  {
    forall id :: id in orders ==> orders[id].id == id
  }

  /** Every stored order has a `updatedAt` exactly when it is EXECUTED. */
  ghost predicate StampedIffExecuted(orders: map<int, Order>)
  {
    forall id :: id in orders ==> (orders[id].status == Executed <==> orders[id].updatedAt.Some?)
  }

  /** No stored order was updated before it was created. */
  ghost predicate UpdatedAfterCreated(orders: map<int, Order>)
  {
    forall id :: id in orders && orders[id].updatedAt.Some? ==> orders[id].createdAt <= orders[id].updatedAt.value
  }

  /** No stored order was created after time `t`. */
  ghost predicate CreatedBy(orders: map<int, Order>, t: Timestamp)
  {
    forall id :: id in orders ==> orders[id].createdAt <= t
  }

  /** The record is the one published for `order`: topic, key, type header and payload. */
  ghost predicate IsExecutedRecord(rec: ProducerRecord, order: Order)
  {
    && rec.topic == ORDER_EXECUTED_TOPIC
    && rec.key == order.ticker
    && rec.headers == [Header(TYPE_ID_HEADER, TYPE_ID_BYTES)]
    && Describes(rec.value, order)
  }

  /** The bytes of the `__TypeId__` header value, spelled out; see TypeIdBytesEncodeTypeId. */
  const TYPE_ID_BYTES: seq<byte> :=
    [111, 114, 100, 101, 114, 69, 120, 101, 99, 117, 116, 101, 100, 69, 118, 101, 110, 116]

  /** The header value is `EXECUTED_TYPE_ID.getBytes(UTF_8)`: one byte per character, with its code. */
  lemma TypeIdBytesEncodeTypeId()
    ensures IsAscii(EXECUTED_TYPE_ID)
    ensures EncodesAscii(EXECUTED_TYPE_ID, TYPE_ID_BYTES)
    ensures TYPE_ID_BYTES == EncodeAscii(EXECUTED_TYPE_ID)
  {
    EncodingIsUnique(EXECUTED_TYPE_ID, TYPE_ID_BYTES);
  }

  /** The validation stub: every order is accepted. */
  function ValidateOrder(order: Order): (ok: bool)
    ensures ok
  {
    true
  }

  /** The outbound payload reports the order it is built from, with `updatedAt` as `executedAt`. */
  function BuildOrderExecutedEvent(order: Order): (event: OrderExecutedEvent)
    ensures Describes(event, order)
  {
    OrderExecutedEvent(order.id, order.userId, order.ticker, order.quantity, order.price,
                       order.orderSide, order.updatedAt)
  }

  /** The record sent for an executed order: keyed by ticker, tagged with its type id, carrying its payload. */
  function ExecutedRecord(order: Order): (rec: ProducerRecord)
    ensures IsExecutedRecord(rec, order)
  {
    var event := BuildOrderExecutedEvent(order);
    ProducerRecord(ORDER_EXECUTED_TOPIC, event.ticker, event, [Header(TYPE_ID_HEADER, TYPE_ID_BYTES)])
  }

  /** The order built for an id the repository does not hold: the event's fields, SUBMITTED, created `now`. */
  function NewOrder(e: OrderPlacedEvent, now: Timestamp): (order: Order)
    ensures CopiedFrom(order, e)
    ensures order.status == Submitted && order.createdAt == now && order.updatedAt == None
  {
    Order(e.orderId, e.userId, e.ticker, e.quantity, e.price, e.orderSide, Submitted, now, None)
  }

  /** The stored order for the event's id, or a new one built from the event. */
  function LoadOrCreate(orders: map<int, Order>, e: OrderPlacedEvent, now: Timestamp): (order: Order)
    ensures e.orderId in orders ==> order == orders[e.orderId]
    ensures e.orderId !in orders ==>
              CopiedFrom(order, e) && order.status == Submitted && order.createdAt == now && order.updatedAt == None
    ensures KeyedById(orders) ==> order.id == e.orderId
  {
    if e.orderId in orders then orders[e.orderId] else NewOrder(e, now)
  }

  /** The EXECUTED transition: same details, status EXECUTED, stamped with the time it happens. */
  function Execute(order: Order, now: Timestamp): (executed: Order)
    ensures SameDetails(executed, order)
    ensures executed.status == Executed && executed.updatedAt == Some(now)
  {
    order.(status := Executed, updatedAt := Some(now))
  }

  /**
   * One delivery of `e`, with `validate` as the validator's decision. The
   * store gains at most the event's id, and the outbound log gains at most
   * one record and is never rewritten; the step lemmas below say the rest.
   */
  function Consume(s: ServiceState, e: OrderPlacedEvent, clock: ClockReadings, validate: Order -> bool): (r: ServiceState)
    requires KeyedById(s.orders)
    ensures KeyedById(r.orders)
    ensures r.orders.Keys == s.orders.Keys + {e.orderId}
    ensures |s.sent| <= |r.sent| <= |s.sent| + 1 && r.sent[..|s.sent|] == s.sent
  {
    var order := LoadOrCreate(s.orders, e, clock.created);
    var saved := s.orders[order.id := order];
    if validate(order) then
      var executed := Execute(order, clock.executed);
      ServiceState(saved[executed.id := executed], s.sent + [ExecutedRecord(executed)])
    else
      ServiceState(saved, s.sent)
  }

  /** Only the entry for the event's id may change. */
  lemma ConsumeOnlyTouchesEventOrder(s: ServiceState, e: OrderPlacedEvent, clock: ClockReadings, validate: Order -> bool)
    requires KeyedById(s.orders)
    ensures var r := Consume(s, e, clock, validate);
      forall id :: id in s.orders && id != e.orderId ==> r.orders[id] == s.orders[id]
  {
  }

  /** A new order is built from the event at the first clock reading; an existing one keeps its details. */
  lemma ConsumeLoadsOrCreates(s: ServiceState, e: OrderPlacedEvent, clock: ClockReadings, validate: Order -> bool)
    requires KeyedById(s.orders)
    ensures var r := Consume(s, e, clock, validate);
      && (e.orderId !in s.orders ==>
            CopiedFrom(r.orders[e.orderId], e) && r.orders[e.orderId].createdAt == clock.created)
      && (e.orderId in s.orders ==> SameDetails(r.orders[e.orderId], s.orders[e.orderId]))
  {
  }

  /**
   * On acceptance the stored order is the loaded one, EXECUTED and stamped
   * with the second clock reading, and exactly one record is appended: the
   * executed record for that stored order.
   */
  lemma ConsumeOnAccept(s: ServiceState, e: OrderPlacedEvent, clock: ClockReadings, validate: Order -> bool)
    requires KeyedById(s.orders)
    requires validate(LoadOrCreate(s.orders, e, clock.created))
    ensures var r := Consume(s, e, clock, validate);
      && r.orders[e.orderId] == Execute(LoadOrCreate(s.orders, e, clock.created), clock.executed)
      && r.orders[e.orderId].status == Executed
      && r.orders[e.orderId].updatedAt == Some(clock.executed)
      && |r.sent| == |s.sent| + 1
      && IsExecutedRecord(r.sent[|s.sent|], r.orders[e.orderId])
  {
  }

  /**
   * On rejection nothing is sent and the loaded order is stored as it was
   * loaded: an existing order is unchanged, a new one stays SUBMITTED.
   */
  lemma ConsumeOnReject(s: ServiceState, e: OrderPlacedEvent, clock: ClockReadings, validate: Order -> bool)
    requires KeyedById(s.orders)
    requires !validate(LoadOrCreate(s.orders, e, clock.created))
    ensures var r := Consume(s, e, clock, validate);
      && r.sent == s.sent
      && r.orders[e.orderId] == LoadOrCreate(s.orders, e, clock.created)
      && (e.orderId in s.orders ==> r.orders[e.orderId] == s.orders[e.orderId])
      && (e.orderId !in s.orders ==>
            r.orders[e.orderId].status == Submitted && r.orders[e.orderId].updatedAt == None)
  {
  }

  /**
   * The step keeps the order lifecycle consistent: an EXECUTED order stays
   * EXECUTED, an order carries `updatedAt` exactly when it is EXECUTED, and
   * with a clock that does not run backwards no order is updated before it
   * was created.
   */
  lemma ConsumeKeepsLifecycle(s: ServiceState, e: OrderPlacedEvent, clock: ClockReadings, validate: Order -> bool)
    requires KeyedById(s.orders)
    ensures var r := Consume(s, e, clock, validate);
      && (e.orderId in s.orders && s.orders[e.orderId].status == Executed ==>
            r.orders[e.orderId].status == Executed)
      && (StampedIffExecuted(s.orders) ==> StampedIffExecuted(r.orders))
      && ((&& UpdatedAfterCreated(s.orders)
           && CreatedBy(s.orders, clock.executed)
           && clock.created <= clock.executed) ==> UpdatedAfterCreated(r.orders))
  {
  }

  class OrderExecutionService {
    /** The order repository, keyed by order id. */
    var orders: map<int, Order>
    /** Every record handed to the broker, oldest first. */
    var sent: seq<ProducerRecord>

    ghost predicate Valid()
      reads this
    {
      KeyedById(orders)
    }

    function State(): ServiceState
      reads this
    {
      ServiceState(orders, sent)
    }

    /** A service over an existing repository, with nothing sent yet. */
    constructor (stored: map<int, Order>)
      requires KeyedById(stored)
      ensures Valid()
      ensures orders == stored && sent == []
    {
      orders := stored;
      sent := [];
    }

    /** Point lookup in the repository. */
    method FindById(id: int) returns (found: Option<Order>)
      requires Valid()
      ensures found.Some? <==> id in orders
      ensures found.Some? ==> found.value == orders[id] && found.value.id == id
    {
      if id in orders {
        found := Some(orders[id]);
      } else {
        found := None;
      }
    }

    /** Writes the whole order under its id, replacing any earlier version. */
    method Save(order: Order)
      requires Valid()
      modifies this`orders
      ensures Valid()
      ensures orders == old(orders)[order.id := order]
    {
      orders := orders[order.id := order];
    }

    /** Hands one record to the broker. */
    method Send(rec: ProducerRecord)
      modifies this`sent
      ensures sent == old(sent) + [rec]
    {
      sent := sent + [rec];
    }

    /** Handles one delivery of `e`; `validate` stands for the validator. */
    method ConsumeOrderPlacedEvent(e: OrderPlacedEvent, clock: ClockReadings, validate: Order -> bool)
      requires Valid()
      modifies this
      ensures Valid()
      ensures State() == Consume(old(State()), e, clock, validate)
    {
      var found := FindById(e.orderId);
      var order: Order;
      if found.Some? {
        order := found.value;
      } else {
        order := NewOrder(e, clock.created);
      }
      Save(order);

      var isValidOrder := validate(order);
      if isValidOrder {
        order := order.(status := Executed);
        order := order.(updatedAt := Some(clock.executed));
        Save(order);

        var rec := ExecutedRecord(order);
        Send(rec);
      }
    }
  }
}
