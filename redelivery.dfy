/**
 * Repeated deliveries of one "order placed" event. The listener has no
 * check for an order that is already EXECUTED: with the always-accepting
 * validator every delivery executes the order again and publishes again.
 */
module Redelivery {

  import opened OrderModel
  import opened OrderExecution

  /** Delivers `e` once per clock reading, in order. */
  function DeliverAll(s: ServiceState, e: OrderPlacedEvent, clocks: seq<ClockReadings>, validate: Order -> bool): (r: ServiceState)
    requires KeyedById(s.orders)
    ensures KeyedById(r.orders)
    ensures s.orders.Keys <= r.orders.Keys
    ensures |s.sent| <= |r.sent| && r.sent[..|s.sent|] == s.sent
    decreases |clocks|
  {
    if clocks == [] then s
    else DeliverAll(Consume(s, e, clocks[0], validate), e, clocks[1..], validate)
  }

  /** Record `rec` reports `order` executed at time `t`. */
  ghost predicate ReportsExecution(rec: ProducerRecord, order: Order, t: Timestamp)
  {
    IsExecutedRecord(rec, Execute(order, t))
  }

  /**
   * Redelivering the event of a stored order, whatever its status (EXECUTED
   * included): each delivery re-executes it and publishes one more record;
   * no other order changes and the order's details are kept.
   */
  lemma {:induction false} RedeliveryOfStoredOrder(s: ServiceState, e: OrderPlacedEvent, clocks: seq<ClockReadings>)
    requires KeyedById(s.orders)
    requires e.orderId in s.orders
    ensures var r := DeliverAll(s, e, clocks, ValidateOrder);
      && r.orders.Keys == s.orders.Keys
      && (forall id :: id in s.orders && id != e.orderId ==> r.orders[id] == s.orders[id])
      && SameDetails(r.orders[e.orderId], s.orders[e.orderId])
      && |r.sent| == |s.sent| + |clocks|
      && r.sent[..|s.sent|] == s.sent
      && (forall i :: 0 <= i < |clocks| ==>
            ReportsExecution(r.sent[|s.sent| + i], s.orders[e.orderId], clocks[i].executed))
      && (|clocks| > 0 ==>
            r.orders[e.orderId] == Execute(s.orders[e.orderId], clocks[|clocks| - 1].executed))
    decreases |clocks|
  {
    if clocks != [] {
      var o := s.orders[e.orderId];
      var s1 := Consume(s, e, clocks[0], ValidateOrder);
      ConsumeOnAccept(s, e, clocks[0], ValidateOrder);
      ConsumeOnlyTouchesEventOrder(s, e, clocks[0], ValidateOrder);
      RedeliveryOfStoredOrder(s1, e, clocks[1..]);
      var r := DeliverAll(s1, e, clocks[1..], ValidateOrder);
      assert r == DeliverAll(s, e, clocks, ValidateOrder);
      assert r.sent[..|s1.sent|] == s1.sent;
      forall i | 0 <= i < |clocks|
        ensures ReportsExecution(r.sent[|s.sent| + i], o, clocks[i].executed)
      {
        if i == 0 {
          assert r.sent[|s.sent|] == s1.sent[|s.sent|];
        } else {
          assert clocks[i] == clocks[1..][i - 1];
          assert Execute(s1.orders[e.orderId], clocks[i].executed) == Execute(o, clocks[i].executed);
        }
      }
      if |clocks| > 1 {
        assert clocks[|clocks| - 1] == clocks[1..][|clocks| - 2];
      }
    }
  }

  /** Creating the order on the first delivery acts as if it had been stored with the event's fields. */
  lemma CreatedAsIfStored(s: ServiceState, e: OrderPlacedEvent, clocks: seq<ClockReadings>, validate: Order -> bool)
    requires KeyedById(s.orders)
    requires e.orderId !in s.orders
    requires |clocks| > 0
    ensures KeyedById(s.orders[e.orderId := NewOrder(e, clocks[0].created)])
    ensures DeliverAll(s, e, clocks, validate)
         == DeliverAll(ServiceState(s.orders[e.orderId := NewOrder(e, clocks[0].created)], s.sent), e, clocks, validate)
  {
    var s0 := ServiceState(s.orders[e.orderId := NewOrder(e, clocks[0].created)], s.sent);
    assert Consume(s, e, clocks[0], validate) == Consume(s0, e, clocks[0], validate);
  }

  /** The store part of RedeliveryOfStoredOrder, for a stored order `o` known by value. */
  lemma StoredOrderState(s: ServiceState, e: OrderPlacedEvent, clocks: seq<ClockReadings>, o: Order)
    requires KeyedById(s.orders)
    requires e.orderId in s.orders && s.orders[e.orderId] == o
    requires |clocks| > 0
    ensures var r := DeliverAll(s, e, clocks, ValidateOrder);
      && r.orders.Keys == s.orders.Keys
      && (forall id :: id in s.orders && id != e.orderId ==> r.orders[id] == s.orders[id])
      && r.orders[e.orderId] == Execute(o, clocks[|clocks| - 1].executed)
  {
    RedeliveryOfStoredOrder(s, e, clocks);
  }

  /** The outbound part of RedeliveryOfStoredOrder, for a stored order `o` known by value. */
  lemma StoredOrderRecords(s: ServiceState, e: OrderPlacedEvent, clocks: seq<ClockReadings>, o: Order)
    requires KeyedById(s.orders)
    requires e.orderId in s.orders && s.orders[e.orderId] == o
    ensures var r := DeliverAll(s, e, clocks, ValidateOrder);
      && |r.sent| == |s.sent| + |clocks|
      && r.sent[..|s.sent|] == s.sent
      && (forall i :: 0 <= i < |clocks| ==> ReportsExecution(r.sent[|s.sent| + i], o, clocks[i].executed))
  {
    RedeliveryOfStoredOrder(s, e, clocks);
  }

  /**
   * N deliveries of the event of an order not yet stored leave one more
   * stored order: built from the event, created at the first delivery and
   * EXECUTED at the last; no other order changes.
   */
  lemma DeliveriesOfNewOrderStoreOne(s: ServiceState, e: OrderPlacedEvent, clocks: seq<ClockReadings>)
    requires KeyedById(s.orders)
    requires e.orderId !in s.orders
    requires |clocks| > 0
    ensures var r := DeliverAll(s, e, clocks, ValidateOrder);
      && r.orders.Keys == s.orders.Keys + {e.orderId}
      && (forall id :: id in s.orders ==> r.orders[id] == s.orders[id])
      && CopiedFrom(r.orders[e.orderId], e)
      && r.orders[e.orderId].createdAt == clocks[0].created
      && r.orders[e.orderId].status == Executed
      && r.orders[e.orderId].updatedAt == Some(clocks[|clocks| - 1].executed)
  {
    var o := NewOrder(e, clocks[0].created);
    var s0 := ServiceState(s.orders[e.orderId := o], s.sent);
    CreatedAsIfStored(s, e, clocks, ValidateOrder);
    StoredOrderState(s0, e, clocks, o);
  }

  /**
   * N deliveries of the event of an order not yet stored publish N records,
   * each carrying the event's fields and the execution time of its delivery.
   */
  lemma DeliveriesOfNewOrderPublishEach(s: ServiceState, e: OrderPlacedEvent, clocks: seq<ClockReadings>)
    requires KeyedById(s.orders)
    requires e.orderId !in s.orders
    requires |clocks| > 0
    ensures var r := DeliverAll(s, e, clocks, ValidateOrder);
      && |r.sent| == |s.sent| + |clocks|
      && r.sent[..|s.sent|] == s.sent
      && (forall i :: 0 <= i < |clocks| ==>
            ReportsExecution(r.sent[|s.sent| + i], NewOrder(e, clocks[0].created), clocks[i].executed))
  {
    var o := NewOrder(e, clocks[0].created);
    var s0 := ServiceState(s.orders[e.orderId := o], s.sent);
    CreatedAsIfStored(s, e, clocks, ValidateOrder);
    StoredOrderRecords(s0, e, clocks, o);
  }

  /**
   * With a validator that rejects every order nothing is ever published, the
   * event's order ends up stored, and an order first seen here stays SUBMITTED.
   */
  lemma {:induction false} RejectingValidatorNeverPublishes(
    s: ServiceState, e: OrderPlacedEvent, clocks: seq<ClockReadings>, validate: Order -> bool)
    requires KeyedById(s.orders)
    requires forall o :: !validate(o)
    requires |clocks| > 0
    ensures var r := DeliverAll(s, e, clocks, validate);
      && r.sent == s.sent
      && r.orders.Keys == s.orders.Keys + {e.orderId}
      && (forall id :: id in s.orders ==> r.orders[id] == s.orders[id])
      && (e.orderId !in s.orders ==> r.orders[e.orderId] == NewOrder(e, clocks[0].created))
    decreases |clocks|
  {
    var s1 := Consume(s, e, clocks[0], validate);
    ConsumeOnReject(s, e, clocks[0], validate);
    ConsumeOnlyTouchesEventOrder(s, e, clocks[0], validate);
    if |clocks| > 1 {
      RejectingValidatorNeverPublishes(s1, e, clocks[1..], validate);
    }
  }

  /**
   * Order 1 of user 7 (10 ABC at 25.50, BUY) delivered twice into an empty
   * repository: one stored EXECUTED order and two published records.
   */
  lemma TwoDeliveriesPublishTwice(first: ClockReadings, second: ClockReadings)
    ensures var e := OrderPlacedEvent(1, 7, "ABC", 10, Decimal(2550, 2), Buy);
      var r := DeliverAll(ServiceState(map[], []), e, [first, second], ValidateOrder);
      && r.orders.Keys == {1}
      && r.orders[1].status == Executed
      && r.orders[1].updatedAt == Some(second.executed)
      && |r.sent| == 2
      && r.sent[0].key == r.sent[1].key == "ABC"
      && r.sent[0].value.executedAt == Some(first.executed)
      && r.sent[1].value.executedAt == Some(second.executed)
  {
    var e := OrderPlacedEvent(1, 7, "ABC", 10, Decimal(2550, 2), Buy);
    var s := ServiceState(map[], []);
    DeliveriesOfNewOrderStoreOne(s, e, [first, second]);
    DeliveriesOfNewOrderPublishEach(s, e, [first, second]);
    var r := DeliverAll(s, e, [first, second], ValidateOrder);
    assert ReportsExecution(r.sent[0], NewOrder(e, first.created), first.executed);
    assert ReportsExecution(r.sent[1], NewOrder(e, first.created), second.executed);
  }

  /**
   * Over any number of deliveries, with any validator, an EXECUTED order
   * stays EXECUTED and the repository keeps "stamped exactly when EXECUTED".
   */
  lemma {:induction false} DeliveriesKeepLifecycle(
    s: ServiceState, e: OrderPlacedEvent, clocks: seq<ClockReadings>, validate: Order -> bool)
    requires KeyedById(s.orders)
    ensures var r := DeliverAll(s, e, clocks, validate);
      && (forall id :: id in s.orders && s.orders[id].status == Executed ==>
            id in r.orders && r.orders[id].status == Executed)
      && (StampedIffExecuted(s.orders) ==> StampedIffExecuted(r.orders))
    decreases |clocks|
  {
    if clocks != [] {
      var s1 := Consume(s, e, clocks[0], validate);
      ConsumeKeepsLifecycle(s, e, clocks[0], validate);
      ConsumeOnlyTouchesEventOrder(s, e, clocks[0], validate);
      DeliveriesKeepLifecycle(s1, e, clocks[1..], validate);
    }
  }
}
