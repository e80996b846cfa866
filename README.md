# Order execution step — a Dafny model

This project models the execution stage of an order pipeline: the listener
`OrderExecutionService.consumeOrderPlacedEvent` and its helpers
`validateOrder` and `buildOrderExecutedEvent`. For each "order placed" event
the service:

1. looks the order up by id, or builds a new one from the event with status
   SUBMITTED and `createdAt` set to the current time;
2. saves it;
3. asks the validator;
4. on acceptance sets status EXECUTED and `updatedAt` to the current time,
   saves again, and publishes one record to `order.executed.event`, keyed by
   ticker and tagged with a `__TypeId__` header;
5. on rejection only logs.

Files:

- `utf8.dfy` (module `Utf8`): the UTF-8 bytes of an ASCII string
  (`String.getBytes(UTF_8)` of the header value) and their decoding.
- `order_model.dfy` (module `OrderModel`): the inbound event, the order
  entity, the outbound event with its seven fields, headers and producer
  records, and field-by-field predicates relating them.
- `order_execution_service.dfy` (module `OrderExecution`):
  - `Consume` is one delivery as a function on values: the repository as a
    `map` from id to order, and the records sent as a `seq`.
  - Step lemmas state what one delivery does.
  - The class `OrderExecutionService` holds the same map and sequence as
    fields. Its `ConsumeOrderPlacedEvent` performs the steps in the order
    the source does: lookup, save, validate, set status, set stamp, save,
    build, send. It is proved to agree with `Consume`.
- `redelivery.dfy` (module `Redelivery`): repeated deliveries of one event
  (`DeliverAll` folds `Consume`), proved by induction.

The validator is a parameter `validate: Order -> bool`, so both the accept
and the reject path are verified. `ValidateOrder` is the source's stub,
which accepts every order. The wall clock is a parameter as well:
`ClockReadings` holds the reading taken when a new order is created
(line 42) and the one taken at the EXECUTED transition (line 59). The
header bytes are spelled out as `TYPE_ID_BYTES` and proved equal to
`EncodeAscii("orderExecutedEvent")`.

## Behaviour under redelivery

An idempotent consumer would skip an order already in a terminal state,
record a REJECTED status, and use an outbox to close the gap between saving
and publishing. The code does none of these, and the model follows the code:

- Redelivering the event of an order that is already EXECUTED executes it
  again and publishes again. N deliveries leave one stored order and N
  published records (`RedeliveryOfStoredOrder`,
  `DeliveriesOfNewOrderPublishEach`, `TwoDeliveriesPublishTwice`).
- A rejected order keeps its status; a new one stays SUBMITTED
  (`ConsumeOnReject`, `RejectingValidatorNeverPublishes`).
- Saving and publishing are modelled as one step; there is no outbox.

## Model

| member | source | states |
|---|---|---|
| `Utf8.EncodeAscii` | src/main/java/com/rbrcloud/orderexecution/service/OrderExecutionService.java:65 | the UTF-8 bytes of ASCII text have one byte per character with the same code, and decode back to the text |
| `Utf8.EncodingIsUnique` | src/main/java/com/rbrcloud/orderexecution/service/OrderExecutionService.java:65 | any byte sequence agreeing code by code with an ASCII string is exactly its encoding |
| `OrderExecution.TypeIdBytesEncodeTypeId` | src/main/java/com/rbrcloud/orderexecution/service/OrderExecutionService.java:65 | the `__TypeId__` header value is the UTF-8 encoding of "orderExecutedEvent": ASCII code by code, and equal to `EncodeAscii` of it |
| `OrderExecution.ValidateOrder` | src/main/java/com/rbrcloud/orderexecution/service/OrderExecutionService.java:73-75 | the validation stub accepts every order |
| `OrderExecution.BuildOrderExecutedEvent` | src/main/java/com/rbrcloud/orderexecution/service/OrderExecutionService.java:77-85 | the outbound payload carries the order's id, user, ticker, quantity, price and side, with `updatedAt` as `executedAt` |
| `OrderExecution.ExecutedRecord` | src/main/java/com/rbrcloud/orderexecution/service/OrderExecutionService.java:63-65 | the record built for an order has topic "order.executed.event", the order's ticker as key, the single `__TypeId__` header with the encoded type id, and a payload describing the order |
| `OrderExecution.NewOrder` | src/main/java/com/rbrcloud/orderexecution/service/OrderExecutionService.java:41-48 | a new order carries the event's id, user, ticker, quantity, price and side, status SUBMITTED, `createdAt` the clock reading, no `updatedAt` |
| `OrderExecution.LoadOrCreate` | src/main/java/com/rbrcloud/orderexecution/service/OrderExecutionService.java:38-49 | a stored order is taken as it is; otherwise the order is built from the event as SUBMITTED at the clock reading; in a repository keyed by id the result carries the event's id |
| `OrderExecution.Execute` | src/main/java/com/rbrcloud/orderexecution/service/OrderExecutionService.java:58-59 | the transition keeps every detail of the order and sets status EXECUTED with `updatedAt` the clock reading |
| `OrderExecution.Consume` | src/main/java/com/rbrcloud/orderexecution/service/OrderExecutionService.java:34-71 | one delivery keeps the repository keyed by id, adds at most the event's id to it, and appends at most one record to the log without changing earlier ones |
| `OrderExecution.ConsumeOnlyTouchesEventOrder` | src/main/java/com/rbrcloud/orderexecution/service/OrderExecutionService.java:38-60 | every stored order other than the event's is unchanged |
| `OrderExecution.ConsumeLoadsOrCreates` | src/main/java/com/rbrcloud/orderexecution/service/OrderExecutionService.java:38-50 | an unseen id gets an order with the event's id, user, ticker, quantity, price and side, created at the first clock reading; an existing order keeps its details and creation time, and the event's values are ignored |
| `OrderExecution.ConsumeOnAccept` | src/main/java/com/rbrcloud/orderexecution/service/OrderExecutionService.java:54-66 | on acceptance the stored order is EXECUTED with `updatedAt` equal to the second clock reading. Exactly one record is appended: topic "order.executed.event", key the order's ticker, one `__TypeId__` header, payload describing the stored order |
| `OrderExecution.ConsumeOnReject` | src/main/java/com/rbrcloud/orderexecution/service/OrderExecutionService.java:54-70 | on rejection nothing is sent and the order is stored as loaded: an existing one is unchanged, a new one stays SUBMITTED with no `updatedAt` |
| `OrderExecution.ConsumeKeepsLifecycle` | src/main/java/com/rbrcloud/orderexecution/service/OrderExecutionService.java:40-60 | one delivery never takes an EXECUTED order back to SUBMITTED; it keeps "an order has `updatedAt` exactly when it is EXECUTED"; and with a clock that does not run backwards it keeps "`updatedAt` is never before `createdAt`" |
| `OrderExecution.OrderExecutionService.constructor` | src/main/java/com/rbrcloud/orderexecution/service/OrderExecutionService.java:22-30 | a service over a repository keyed by id, with nothing sent |
| `OrderExecution.OrderExecutionService.FindById` | src/main/java/com/rbrcloud/orderexecution/service/OrderExecutionService.java:38 | finds an order exactly when its id is stored, and returns the stored order, whose id is the one asked for |
| `OrderExecution.OrderExecutionService.Save` | src/main/java/com/rbrcloud/orderexecution/service/OrderExecutionService.java:50 | writes the whole order under its id, replacing any earlier version, and nothing else |
| `OrderExecution.OrderExecutionService.Send` | src/main/java/com/rbrcloud/orderexecution/service/OrderExecutionService.java:66 | appends the record to the outbound log |
| `OrderExecution.OrderExecutionService.ConsumeOrderPlacedEvent` | src/main/java/com/rbrcloud/orderexecution/service/OrderExecutionService.java:32-71 | the step-by-step listener leaves repository and log exactly as `Consume` describes, and keeps the repository keyed by id |
| `Redelivery.DeliverAll` | src/main/java/com/rbrcloud/orderexecution/service/OrderExecutionService.java:32-71 | repeated deliveries keep the repository keyed by id, never remove a stored id, and only append to the outbound log |
| `Redelivery.CreatedAsIfStored` | src/main/java/com/rbrcloud/orderexecution/service/OrderExecutionService.java:38-50 | creating the order on the first delivery behaves as if it had been stored with the event's fields |
| `Redelivery.RedeliveryOfStoredOrder` | src/main/java/com/rbrcloud/orderexecution/service/OrderExecutionService.java:38-75 | with the always-accepting validator, redelivering the event of a stored order publishes one more record per delivery. This holds whatever the order's status, EXECUTED included. Each record reports the order executed at that delivery's time; no other order changes and the order's details are kept |
| `Redelivery.DeliveriesOfNewOrderStoreOne` | src/main/java/com/rbrcloud/orderexecution/service/OrderExecutionService.java:38-60 | N deliveries for an unseen id add exactly one stored order: built from the event, created at the first delivery, EXECUTED at the last |
| `Redelivery.DeliveriesOfNewOrderPublishEach` | src/main/java/com/rbrcloud/orderexecution/service/OrderExecutionService.java:54-85 | N deliveries for an unseen id publish N records after the earlier ones, each carrying the event's fields and its own delivery's execution time |
| `Redelivery.RejectingValidatorNeverPublishes` | src/main/java/com/rbrcloud/orderexecution/service/OrderExecutionService.java:48-70 | with a validator that rejects everything, no record is ever sent and an order first seen here is stored as a SUBMITTED order built from the event |
| `Redelivery.TwoDeliveriesPublishTwice` | src/main/java/com/rbrcloud/orderexecution/service/OrderExecutionService.java:38-75 | order 1 of user 7 (10 ABC at 25.50, BUY) delivered twice into an empty repository yields one EXECUTED order and two records keyed "ABC", with the two execution times |
| `Redelivery.DeliveriesKeepLifecycle` | src/main/java/com/rbrcloud/orderexecution/service/OrderExecutionService.java:40-70 | over any number of deliveries and with any validator, an EXECUTED order stays EXECUTED, and "stamped exactly when EXECUTED" is kept |

The outbound payload's seven fields follow
src/main/java/com/rbrcloud/orderexecution/dto/OrderExecutedEvent.java:19-32.

## Left out

- Kafka and Spring: `KafkaTemplate.send`, `ProducerRecord` internals, `@KafkaListener`, `@Service` and Lombok are left out. Publishing is appending to a sequence. The listener's binding to topic "order.placed.event" in group "execution-group" is not modelled: deliveries are calls of `ConsumeOrderPlacedEvent`.
- `@Transactional` rollback is left out: it is framework behaviour, and no failure path is visible in these files. Saves and sends never fail in the model.
- Broker delivery semantics and concurrent workers are left out: deliveries are modelled one after another.
- Logging (lines 35-36, 67, 69) is left out: it changes no state.
- `LocalDateTime.now()` is replaced by the `ClockReadings` parameter. Clock monotonicity is assumed only in `ConsumeKeepsLifecycle`, as a hypothesis; the code does not enforce it.
- `BigDecimal` prices are modelled as `Decimal` (unscaled value and scale). They are only copied, never computed on.
- `Long` and `Integer` values are unbounded integers: they are only copied, so no overflow arises.
- Null fields of the inbound event are not modelled.
- The JSON array format of `executedAt` is left out: it is serialisation done by Jackson.
- Any type headers added by the JSON serializer are left out, as framework behaviour. The model's record carries exactly the one header the code adds.
- The `Order` entity, `OrderRepository`, `OrderPlacedEvent`, `OrderStatus` and `OrderSide` are not part of this model. Their fields come from the getters and setters the service calls. No persistence hooks are assumed to set timestamps, so a new order's `updatedAt` is empty until execution.
- `findById(...).orElse(new Order())` followed by `getId() == null` is modelled as an optional lookup. This is the same because every stored order sits under its own id (`KeyedById`, the class invariant).
- `OrderStatus` is modelled with the two values this service sets, SUBMITTED and EXECUTED.
- `Utf8.EncodeAscii`: only ASCII text is encoded, which covers the one literal the code encodes. Multi-byte UTF-8 sequences are not modelled.
- The test class only loads the Spring context and states nothing about behaviour.
