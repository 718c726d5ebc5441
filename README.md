# Order service core, modelled in Dafny

This project models the core of a small PHP order-management service. It covers:
- the `Order` aggregate, with its three-state lifecycle (DRAFT, CONFIRMED, CANCELLED), its validated `OrderItem` lines and the `OrderAudit` record that a cancellation emits;
- the `OrderRepository` that stores orders in three tables (`orders`, `order_items`, `order_audit`);
- the five use-case handlers: create, add item, confirm, cancel, and the read-through cached get.

Modules, one per source file:

- `OrderStates`, `OrderItems`, `OrderAudits`: the enum, the validated item and the audit record, as datatypes and pure functions.
- `Orders`: the pure steps `Draft`, `AddItemStep`, `ConfirmStep` and `CancelStep`, which give each transition's guards and messages. The class `Order` has fields that its methods update in place, and each method is proved against its step.
  - The lemmas prove what holds along every sequence of calls that avoids `setItems`: items belong to their order, a confirmed or cancelled order is never empty, and CANCELLED is terminal.
  - They also prove that the total does not depend on the order of the items.
- `Repository`: the tables as values (`Db`), and SQL statements as functions on them: `SaveOrder` (upsert, delete, then insert item by item) and `LoadOrder` (parse the state, select the order's rows by id, re-validate them).
  - The class `OrderRepository` holds the tables as fields. Its `Save` loop and `FindById` loop are proved against those functions.
  - The lemmas give the save→find round trip, the exact conditions under which `save` succeeds, and that other orders are left untouched.
- `Caching`: the cache interface as an in-memory map with the TTL each key was written with, plus the `"order:{id}"` key.
- `Effects`: a ghost log shared by the repository and the cache. Each handler's contract can then state the order of its effects (save, save audit, cache delete, cache write).
- `Projection`: `toDTO`. All five handlers carry identical private copies of it, so it is defined once here.
- `GetOrder`, `AddOrderItem`, `ConfirmOrder`, `CancelOrder`, `CreateOrder`: one module per handler. Each has:
  - a function giving `handle`'s effect on the tables and its result (`...Spec`);
  - lemmas on that function (rejections, when the call succeeds, what is stored and returned);
  - a handler class whose `Handle` method is proved against the function, and which states the cache and effect-log changes.

The two id generators based on `microtime` become an `itemId` / `orderId` parameter. Each clock read becomes a `now` parameter in whole seconds.

## Model

| member | source | states |
|---|---|---|
| OrderStates.From | src/Domain/Order/OrderState.php:7-12 | `OrderState::from` succeeds exactly on the three backing strings and returns the case backed by that string; any other string is a ValueError carrying the string |
| OrderStates.FromValue | src/Domain/Order/OrderState.php:9-11 | `from(s->value) == s` for each of the three states |
| OrderStates.ValueInjective | src/Domain/Order/OrderState.php:9-11 | different states have different backing strings |
| OrderItems.Create | src/Domain/Order/OrderItem.php:19-38 | creation succeeds iff quantity >= 1 and price >= 0; quantity is checked first and has its own message, price has its own message; on success the fields are the arguments verbatim (the product name is not checked) |
| OrderItems.LineTotal | src/Domain/Order/OrderItem.php:65-68 | the line total of a valid item is non-negative, at least its unit price, and 0 exactly when the price is 0 |
| OrderAudits.Create | src/Domain/Order/OrderAudit.php:18-51 | every argument is accepted, empty strings included, and each getter returns its argument verbatim |
| Orders.ItemsTotal | src/Domain/Order/Order.php:99-102 | the order total is non-negative, bounds every line total, and is 0 exactly when every item is free |
| Orders.ItemsTotalConcat | src/Domain/Order/Order.php:99-102 | the total of two lists joined together is the sum of their totals |
| Orders.ItemsTotalAppend | src/Domain/Order/Order.php:99-102 | appending an item adds exactly its line total |
| Orders.ItemsTotalPermutation | src/Domain/Order/Order.php:99-102 | two item lists with the same multiset have the same total (the total ignores item order) |
| Orders.Draft | src/Domain/Order/Order.php:20-23 | a new draft has the given id and creation time, state DRAFT, no items, and a null updatedAt, and it satisfies the reachability invariant |
| Orders.AddItemStep | src/Domain/Order/Order.php:25-37 | adding succeeds iff the order is DRAFT and the item's orderId is the order's id; the state check comes first and each check has its own message; success appends exactly that item, keeps id, createdAt and state, sets updatedAt, and preserves reachability |
| Orders.ConfirmStep | src/Domain/Order/Order.php:39-51 | confirming succeeds iff the order is DRAFT with at least one item; non-DRAFT and empty orders each fail with their own message; success gives CONFIRMED with the items unchanged and updatedAt set |
| Orders.CancelStep | src/Domain/Order/Order.php:53-69 | cancelling succeeds iff the order is CONFIRMED and otherwise fails with the message; success gives CANCELLED with the items unchanged, and the audit has id 0, the order's id, action CANCELLED and the reason verbatim |
| Orders.RunKeepsReachable | src/Domain/Order/Order.php:25-69 | along any sequence of addItem, confirm and cancel calls (failed calls included), a reachable order stays reachable, and its id and createdAt never change |
| Orders.CreatedOrdersAreReachable | src/Domain/Order/Order.php:20-69 | every order that `createDraft` started and only the three mutators touched has only its own items, and is non-empty unless it is DRAFT |
| Orders.CancelledIsTerminal | src/Domain/Order/Order.php:25-69 | on a CANCELLED order every call fails, so no sequence of calls changes it |
| Orders.SetItemsBreaksReachable | src/Domain/Order/Order.php:104-107 | `setItems` has no guard: it can take a reachable order to one that is not reachable |
| Orders.Order.CreateDraft | src/Domain/Order/Order.php:20-23 | the constructed object's state is `Draft(id, createdAt)` |
| Orders.Order.Rehydrate | src/Infrastructure/Order/OrderRepository.php:79-112 | the object built from stored data has exactly those fields, with no guard run |
| Orders.Order.AddItem | src/Domain/Order/Order.php:25-37 | the in-place `addItem` does what `AddItemStep` says, and a failure leaves the object unchanged |
| Orders.Order.Confirm | src/Domain/Order/Order.php:39-51 | the in-place `confirm` does what `ConfirmStep` says, and a failure leaves the object unchanged |
| Orders.Order.Cancel | src/Domain/Order/Order.php:53-69 | the in-place `cancel` does what `CancelStep` says and returns its audit; a failure yields no audit and leaves the object unchanged |
| Orders.Order.SetItems | src/Domain/Order/Order.php:104-107 | the items are replaced and nothing else changes |
| Failures.NotFoundNamesTheOrder | src/Application/Order/GetOrderHandler.php:27-29 | the "Order {id} not found" messages of two different ids differ |
| Caching.OrderKeyInjective | src/Application/Order/GetOrderHandler.php:20 | two different order ids never share a cache key `"order:{id}"` |
| Caching.DeleteIsTargeted | src/Application/Order/AddOrderItemHandler.php:39 | deleting one order's key leaves every other order's cache entry as it was |
| Caching.Cache.Get | src/Infrastructure/Cache/CacheInterface.php:9 | a hit returns the stored entry; a miss is null |
| Caching.Cache.Set | src/Infrastructure/Cache/CacheInterface.php:11 | the key now maps to the value with the given TTL; the write is logged |
| Caching.Cache.Delete | src/Infrastructure/Cache/CacheInterface.php:13 | the key is gone and all other keys are unchanged; the delete is logged |
| Repository.RowsNotOf | src/Infrastructure/Order/OrderRepository.php:50-51 | the DELETE keeps exactly the rows of other orders and keeps the primary key unique |
| Repository.RowsOf | src/Infrastructure/Order/OrderRepository.php:95-97 | the SELECT returns exactly the rows of the order; it is empty when there are none |
| Repository.SortByIdPermutes | src/Infrastructure/Order/OrderRepository.php:95 | `ORDER BY id` returns the same rows, as a multiset |
| Repository.SortByIdAscending | src/Infrastructure/Order/OrderRepository.php:95 | `ORDER BY id` returns the rows in ascending id order |
| Repository.SortByIdStrict | src/Infrastructure/Order/OrderRepository.php:95 | with unique ids, the sorted rows strictly ascend and stay unique |
| Repository.SortByIdOfAscending | src/Infrastructure/Order/OrderRepository.php:95 | rows already in ascending id order are returned unchanged |
| Repository.ValidateRows | src/Infrastructure/Order/OrderRepository.php:99-108 | re-validation succeeds iff every row is a valid item, and then returns the rows unchanged; a failure carries the quantity or the price message |
| Repository.ValidateRowsStopsAtFirst | src/Infrastructure/Order/OrderRepository.php:99-108 | the first invalid row is the one whose `OrderItem::create` exception `findById` throws |
| Repository.UpsertOrder | src/Infrastructure/Order/OrderRepository.php:25-48 | afterwards the order's row has its state string and updatedAt; created_at is the first value stored under that id (the UPDATE does not change it); every other row is unchanged |
| Repository.InsertItems | src/Infrastructure/Order/OrderRepository.php:53-64 | when no INSERT fails, the order's items are appended in order; when one fails, exactly the items before it have been appended; the primary key stays unique in every case |
| Repository.InsertItemsSucceedsIff | src/Infrastructure/Order/OrderRepository.php:53-64 | the INSERT loop completes iff every item has a parent order row and the resulting table keeps its ids unique |
| Repository.SaveOrder | src/Infrastructure/Order/OrderRepository.php:21-65 | `save` never touches the audit table, always upserts the order row, and on success makes the item table equal to the other orders' rows followed by this order's items; a failed save leaves the other orders' rows followed by a proper prefix of this order's items |
| Repository.SaveSucceedsIff | src/Infrastructure/Order/OrderRepository.php:21-65 | `save` succeeds iff its items' parents exist and the resulting item ids are unique |
| Repository.SaveReplacesItems | src/Infrastructure/Order/OrderRepository.php:50-64 | after a successful save, the order's item rows are exactly its items; every other order's rows are unchanged |
| Repository.LoadOrder | src/Infrastructure/Order/OrderRepository.php:67-115 | `findById` is null iff there is no order row; an unknown state string is a ValueError; otherwise it gives the stored state and timestamps, and the order's rows sorted by id and re-validated |
| Repository.LoadOrderRejectsInvalidRow | src/Infrastructure/Order/OrderRepository.php:99-108 | for a stored order with a valid state, `findById` returns the order iff every item row of that order passes `OrderItem::create`'s checks |
| Repository.LoadOrderThrowsFirstInvalid | src/Infrastructure/Order/OrderRepository.php:95-108 | with an invalid stored item row, `findById` throws the exception of the first invalid row in id order: the quantity message when its quantity is below 1, the price message otherwise |
| Repository.SaveThenLoad | src/Infrastructure/Order/OrderRepository.php:21-115 | after `save(o)`, `findById(o.id)` returns o's id, state and updatedAt, the first-stored created_at, and o's items sorted by id |
| Repository.SaveThenLoadItems | src/Infrastructure/Order/OrderRepository.php:21-115 | the round trip keeps the order total, and returns o's item sequence itself when its ids ascend |
| Repository.SaveKeepsOtherOrders | src/Infrastructure/Order/OrderRepository.php:21-115 | saving one order leaves what `findById` returns for every other id unchanged |
| Repository.LoadOrderCongruent | src/Infrastructure/Order/OrderRepository.php:67-115 | `findById` reads only the order's own row and its own item rows |
| Repository.LoadedItems | src/Infrastructure/Order/OrderRepository.php:95-112 | the loaded items are the order's rows sorted by id |
| Repository.LoadedItemsSorted | src/Infrastructure/Order/OrderRepository.php:95-112 | the loaded items are a permutation of the order's rows and ascend by id |
| Repository.LoadedItemsBelong | src/Infrastructure/Order/OrderRepository.php:95-112 | every loaded item carries the order's id |
| Repository.LoadedItemsPartitionTable | src/Infrastructure/Order/OrderRepository.php:50-112 | with a unique key, the other orders' rows and the loaded items together make up the whole item table, with no id shared |
| Repository.SaveOwnItemsSucceedsIff | src/Infrastructure/Order/OrderRepository.php:21-65 | when every item belongs to the saved order, only a duplicate id can stop the save |
| Repository.ExtendSucceedsIff | src/Infrastructure/Order/OrderRepository.php:21-65 | re-saving a stored order with extra items succeeds iff the extra ids are unique among themselves and not already in the table |
| Repository.ResaveSucceedsIff | src/Infrastructure/Order/OrderRepository.php:21-115 | saving a loaded order again, with extra items appended, succeeds iff the extra ids are unique and unused anywhere in order_items |
| Repository.AppendAudit | src/Infrastructure/Order/OrderRepository.php:117-130 | `saveAudit` appends exactly one row (order id, action, reason, time; not the audit's own id), and touches neither orders nor items |
| Repository.OrderRepository.Save | src/Infrastructure/Order/OrderRepository.php:21-65 | the step-by-step `save` (SELECT, UPDATE or INSERT, DELETE, INSERT loop) leaves the tables and outcome that `SaveOrder` gives, keeps the primary key, and logs a save only on success |
| Repository.OrderRepository.FindById | src/Infrastructure/Order/OrderRepository.php:67-115 | the step-by-step `findById` returns what `LoadOrder` gives, as a fresh object, and changes no table |
| Repository.OrderRepository.SaveAudit | src/Infrastructure/Order/OrderRepository.php:117-130 | the tables become `AppendAudit` of the old ones, and the audit save is logged |
| Projection.ItemsToDTO | src/Application/Order/GetOrderHandler.php:40-49 | one item DTO per item, in order |
| Projection.LinesTotalOfItems | src/Application/Order/GetOrderHandler.php:38-59 | the DTO's line totals sum to the order's `getTotalCents` |
| Projection.ToDTO | src/Application/Order/GetOrderHandler.php:38-59 | the DTO carries the id, a state string that `from` maps back to the state, and the timestamps; it has one line per item, in order, with totalCents = quantity × price; its totalCents is the sum of the lines and is non-negative |
| Projection.ToDTOAppend | src/Application/Order/AddOrderItemHandler.php:49-70 | appending an item adds its line at the end of the DTO and its line total to the DTO total |
| GetOrder.IntField | src/Application/Order/GetOrderHandler.php:79-101 | an int field decodes iff the key is present and holds an int; anything else is a decoding failure |
| GetOrder.StringField | src/Application/Order/GetOrderHandler.php:79-101 | a string field decodes iff the key is present and holds a string |
| GetOrder.TimeField | src/Application/Order/GetOrderHandler.php:97 | `updatedAt ?? null`: a missing key and null both decode to null |
| GetOrder.DeserializeItem | src/Application/Order/GetOrderHandler.php:82-89 | an item entry decodes iff it is an object whose five keys hold values of the right types, and then the DTO's fields are those values; any other entry is a decoding failure |
| GetOrder.DeserializeItems | src/Application/Order/GetOrderHandler.php:82-91 | an item list decodes iff every element does, and then line i is the decoding of element i |
| GetOrder.DeserializeDTO | src/Application/Order/GetOrderHandler.php:79-101 | the cached document decodes iff it is an object whose six keys hold values of the right types (`updatedAt` may be missing or null) and whose items decode; the DTO's fields are then those values; every failure is reported as a malformed entry |
| GetOrder.DeserializeSerializeItem | src/Application/Order/GetOrderHandler.php:68-89 | an item line decodes back to itself |
| GetOrder.DeserializeSerializeItems | src/Application/Order/GetOrderHandler.php:68-91 | an item list decodes back to itself |
| GetOrder.DeserializeSerialize | src/Application/Order/GetOrderHandler.php:61-101 | `deserializeDTO(serializeDTO(dto)) == dto`, a null updatedAt included |
| GetOrder.SerializeInjective | src/Application/Order/GetOrderHandler.php:61-77 | two different DTOs never serialize to the same document |
| GetOrder.GetSpec | src/Application/Order/GetOrderHandler.php:18-36 | a hit returns the decoded entry; on a miss, an absent order is "Order {id} not found", a load failure propagates, and a success is `toDTO` of the loaded order |
| GetOrder.ReadThroughConsistent | src/Application/Order/GetOrderHandler.php:18-101 | after a successful miss, the stored entry answers the next request with the same DTO, whatever the tables hold then |
| GetOrder.MissAfterSaveProjectsSavedOrder | src/Application/Order/GetOrderHandler.php:25-35 | a miss right after a save projects the saved order with the created_at the table kept, when its item ids ascend |
| GetOrder.GetOrderHandler.Handle | src/Application/Order/GetOrderHandler.php:18-36 | returns `GetSpec` of the tables and of the cache entry it found; only a successful miss writes, storing that DTO's document under `"order:{id}"` with TTL 60; a hit and every failure leave the cache and the log unchanged |
| AddOrderItem.AddItemRejections | src/Application/Order/AddOrderItemHandler.php:22-36 | unknown id, load failure, invalid quantity (checked first), invalid price and a non-DRAFT order each throw their own exception and leave the tables unchanged |
| AddOrderItem.AddItemReturnsNewLine | src/Application/Order/AddOrderItemHandler.php:28-41 | a success returns the order still in DRAFT, updated `now`, with the command's item as its last line |
| AddOrderItem.AddItemSucceedsIff | src/Application/Order/AddOrderItemHandler.php:20-42 | with a unique key, the handler succeeds iff the order is found in DRAFT, quantity and price are valid, and the generated item id is unused |
| AddOrderItem.AddItemGrowsOrder | src/Application/Order/AddOrderItemHandler.php:28-41 | a success stores the loaded items plus the new item (in id order), and the DTO has one more line and a total larger by quantity × price |
| AddOrderItem.AddOrderItemHandler.Handle | src/Application/Order/AddOrderItemHandler.php:20-42 | the tables and result are what `AddItemSpec` gives; a success logs the save and then the delete of `"order:{id}"`, with nothing written to the cache; a failure leaves cache and log unchanged |
| AddOrderItem.AddOrderItemHandler.AddItemFound | src/Application/Order/AddOrderItemHandler.php:28-41 | item creation, `addItem` and `save` on the loaded order give what `AddItemLoaded` says, and log the save only on success |
| ConfirmOrder.ConfirmRejections | src/Application/Order/ConfirmOrderHandler.php:20-26 | unknown id, load failure, a non-DRAFT order and an empty DRAFT order each throw and leave the tables unchanged |
| ConfirmOrder.ConfirmSucceedsIff | src/Application/Order/ConfirmOrderHandler.php:18-32 | with a unique key, confirming succeeds iff the order is found in DRAFT with at least one item |
| ConfirmOrder.ConfirmKeepsItems | src/Application/Order/ConfirmOrderHandler.php:26-31 | a success returns and stores the order as CONFIRMED, updated `now`, with the loaded items in the same order and the same total |
| ConfirmOrder.ConfirmOrderHandler.Handle | src/Application/Order/ConfirmOrderHandler.php:18-32 | the tables and result are what `ConfirmSpec` gives; a success logs the save and then the cache delete, with no cache write; a failure leaves cache and log unchanged |
| ConfirmOrder.ConfirmOrderHandler.ConfirmFound | src/Application/Order/ConfirmOrderHandler.php:26-31 | `confirm` and `save` on the loaded order give what `ConfirmLoaded` says, and log the save only on success |
| CancelOrder.CancelRejections | src/Application/Order/CancelOrderHandler.php:20-26 | unknown id, load failure and a non-CONFIRMED order each throw, leaving the tables (and so the audit table) unchanged |
| CancelOrder.CancelSucceedsIff | src/Application/Order/CancelOrderHandler.php:18-33 | with a unique key, cancelling succeeds iff the order is found CONFIRMED |
| CancelOrder.CancelAppendsOneAudit | src/Application/Order/CancelOrderHandler.php:26-28 | a success appends exactly one audit row (the order's id, CANCELLED, the reason verbatim, `now`); a failure appends none |
| CancelOrder.LoadIgnoresAudits | src/Infrastructure/Order/OrderRepository.php:117-130 | an appended audit row changes nothing that `findById` returns |
| CancelOrder.CancelKeepsItems | src/Application/Order/CancelOrderHandler.php:26-32 | a success returns and stores the order as CANCELLED, updated `now`, with the loaded items and the same total |
| CancelOrder.CancelOrderHandler.Handle | src/Application/Order/CancelOrderHandler.php:18-33 | the tables and result are what `CancelSpec` gives; a success logs save, then audit save, then cache delete, with no cache write; a failure leaves cache and log unchanged |
| CancelOrder.CancelOrderHandler.CancelFound | src/Application/Order/CancelOrderHandler.php:26-32 | `cancel`, `save` and `saveAudit` on the loaded order give what `CancelLoaded` says; the audit is saved only after the order was |
| CreateOrder.CreateReturnsDraft | src/Application/Order/CreateOrderHandler.php:17-27 | creating never fails, and returns a DRAFT DTO with the id, created `now`, a null updatedAt, no items and total 0 |
| CreateOrder.CreateThenFind | src/Application/Order/CreateOrderHandler.php:17-24 | afterwards `findById` of the id finds a DRAFT order with no items and a null updatedAt; a reused id keeps its first created_at |
| CreateOrder.CreateKeepsOtherOrders | src/Application/Order/CreateOrderHandler.php:17-24 | creating leaves what `findById` returns for every other id unchanged |
| CreateOrder.CreateOrderHandler.Handle | src/Application/Order/CreateOrderHandler.php:17-27 | the tables and DTO are what `CreateSpec` gives; the only effect is one save; the handler has no cache |

## Left out

- Cache TTL expiry: the cache records the TTL each key was written with (60 for the get handler) but never evicts. Expiry is a clock-driven delete that nothing in the core decides.
- JSON text: the cache holds the decoded document (a `Json` tree) rather than its `json_encode` string. `json_encode`/`json_decode` are library calls, and the model relies on `json_decode(json_encode(x)) == x` for these documents.
- Date formatting: timestamps are whole seconds (`int`), not `Y-m-d H:i:s` strings and `DateTimeImmutable` objects. In the DTOs and the cached document, `createdAt` and `updatedAt` are therefore ints.
- Clock reads: every `new \DateTimeImmutable()` is a `now` parameter. `cancel` reads the clock twice (updatedAt and the audit time); the model passes one `now` for both.
- Id generation: `generateItemId` and `generateOrderId` (microtime × 10^6) are parameters. Their freshness is a hypothesis of the succeeds-iff lemmas, not something the model assumes.
- Transactions and concurrency: `save` runs without a transaction, and the model follows the code. A failed INSERT leaves the order row upserted, the order's old item rows deleted and its item rows inserted so far, as the contracts of `InsertItems` and `SaveOrder` state. Concurrent requests are not modelled.
- Time-derived ids can collide. `CreateOrder.CreateThenFind` states what the code then does: an order whose id is already taken is reset to an empty DRAFT and keeps its stored created_at.
- PHP integer overflow: quantity × price and the sums use unbounded `int`. In PHP an overflowing product becomes a float, which the `int` return type of `getTotalCents` (under `strict_types`) refuses with a TypeError; the model has no such exception.
- Reflection: `findById` writes private fields through reflection. The model builds the object with the `Rehydrate` constructor instead, which has the same effect.
- Database and Redis wrappers, the HTTP controller, middleware, logger, migrations and seed scripts are not part of this model. The table schema is not part of this model: the primary key of `order_items` and its foreign key to `orders` are assumed, and checking the foreign key before the primary key in `InsertItems` is a modelling choice.
- The command classes are plain datatypes (`AddOrderItemCommand`, `ConfirmOrderCommand`, `CancelOrderCommand`). `CreateOrderCommand` carries nothing that `handle` reads, so `CreateOrderHandler.Handle` takes no command.
- GetOrder.DeserializeDTO: `items` must be a JSON array (`JArray`). `json_decode($json, true)` also turns an object such as `{}` or `{"0": {...}}` into a PHP array that `array_map` accepts, so PHP decodes such a cached document where the model reports a malformed entry. The cache only ever holds documents that `serializeDTO` wrote, whose `items` is always a list.
- Each handler's private `toDTO` copy is modelled once, as `Projection.ToDTO`.
- Orders.Order.TotalCents: no contract of its own. It is `ItemsTotal` of the current items, and the properties of `getTotalCents` are stated on `Orders.ItemsTotal` and the lemmas beside it.
- Each mutating handler's `handle` is written as two methods: `Handle` (findById and the cache delete) and a helper (`AddItemFound`, `ConfirmFound`, `CancelFound`) for the steps between them. Together they run the same calls in the same order.
