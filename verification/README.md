# Verified model of an e-commerce order saga

This Dafny project models the stateful core of an e-commerce system made of several services and proves
what that core promises over all runs. `dafny verify dfyconfig.toml` checks everything.

The services, and the modules that model them:

| Part of the system | Modules |
|---|---|
| Order service (Go): pricing, the order / items / outbox transaction, status moves, outbox dispatcher | `OrderUsecase`, `OrderRepo`, `OrderStatus`, `OrderOutbox` |
| `order.created` wire format (Go, Avro) and its decoder | `AvroCodec`, `AvroRecords` |
| Wallet service (C#): the two payment transactions, the stock handler, outbox dispatcher | `Wallet`, `PaymentOutbox` |
| The saga: both services, both outboxes, any number of concurrent handlers, the message log | `Saga` |
| Chat rooms and chat writer (Go) | `Rooms`, `ChatConsumer` |
| Login sessions of the gateway (TypeScript) | `Sessions` |
| Shared vocabulary, sequence sums, `ORDER BY created LIMIT n` | `Common`, `Messages`, `Batches` |

## How the model is built

- Code that changes state is a class whose fields are the tables or stores and whose methods follow the source
  statement by statement. Each method's contract ties the new state to a function of the old one.
- A run is an initial state and a sequence of steps; `Apply` folds those same functions, and a step that is not
  enabled changes nothing. Everything that the environment decides is a parameter of a step or method: failures,
  crashes, times, the answer of a query, which message is delivered, how handlers interleave. A statement
  about `Run(..., steps)` for all `steps` therefore covers all of these.
- Every failure point of a transaction is a parameter; a transaction that fails leaves the tables unchanged.
- A call over the network that fails may have taken effect all the same (publish, conditional insert, offset commit).
- Kafka is the set of published messages. Any of them may be delivered at any time, in any order, any number of times.
- The product service is an environment that may report any stock outcome of any order at any time.

Assumptions: serializable transactions; insert-if-absent is linearizable; random and time UUIDs do not repeat;
one consumer goroutine updates order status, so the read and the write of `UpdateStatus` form one step; one dispatcher
of each outbox; money is exact (`real`), and a double on the wire is its 64 bits, obtained by a function parameter;
UUID parsing is a function parameter.

## Where the code differs from what one might expect

Each of these is stated by a lemma over all inputs where it can be, usually as an exact condition.

- The repository's README says that a paid order becomes COMPLETED (README.md:248). The code sets `payment_completed`.
- The wallet service charges without asking for the order's status. An unpaid order can still be charged exactly if
  its total is positive, a stock success was reported for it and it has no outcome row (`Saga.ChargeableIff`).
  So an order whose stock was refused stays free of charge if the product service reports only one outcome per order.
- The wallet service recognises an order by the spelling of its id in the stock message. Two spellings of one UUID are
  charged as two orders (`Wallet.SpellingsAreChargedSeparately`). `Saga` assumes that stock messages repeat ids
  in the form in which `order.created` carries them, as the product service does
  (spring-boot-product/src/main/kotlin/com/ecommerce/springboot/product/consumers/StockConsumer.kt:30-48).
- `ChangePassword` writes wallet 0, so money is conserved exactly if passwords are changed on empty wallets
  (`Saga.ConservedIff`).
- The chat writer drops a poll that reports an error together with its records. The committed prefix survives exactly
  if those records are already accounted for (`ChatConsumer.DroppedPollIsHarmlessIff`, `ChatConsumer.DroppedRecordIsLost`).
- Room keys join two ids with a colon, so ids that contain colons can share a room (`Rooms.KeyCollision`,
  `Rooms.ColonIdsCollide`).
- A login whose Redis commands straddle the expiry of the old index leaves its session without lifetime in
  no index (`Sessions.SlowLoginIndexedIff`).
- `Create` can report an error although it has committed, when reading the order back fails (`OrderRepo.OrderTables.Create`).
- `ResolveRoom` may answer created = true to several racing callers; agreement is about the room, not about that flag.

## Model

| member | source | states |
|---|---|---|
| `Saga.PaymentSafety` | golang-order-kratos/internal/biz/order.go:229-265 | In every run of the whole system: an order in payment_completed has charged its customer its total exactly once and nobody else; one in payment_failed never charged anybody; one in inventory_reserved_failed charged nobody unless both stock outcomes were reported |
| `Saga.ChargeableIff` | asp-user/Consumers/UserConsumer.cs:15-30 | Some continuation without a further success report charges an unpaid order, if and only if its total is positive, a success was reported and no outcome row exists |
| `Saga.OneOutcomePerOrder` | asp-user/Consumers/UserConsumer.cs:17-29 | With any number of handlers interleaved between their two transactions, no order ever has two outcome rows, and a handler ready to commit its offset has one for its order |
| `Saga.Conservation` | asp-user/Services/UsersService.cs:147-192 | Over every run, wallet plus totals of paid orders equals the start plus outside credits less password write-offs; no wallet goes negative |
| `Saga.ConservedIff` | asp-user/Services/UsersService.cs:86-117 | A user's wallet plus totals of paid orders changes over a run by outside credits alone, if and only if the user's passwords were changed only on an empty wallet |
| `Saga.WrittenOffIff` | asp-user/Services/UsersService.cs:101-109 | What password changes destroy is never negative, and is zero exactly if each found an empty wallet |
| `Saga.NoPhantomMessages` | golang-order-kratos/internal/worker/outbox.go:45-62 | Every payment message has its outcome row; every order.created message decodes to the customer, total and lines of an existing order |
| `Saga.NothingLost` | golang-order-kratos/internal/worker/outbox.go:45-62 | In every run each order's event is on the log or still pending, and each payment outcome is on the log or still unsent |
| `Saga.ConsumerObserves` | golang-order-kratos/internal/worker/consumer.go:73-123 | For every stock or payment message, the consumer on the topic that the message is published on makes the move of the saga's observation step, or none if it cannot commit |
| `Saga.EndToEnd` | golang-order-kratos/internal/biz/order.go:85-265 | From any state a request that is stored and reserved ends paid in full and payment_completed if the wallet affords it, else unpaid and payment_failed with the balance found; total is eleven tenths of the subtotal, no other wallet moves |
| `Saga.SequentialHandler` | asp-user/Consumers/UserConsumer.cs:15-30 | The consumer's sequential code equals the three handler steps run without interruption, result and commit included |
| `Saga.ChargesOfRun` | asp-user/Services/UsersService.cs:177-191 | The money a run takes on behalf of an order, and how many times it takes it, are determined by the appearance of the order's success row |
| `Saga.ChargeStep` | asp-user/Services/UsersService.cs:147-192 | A step takes money for an order exactly if it writes its success row, and then the total, from its customer |
| `Saga.NewOutcome` | asp-user/Services/UsersService.cs:163-170 | The outcome table grows only by one row, through one of the two transactions, for an order without an outcome |
| `Saga.RunKeepsInv` | golang-order-kratos/internal/data/order_repo.go:130-150 | Reachable states: one outcome per order, handlers hold the stored invoice, every message comes from a row, every status is justified by logged messages, no wallet is negative |
| `Wallet.UsersService.DecreaseWalletAndEnqueuePaymentSuccess` | asp-user/Services/UsersService.cs:147-192 | First transaction: new tables and answer for every amount, user, balance, earlier outcome and database failure |
| `Wallet.UsersService.EnqueuePaymentFailed` | asp-user/Services/UsersService.cs:194-219 | Second transaction: records the failure unless an outcome exists |
| `Wallet.UsersService.OnStockReduceSuccess` | asp-user/Consumers/UserConsumer.cs:14-30 | Sequencing of the two transactions, and whether the offset is committed |
| `Wallet.UsersService.ChangePassword` | asp-user/Services/UsersService.cs:86-117 | Writes back a user record whose wallet is zero, only if the user exists and the password matches |
| `Wallet.CommittedMeansHandled` | asp-user/Consumers/UserConsumer.cs:15-30 | Exactly when a delivery reaches its commit, and that then an outcome row exists and otherwise nothing has changed |
| `Wallet.FreshDelivery` | asp-user/Services/UsersService.cs:147-219 | An undisturbed delivery for a fresh order: payment and a pending success row, or no payment and a pending failure row that reports the balance found |
| `Wallet.HandledIsFinal` | asp-user/Services/UsersService.cs:163-170 | A delivery for an order with an outcome changes nothing |
| `Wallet.ReplayRefinement` | asp-user/Services/UsersService.cs:147-219 | Any sequence of deliveries with duplicates and failures ends in the same users and outbox as one without the duplicates |
| `Wallet.SpellingsAreChargedSeparately` | asp-user/Services/UsersService.cs:163-164 | Two spellings of one order id are both charged if and only if they differ and the wallet affords both |
| `Wallet.DeductConserves` | asp-user/Services/UsersService.cs:177-191 | The first transaction moves money only from a wallet into the sum of paid orders |
| `PaymentOutbox.DispatchService.DispatchBatch` | asp-user/Outbox/OutboxDispatchService.cs:15-52 | What is published, saved and returned, also if the process stops or the save fails after some publishes; after a save every picked row has one attempt more and is Sent without error if acknowledged, Failed with the error otherwise, and no other row differs |
| `PaymentOutbox.DispatchedRows` | asp-user/Outbox/OutboxDispatchService.cs:32-48 | Field by field: a picked row has one attempt more and the save time, is Sent with no error if acknowledged and Failed with the error otherwise; every other field and row is untouched |
| `PaymentOutbox.ReachedEvents` | asp-user/Outbox/OutboxDispatchService.cs:36-47 | An event reached the broker if and only if some attempt on it was acknowledged or was delivered unnoticed |
| `PaymentOutbox.SavedPollRow` | asp-user/Outbox/OutboxDispatchService.cs:19-50 | A saved poll leaves a row alone or makes one attempt on a row that was due |
| `PaymentOutbox.DispatcherInvariant` | asp-user/Outbox/OutboxDispatchService.cs:32-51 | In every run rows are Pending exactly if never attempted, Sent rows were published, attempts never exceed the larger of 1 and MaxAttempts |
| `PaymentOutbox.SentIsFinal` | asp-user/Outbox/OutboxDispatchService.cs:19-25 | A Sent row is never picked again |
| `PaymentOutbox.SentIffAcked` | asp-user/Outbox/OutboxDispatchService.cs:32-50 | Over any run a row is Sent if and only if a saved poll had its publish call acknowledged, and its counter is the number of saved polls that picked it |
| `PaymentOutbox.DueAfterAttempt` | asp-user/Outbox/OutboxDispatchService.cs:17-25 | After a saved attempt a row is due again if and only if it failed, has attempts left and the backoff since the save has passed; a Pending row is due at any time |
| `PaymentOutbox.Drain` | asp-user/Outbox/OutboxDispatchService.cs:32-51 | What polls return is bounded by the attempts left at the start and those of added rows; without additions only finitely many polls are non-empty |
| `PaymentOutbox.BoundedWaiting` | asp-user/Outbox/OutboxDispatchService.cs:19-48 | Polls that skip a Pending row, times BatchSize, are at most the attempts left to rows created no later than it, including rows still to be added |
| `Batches.SkippedMeansFull` | asp-user/Outbox/OutboxDispatchService.cs:19-25 | A batch that leaves out a due row is full and holds only rows created no later |
| `Batches.BatchesCompose` | golang-order-kratos/internal/data/order_repo.go:152-158 | Two consecutive answers of the pending query form one answer of the combined limit |
| `Batches.BatchExists` | golang-order-kratos/internal/data/order_repo.go:152-158 | The query relation always has an answer, so no statement about batches is empty |
| `OrderOutbox.OutboxDispatcher.Flush` | golang-order-kratos/internal/worker/outbox.go:45-62 | Which events are published and which are marked, for every publish or mark failure and crash point |
| `OrderOutbox.FlushedRows` | golang-order-kratos/internal/worker/outbox.go:52-61 | A flush sets only the processed flag, only of events that it published and marked |
| `OrderOutbox.ReachedEvents` | golang-order-kratos/internal/worker/outbox.go:53-60 | An event reached the broker if and only if a publish call for it succeeded, marked or not, or failed after delivery |
| `OrderOutbox.AtLeastOnce` | golang-order-kratos/internal/worker/outbox.go:45-62 | In every run a processed event was published, so an unpublished one stays pending |
| `OrderOutbox.OldestPublished` | golang-order-kratos/internal/worker/outbox.go:45-62 | k undisturbed flushes publish and mark exactly the oldest min(k times limit, n) of n pending events, in creation order |
| `OrderStatus.ClosedForm` | golang-order-kratos/internal/data/order_repo.go:130-150 | Folding the guarded update over any deliveries equals a declarative rule: the first stock event decides, then the next payment event, nothing else counts |
| `OrderStatus.ForwardOnly` | golang-order-kratos/internal/data/order_repo.go:130-150 | Status moves only forward, final states are final, error messages appear only in the two failed states |
| `OrderRepo.OrderTables.Create` | golang-order-kratos/internal/data/order_repo.go:24-100 | Order, items and event appear together or not at all, whatever fails: every column of the new order is the command's field of that name, items follow in order, one pending event is added, old rows stay; the answer may be an error after the commit |
| `OrderRepo.CreatedPlaces` | golang-order-kratos/internal/data/order_repo.go:37-94 | The same for the tables of a run: all columns, items and the pending event if it commits, no change otherwise |
| `OrderRepo.OrderTables.Advance` | golang-order-kratos/internal/data/order_repo.go:130-150 | The guarded status update on one order, with failing reads and writes; all other rows stay |
| `OrderRepo.OrderTables.MarkOutboxProcessed` | golang-order-kratos/internal/data/order_repo.go:160-163 | Sets the flag of one event, or fails without effect |
| `OrderRepo.NewEventDescribes` | golang-order-kratos/internal/data/order_repo.go:72-92 | The stored payload decodes in full to the order's id, status, customer, total and lines |
| `OrderRepo.CreateKeepsMatch` | golang-order-kratos/internal/data/order_repo.go:24-100 | A Create that fails anywhere keeps orders and events in agreement |
| `OrderRepo.OutboxBijection` | golang-order-kratos/internal/data/order_repo.go:24-100 | Over all runs orders and order.created rows correspond one to one with agreeing contents, and no item row is an orphan |
| `OrderUsecase.BuildVariantMap` | golang-order-kratos/internal/biz/order.go:105-108 | The map answers like a search for the last catalog entry with the id |
| `OrderUsecase.LookupFindsLast` | golang-order-kratos/internal/biz/order.go:105-108 | The search finds the last catalog entry with the id, and fails exactly if there is none |
| `OrderUsecase.LineChecks` | golang-order-kratos/internal/biz/order.go:118-136 | Each refusal of a line, check by check, in terms of that catalog entry: unknown, other price, bad product id, bad variant id |
| `OrderUsecase.CheckLine` | golang-order-kratos/internal/biz/order.go:118-149 | Which error a line is refused with, or an order item with the line's quantity, price and their product as total, described by the catalog entry |
| `OrderUsecase.PriceLines` | golang-order-kratos/internal/biz/order.go:117-160 | Accepts if and only if every line has a variant at its price with valid ids; then items and event items mirror the lines one by one; otherwise reports the first failing line |
| `OrderUsecase.PricingMirrorsRequest` | golang-order-kratos/internal/biz/order.go:117-160 | Line by line: quantity, price, total price as their product, ids and texts of the catalog entry, and the event line; addresses of the request; tax a tenth of the subtotal, total their sum |
| `OrderUsecase.SubtotalSums` | golang-order-kratos/internal/biz/order.go:138-139 | The subtotal is 0 without lines, and each further line adds its quantity times its price |
| `OrderUsecase.StoredIff` | golang-order-kratos/schema/orderitem.go:14-26 | An admitted request is stored if and only if its id is new, every line has a positive quantity, a price that is not negative and a product with a name, and nothing fails before the commit |
| `OrderUsecase.SubtotalIgnoresOrder` | golang-order-kratos/internal/biz/order.go:138-139 | The subtotal depends only on the multiset of lines, repeats included |
| `OrderUsecase.Usecase.CreateOrder` | golang-order-kratos/internal/biz/order.go:85-171 | Reaches the repository exactly if the request is admitted, and answers with the order exactly if it is also stored and read back; every refusal leaves the tables unchanged and names the first failing check |
| `OrderUsecase.Usecase.HandleStockEvent` | golang-order-kratos/internal/biz/order.go:229-246 | Moves the addressed order as the status rule says, or fails without effect |
| `OrderUsecase.Usecase.HandlePaymentEvent` | golang-order-kratos/internal/biz/order.go:248-265 | The same for payment events |
| `OrderUsecase.Usecase.HandleMessage` | golang-order-kratos/internal/worker/consumer.go:73-123 | The new tables and whether the offset is committed, for every topic, payload and failure; what that means is stated by the next two rows |
| `OrderUsecase.TopicTable` | golang-order-kratos/internal/worker/consumer.go:79-113 | For each of the four topics: the status it moves from, the status it moves to, and the error text kept; every other combination and topic commits and changes nothing |
| `OrderUsecase.CommitRule` | golang-order-kratos/internal/worker/consumer.go:73-123 | Exactly which messages are committed; one that is not has changed nothing |
| `OrderUsecase.RequestsKeepMatch` | golang-order-kratos/internal/biz/order.go:85-171 | The outbox bijection for arbitrary requests, catalog answers, events and failures |
| `OrderUsecase.OrdersTellRequests` | golang-order-kratos/internal/biz/order.go:85-171 | Over any run of requests, events and failures each order has the customer, addresses, subtotal, tax, total and item lines of the request that placed it, and only its progress ever changes |
| `AvroCodec.SampleLongs` | golang-order-kratos/gen/avro/array_item.go:21-31 | Longs are written as the samples of section "Binary Encoding" of the Apache Avro 1.11 specification require |
| `AvroCodec.LittleEndianByte` | golang-order-kratos/gen/avro/item.go:73 | Byte k of a double holds bits 8k to 8k + 7, as the same section requires |
| `AvroCodec.Layout` | golang-order-kratos/gen/avro/order_created_event.go:69-92 | The order of the fields on the wire, down to lengths, bytes and the array terminator |
| `AvroCodec.ItemRoundTrip` | golang-order-kratos/gen/avro/item.go:63-78 | Decoding an encoded item followed by any bytes gives back the item and those bytes |
| `AvroCodec.BlockRoundTrip` | golang-order-kratos/gen/avro/array_item.go:50-65 | Repeated append rebuilds the items of a block in order and number, after those decoded before |
| `AvroCodec.ArrayRoundTrip` | golang-order-kratos/gen/avro/array_item.go:20-32 | One count block and a zero, or a lone zero if empty; decoding restores the items for every length |
| `AvroCodec.RoundTrip` | golang-order-kratos/gen/avro/order_created_event.go:69-92 | Decoding an encoded event followed by any bytes gives back the event and exactly those bytes |
| `AvroCodec.PrefixFree` | golang-order-kratos/gen/avro/order_created_event.go:69-92 | The encoding is injective and prefix-free |
| `AvroRecords.WriteItem` | golang-order-kratos/gen/avro/item.go:63-78 | Writes the item's encoding, or as much of it as fits and reports the failure |
| `AvroRecords.WriteArrayItem` | golang-order-kratos/gen/avro/array_item.go:20-32 | Writes the array's encoding, or as much of it as fits and reports the failure |
| `AvroRecords.WriteOrderCreatedEvent` | golang-order-kratos/gen/avro/order_created_event.go:69-92 | Writes the event's encoding, or as much of it as fits and reports the failure |
| `AvroRecords.EventTarget.HintSize` | golang-order-kratos/gen/avro/array_item.go:50-54 | Loses no item already decoded |
| `AvroRecords.EventTarget.AppendArray` | golang-order-kratos/gen/avro/array_item.go:59-65 | One fresh item at the end, the earlier ones unchanged |
| `AvroRecords.EventTarget.DecodeItems` | golang-order-kratos/gen/avro/order_created_event.go:137-142 | Filling the target block by block agrees with the decoder of the specification, whatever the target held before |
| `AvroRecords.EventTarget.DecodeEvent` | golang-order-kratos/gen/avro/order_created_event.go:115-146 | The same for the whole event: fails exactly if the bytes are malformed, and leaves nothing of an earlier event |
| `Rooms.NormalizeIsUnordered` | chat/message-writer/internal/db/store.go:245-261 | Two calls have the same participants if and only if their unordered pairs of trimmed ids agree |
| `Rooms.TrimSpaceIff` | chat/message-writer/internal/db/store.go:246-247 | Trimming removes the white space at both ends, all of it and nothing else |
| `Rooms.LessIff` | chat/message-writer/internal/db/store.go:256 | The first difference decides, and a proper prefix comes first |
| `Rooms.NormalizeAnswers` | chat/message-writer/internal/db/store.go:245-261 | Blank ids are refused first, then ids that trim to the same text; otherwise the two trimmed ids, the smaller first |
| `Rooms.KeyCollision` | chat/message-writer/internal/db/store.go:260 | Exactly when two pairs of ids have the same key |
| `Rooms.ColonFreeKeyIsUnique` | chat/message-writer/internal/db/store.go:260 | The key of two colon-free ids belongs to no other pair |
| `Rooms.ColonIdsCollide` | chat/message-writer/internal/db/store.go:245-261 | Two different pairs with colons that get one key |
| `Rooms.Agreement` | chat/message-writer/internal/db/store.go:148-187 | Any number of callers interleaved at every table access: same pair, same room; two calls share a room exactly if their keys coincide; a colon-free pair shares with no other |
| `Rooms.ReturnedRoomValidates` | chat/message-writer/internal/db/store.go:189-199 | From the return of ResolveRoom on, ValidateRoom accepts exactly the room's two users, which for colon-free ids are the two participants |
| `Rooms.RoomMirror` | chat/message-writer/internal/db/store.go:165-187 | In every reachable state, crashes included, each row by id equals the pair row with its room id, and written rows never change |
| `Rooms.FirstCallCreates` | chat/message-writer/internal/db/store.go:154-186 | The first call for a pair creates a room of the new id, pair key, both users and time in both tables, and says so |
| `Rooms.LaterCallFinds` | chat/message-writer/internal/db/store.go:154-160 | A later call returns the existing room unchanged, and restores the row by id if it is missing |
| `Rooms.Store.ResolveRoom` | chat/message-writer/internal/db/store.go:148-187 | The sequential code does what the protocol's steps do when nobody else takes one |
| `Rooms.Store.EnsureRoomById` | chat/message-writer/internal/db/store.go:223-231 | Inserts the row unless its id is taken; an error may hide an insert |
| `Rooms.Store.Validate` | chat/message-writer/internal/db/store.go:189-199 | Accepts exactly the two users of an existing room; no row is not an error |
| `ChatConsumer.Consumer.HandleFetches` | chat/message-writer/internal/kafka/consumer.go:80-108 | Decode, insert, commit per record up to the first failure, nothing after it; the content stored is stated by the rows below |
| `ChatConsumer.Consumer.InsertMessage` | chat/message-writer/internal/db/store.go:136-146 | Stores the message unless its id is taken; an error may hide an insert |
| `ChatConsumer.StoredComesFromTopic` | chat/message-writer/internal/kafka/consumer.go:110-143 | Over any run every stored row says, field by field, what a well-formed record of the topic says |
| `ChatConsumer.RecordHandled` | chat/message-writer/internal/kafka/consumer.go:88-104 | A record is stored and committed if and only if it is well-formed and both calls succeed, with its content unless the id was taken; a malformed one changes nothing and ends the process |
| `ChatConsumer.CommittedPrefixHolds` | chat/message-writer/internal/kafka/consumer.go:80-108 | Over any run of failures, kills and restarts every record below a committed offset is stored, if errored polls carry no records |
| `ChatConsumer.DroppedPollIsHarmlessIff` | chat/message-writer/internal/kafka/consumer.go:63-78 | After dropping an errored poll the committed prefix survives every continuation, if and only if in each partition that goes on with a decodable record the dropped records are stored or repeat it |
| `ChatConsumer.DroppedRecordIsLost` | chat/message-writer/internal/kafka/consumer.go:69-72 | Two records of which the first is dropped: both offsets are committed and the first message is not stored |
| `ChatConsumer.FirstContentWins` | chat/message-writer/internal/db/store.go:136-146 | However often a message is replayed, its id keeps the content of the first insertion |
| `Sessions.AuthService.Login` | nest-api-gateway-auth/src/auth/auth.service.ts:20-46 | The three commands of a login at their own times; a refused login changes nothing |
| `Sessions.AuthService.ChangePassword` | nest-api-gateway-auth/src/auth/auth.service.ts:48-56 | Deletes the indexed sessions and the index, only if the password change was accepted |
| `Sessions.AuthService.GetSession` | nest-api-gateway-auth/src/auth/auth.service.ts:62-68 | Finds exactly the unexpired sessions |
| `Sessions.AuthService.Logout` | nest-api-gateway-auth/src/auth/auth.service.ts:70-76 | Deletes the session and its index entry, the latter only if the session was still found |
| `Sessions.SessionsStayIndexed` | nest-api-gateway-auth/src/auth/auth.service.ts:20-76 | Over any run every session that is found is in its user's live index |
| `Sessions.PasswordChangeRevokes` | nest-api-gateway-auth/src/auth/auth.service.ts:48-56 | A password change ends every session of the user for good, removes the index and touches nobody else's sessions |
| `Sessions.LogoutRevokes` | nest-api-gateway-auth/src/auth/auth.service.ts:70-76 | A logout ends its session for good, takes exactly it out of the index and touches no other |
| `Sessions.LoginLasts` | nest-api-gateway-auth/src/auth/auth.service.ts:20-76 | A login opens a session that is found in a later state if and only if less than seven days have passed and neither its logout nor a password change of its user came between |
| `Sessions.LoginIndex` | nest-api-gateway-auth/src/auth/auth.service.ts:39-41 | After the three commands the user's index lists the live sessions and the new one for seven more days, unless it expired on the way; no other index changes |
| `Sessions.SlowLoginIndexedIff` | nest-api-gateway-auth/src/auth/auth.service.ts:37-41 | A login whose commands take time keeps the invariant if and only if the old index does not expire between the add and the renewal |

## Left out

- Saga.PaymentSafety: assumes that stock messages carry order ids in canonical form; what another spelling costs is stated by Wallet.SpellingsAreChargedSeparately.
- Wallet.UsersService.ChangePassword: changes only the wallet column; the rest of the record and password hashing are not modelled.
- ChatConsumer.CommittedPrefixHolds: requires that errored polls carry no records, because the property is false otherwise; the exact condition is ChatConsumer.DroppedPollIsHarmlessIff.
- Sessions.SessionsStayIndexed: logins, logouts and password changes are atomic here; of their interleavings only a login whose commands take time is examined, in Sessions.SlowLoginIndexedIff.
- AvroCodec.RoundTrip: longs and string lengths are unbounded, so the 64-bit overflow of over-long varints is not modelled; the writer and reader of the Avro runtime library follow the specification, not its code.
- Saga: the committed offsets of the two saga consumers; after a handler error they go on with later messages, so they keep no committed prefix.
- Rounding of doubles and the conversion of a double to a decimal; exact numbers take their place.
- The text of exceptions: an insufficient balance is recorded as the two amounts that the text is formatted from.
- Order listing, paging and the mapping of status values between protobuf and the database.
- DecreaseWalletAmountAsync, user registration details, profiles: not part of the saga; credits and registrations are environment steps.
- The product service, the live chat service, HTTP and gRPC controllers, configuration, token signing, metrics and migrations.
- The clients of Kafka, Postgres, Cassandra and Redis, and the change tracking of the two object-relational mappers.
- Several instances of one outbox dispatcher running against the same table.
