/** The order service's tables and the transactions over them (golang-order-kratos/internal/data/order_repo.go). */
module OrderRepo {
  import opened Common
  import opened Messages
  import opened AvroCodec
  import opened AvroRecords
  import opened OrderStatus

  /** Library functions the service relies on: UUID parsing (to canonical text) and the bits of a double. */
  datatype Lib = Lib(parseUuid: GoString -> Option<Id>, toBits: real -> DoubleBits)

  datatype OrderItem = OrderItem(
    productId: Id,
    variantId: Id,
    productName: GoString,
    variantDescription: GoString,
    unitPrice: real,
    quantity: int32,
    totalPrice: real,
    imageUrl: GoString)

  datatype Command = Command(
    customer: Id,
    shippingAddress: GoString,
    billingAddress: GoString,
    items: seq<OrderItem>,
    eventItems: seq<Item>,
    subtotal: real,
    tax: real,
    total: real)

  datatype OrderRow = OrderRow(
    customer: Id,
    subtotal: real,
    tax: real,
    shippingCost: real,
    total: real,
    shippingAddress: GoString,
    billingAddress: GoString,
    progress: Progress)

  datatype ItemRow = ItemRow(orderId: Id, item: OrderItem)

  datatype OutboxEvent = OutboxEvent(aggregateId: Id, payload: Bytes, createdAt: int, processed: bool)

  datatype Repo = Repo(orders: map<Id, OrderRow>, items: seq<ItemRow>, outbox: seq<OutboxEvent>)

  const EMPTY := Repo(map[], [], [])

  /** The text "created" of the initial status. */
  const CREATED_TEXT: GoString := [99, 114, 101, 97, 116, 101, 100]

  /** Where Create may be hit by a database or serializer error. */
  datatype Fault = NoFault | AtBegin | AtOrder | AtItems | AtSerialize | AtOutbox | AtCommit | AtReload

  /** The schema's own checks on a new order row and on each item row. */
  predicate ValidOrder(c: Command) {
    c.subtotal >= 0.0 && c.tax >= 0.0 && c.total >= 0.0
  }

  predicate ValidItem(i: OrderItem) {
    i.productName != [] && i.unitPrice >= 0.0 && i.quantity > 0 && i.totalPrice >= 0.0
  }

  predicate ValidItems(items: seq<OrderItem>) {
    forall k :: 0 <= k < |items| ==> ValidItem(items[k])
  }

  /** Whether Create commits: it may still report an error if reading the order back fails. */
  predicate Commits(db: Repo, id: Id, c: Command, fault: Fault) {
    && (fault == NoFault || fault == AtReload || (fault == AtItems && c.items == []))
    && id !in db.orders
    && ValidOrder(c)
    && ValidItems(c.items)
  }

  function NewOrder(c: Command): OrderRow {
    OrderRow(c.customer, c.subtotal, c.tax, 0.0, c.total, c.shippingAddress, c.billingAddress, INITIAL)
  }

  function ItemRows(id: Id, items: seq<OrderItem>): (r: seq<ItemRow>)
    ensures |r| == |items|
  {
    seq(|items|, k requires 0 <= k < |items| => ItemRow(id, items[k]))
  }

  function CreatedEvent(lib: Lib, id: Id, c: Command): OrderCreatedEvent {
    OrderCreatedEvent(id, CREATED_TEXT, lib.toBits(c.total), c.customer, c.eventItems)
  }

  function NewEvent(lib: Lib, id: Id, c: Command, now: int): OutboxEvent {
    OutboxEvent(id, Encode(CreatedEvent(lib, id, c)), now, false)
  }

  function Created(lib: Lib, db: Repo, id: Id, c: Command, fault: Fault, now: int): Repo {
    if !Commits(db, id, c, fault) then db
    else Repo(db.orders[id := NewOrder(c)], db.items + ItemRows(id, c.items), db.outbox + [NewEvent(lib, id, c, now)])
  }

  /** The effect of a stock or payment event; an unknown order is an error without effect. */
  function Observed(db: Repo, id: Id, e: Event): Repo {
    if id !in db.orders then db
    else db.(orders := db.orders[id := db.orders[id].(progress := Handle(db.orders[id].progress, e))])
  }

  function Marked(db: Repo, i: nat): Repo {
    if i >= |db.outbox| then db else db.(outbox := db.outbox[i := db.outbox[i].(processed := true)])
  }

  function ItemsOf(items: seq<ItemRow>, id: Id): seq<OrderItem> {
    if items == [] then []
    else
      var n := |items| - 1;
      ItemsOf(items[..n], id) + if items[n].orderId == id then [items[n].item] else []
  }

  /** Every column of a new order is the command's field of the same name. */
  ghost predicate StoresCommand(row: OrderRow, c: Command) {
    && row.customer == c.customer
    && row.subtotal == c.subtotal && row.tax == c.tax && row.total == c.total && row.shippingCost == 0.0
    && row.shippingAddress == c.shippingAddress && row.billingAddress == c.billingAddress
    && row.progress == Progress(StatusCreated, None)
  }

  /** `db'` is `db` with one more order, its items in the command's order, and one pending event; old rows stay. */
  ghost predicate Placement(db: Repo, db': Repo, id: Id, c: Command, now: int) {
    && db'.orders.Keys == db.orders.Keys + {id} && id !in db.orders
    && StoresCommand(db'.orders[id], c)
    && (forall other :: other in db.orders ==> db'.orders[other] == db.orders[other])
    && |db'.items| == |db.items| + |c.items|
    && db'.items[..|db.items|] == db.items
    && (forall k :: |db.items| <= k < |db'.items| ==>
          db'.items[k].orderId == id && db'.items[k].item == c.items[k - |db.items|])
    && |db'.outbox| == |db.outbox| + 1
    && db'.outbox[..|db.outbox|] == db.outbox
    && var event := db'.outbox[|db.outbox|];
       event.aggregateId == id && event.createdAt == now && !event.processed
  }

  /** Create places the whole order if it commits, and changes nothing otherwise. */
  lemma {:induction false} CreatedPlaces(lib: Lib, db: Repo, id: Id, c: Command, fault: Fault, now: int)
    ensures Commits(db, id, c, fault) ==> Placement(db, Created(lib, db, id, c, fault, now), id, c, now)
    ensures !Commits(db, id, c, fault) ==> Created(lib, db, id, c, fault, now) == db
  {
    hide Encode, CreatedEvent;
    if Commits(db, id, c, fault) {
      var db', rows := Created(lib, db, id, c, fault, now), ItemRows(id, c.items);
      forall k | |db.items| <= k < |db'.items|
        ensures db'.items[k] == ItemRow(id, c.items[k - |db.items|])
      {
        assert (db.items + rows)[k] == rows[k - |db.items|];
      }
    }
  }

  method BuildItemRows(id: Id, items: seq<OrderItem>) returns (rows: seq<ItemRow>)
    ensures rows == ItemRows(id, items)
  {
    rows := [];
    for k := 0 to |items|
      invariant rows == ItemRows(id, items)[..k]
    {
      rows := rows + [ItemRow(id, items[k])];
    }
  }

  /** Serializes into a bytes.Buffer, which never runs out of room. */
  method Serialize(event: OrderCreatedEvent) returns (payload: Bytes)
    ensures payload == Encode(event)
  {
    var buffer := new Writer(|Encode(event)|);
    var ok := WriteOrderCreatedEvent(event, buffer);
    assert [] + Encode(event) == Encode(event);
    payload := buffer.written;
  }

  class OrderTables {
    const lib: Lib
    var orders: map<Id, OrderRow>
    var items: seq<ItemRow>
    var outbox: seq<OutboxEvent>

    constructor (lib: Lib)
      ensures this.lib == lib && State() == EMPTY
    {
      this.lib := lib;
      orders, items, outbox := map[], [], [];
    }

    function State(): Repo
      reads this
    {
      Repo(orders, items, outbox)
    }

    /** One transaction over the three tables; the fields change only at the commit. */
    method Create(id: Id, c: Command, fault: Fault, now: int) returns (r: Result<OrderRow, ()>)
      modifies this
      ensures State() == Created(lib, old(State()), id, c, fault, now)
      ensures Commits(old(State()), id, c, fault) ==> Placement(old(State()), State(), id, c, now)
      ensures r.Ok? <==> Commits(old(State()), id, c, fault) && fault != AtReload
      ensures r.Ok? ==> id in orders && r.value == orders[id] && StoresCommand(r.value, c)
    {
      hide Placement;
      CreatedPlaces(lib, State(), id, c, fault, now);
      if fault == AtBegin { return Err(()); }
      var txOrders, txItems, txOutbox := orders, items, outbox;

      if fault == AtOrder || id in txOrders || !ValidOrder(c) { return Err(()); }
      var row := OrderRow(c.customer, c.subtotal, c.tax, 0.0, c.total, c.shippingAddress, c.billingAddress, INITIAL);
      txOrders := txOrders[id := row];

      var itemCreates := BuildItemRows(id, c.items);
      if |itemCreates| > 0 {
        if fault == AtItems || !ValidItems(c.items) { return Err(()); }
        txItems := txItems + itemCreates;
      }

      var payload := Serialize(OrderCreatedEvent(id, CREATED_TEXT, lib.toBits(c.total), c.customer, c.eventItems));
      if fault == AtSerialize { return Err(()); }

      if fault == AtOutbox { return Err(()); }
      txOutbox := txOutbox + [OutboxEvent(id, payload, now, false)];

      if fault == AtCommit { return Err(()); }
      orders, items, outbox := txOrders, txItems, txOutbox;

      if fault == AtReload { return Err(()); }
      return Ok(orders[id]);
    }

    /** Reads the order, checks its current status, then writes the new one. */
    method Advance(id: Id, status: Status, message: Option<ErrorMessage>, expected: Status, getFails: bool, saveFails: bool)
      returns (r: Result<(), ()>)
      modifies this
      ensures items == old(items) && outbox == old(outbox)
      ensures orders == if id in old(orders) && r.Ok?
        then old(orders)[id := old(orders)[id].(progress := UpdateStatus(old(orders)[id].progress, status, message, expected))]
        else old(orders)
      ensures r.Ok? <==>
        (id in old(orders) && !getFails &&
         (saveFails ==> old(orders)[id].progress.status == status || old(orders)[id].progress.status != expected))
    {
      if getFails || id !in orders { return Err(()); }
      var entity := orders[id];
      assert orders == orders[id := entity.(progress := entity.progress)];
      if entity.progress.status == status { return Ok(()); }
      if entity.progress.status != expected { return Ok(()); }
      var update := entity.progress.(status := status);
      if message.Some? {
        update := update.(errorMessage := message);
      }
      if saveFails { return Err(()); }
      orders := orders[id := entity.(progress := update)];
      return Ok(());
    }

    method MarkOutboxProcessed(i: nat, fails: bool) returns (r: Result<(), ()>)
      modifies this
      ensures State() == if fails then old(State()) else Marked(old(State()), i)
      ensures r.Ok? <==> !fails && i < |old(outbox)|
    {
      if fails || i >= |outbox| { return Err(()); }
      outbox := outbox[i := outbox[i].(processed := true)];
      return Ok(());
    }
  }

  // ---------------------------------------------------------------- outbox bijection

  /** An event line and an item row that describe the same line of the order. */
  predicate SameLine(lib: Lib, e: Item, i: OrderItem) {
    && lib.parseUuid(e.variantId) == Some(i.variantId)
    && e.quantity == i.quantity
    && e.unitPrice == lib.toBits(i.unitPrice)
  }

  ghost predicate SameLines(lib: Lib, events: seq<Item>, items: seq<OrderItem>) {
    |events| == |items| && forall k :: 0 <= k < |items| ==> SameLine(lib, events[k], items[k])
  }

  /** The payload decodes, in full, to an event that tells the same as the order's own rows. */
  ghost predicate Describes(lib: Lib, db: Repo, e: OutboxEvent) {
    && e.aggregateId in db.orders
    && var decoded := Decode(e.payload);
    && decoded.Some? && decoded.value.1 == []
    && var event, order := decoded.value.0, db.orders[e.aggregateId];
    && event.orderId == e.aggregateId
    && event.status == CREATED_TEXT
    && event.customerId == order.customer
    && event.temporaryPrice == lib.toBits(order.total)
    && SameLines(lib, event.items, ItemsOf(db.items, e.aggregateId))
  }

  /** Each order has exactly one event. */
  ghost predicate EventsOneToOne(orders: set<Id>, outbox: seq<OutboxEvent>) {
    && (forall i :: 0 <= i < |outbox| ==> outbox[i].aggregateId in orders)
    && (forall i, j :: 0 <= i < j < |outbox| ==> outbox[i].aggregateId != outbox[j].aggregateId)
    && (forall id :: id in orders ==> exists i :: 0 <= i < |outbox| && outbox[i].aggregateId == id)
  }

  /** Orders and order.created rows are in one-to-one correspondence, and no item row is an orphan. */
  ghost predicate OneToOne(db: Repo) {
    && EventsOneToOne(db.orders.Keys, db.outbox)
    && (forall k :: 0 <= k < |db.items| ==> db.items[k].orderId in db.orders)
  }

  /** One to one, and each event agrees with its order. */
  ghost predicate Matched(lib: Lib, db: Repo) {
    && OneToOne(db)
    && (forall i :: 0 <= i < |db.outbox| ==> Describes(lib, db, db.outbox[i]))
  }

  datatype Step =
    | Create(id: Id, command: Command, fault: Fault, now: int)
    | Observe(id: Id, event: Event)
    | Mark(i: nat)

  function Apply(lib: Lib, db: Repo, s: Step): Repo {
    match s
    case Create(id, command, fault, now) => Created(lib, db, id, command, fault, now)
    case Observe(id, event) => Observed(db, id, event)
    case Mark(i) => Marked(db, i)
  }

  function Run(lib: Lib, db: Repo, steps: seq<Step>): Repo
    decreases |steps|
  {
    if steps == [] then db else Run(lib, Apply(lib, db, steps[0]), steps[1..])
  }

  lemma {:induction false} ItemsOfAppend(items: seq<ItemRow>, id: Id, more: seq<OrderItem>, other: Id)
    ensures ItemsOf(items + ItemRows(id, more), other) == ItemsOf(items, other) + if other == id then more else []
    decreases |more|
  {
    var all := items + ItemRows(id, more);
    if more == [] {
      assert all == items;
    } else {
      var n := |more| - 1;
      assert all[..|all| - 1] == items + ItemRows(id, more[..n]);
      ItemsOfAppend(items, id, more[..n], other);
      assert more == more[..n] + [more[n]];
    }
  }

  lemma {:induction false} NoOrphansNoItems(items: seq<ItemRow>, id: Id)
    requires forall k :: 0 <= k < |items| ==> items[k].orderId != id
    ensures ItemsOf(items, id) == []
  {
    if items != [] {
      NoOrphansNoItems(items[..|items| - 1], id);
    }
  }

  lemma {:induction false} CreatedItems(lib: Lib, db: Repo, id: Id, c: Command, fault: Fault, now: int)
    requires OneToOne(db) && Commits(db, id, c, fault)
    ensures ItemsOf(Created(lib, db, id, c, fault, now).items, id) == c.items
  {
    NoOrphansNoItems(db.items, id);
    ItemsOfAppend(db.items, id, c.items, id);
    assert [] + c.items == c.items;
  }

  lemma {:induction false} NewEventDescribes(lib: Lib, db: Repo, id: Id, c: Command, fault: Fault, now: int)
    requires Matched(lib, db) && Commits(db, id, c, fault) && SameLines(lib, c.eventItems, c.items)
    ensures Describes(lib, Created(lib, db, id, c, fault, now), NewEvent(lib, id, c, now))
  {
    var event := CreatedEvent(lib, id, c);
    RoundTrip(event, []);
    assert Encode(event) + [] == Encode(event);
    CreatedItems(lib, db, id, c, fault, now);
  }

  lemma {:induction false} OldEventStillDescribes(lib: Lib, db: Repo, id: Id, c: Command, fault: Fault, now: int, e: OutboxEvent)
    requires Commits(db, id, c, fault) && Describes(lib, db, e)
    ensures Describes(lib, Created(lib, db, id, c, fault, now), e)
  {
    ItemsOfAppend(db.items, id, c.items, e.aggregateId);
    assert ItemsOf(db.items, e.aggregateId) + [] == ItemsOf(db.items, e.aggregateId);
  }

  lemma {:induction false} CreateKeepsDescriptions(lib: Lib, db: Repo, id: Id, c: Command, fault: Fault, now: int, i: nat)
    requires Matched(lib, db) && SameLines(lib, c.eventItems, c.items)
    requires i < |Created(lib, db, id, c, fault, now).outbox|
    ensures Describes(lib, Created(lib, db, id, c, fault, now), Created(lib, db, id, c, fault, now).outbox[i])
  {
    if Commits(db, id, c, fault) {
      if i < |db.outbox| {
        OldEventStillDescribes(lib, db, id, c, fault, now, db.outbox[i]);
      } else {
        NewEventDescribes(lib, db, id, c, fault, now);
      }
    }
  }

  lemma {:induction false} OneMoreEvent(orders: set<Id>, outbox: seq<OutboxEvent>, event: OutboxEvent)
    requires EventsOneToOne(orders, outbox) && event.aggregateId !in orders
    ensures EventsOneToOne(orders + {event.aggregateId}, outbox + [event])
  {
    var all := outbox + [event];
    forall id | id in orders + {event.aggregateId}
      ensures exists i :: 0 <= i < |all| && all[i].aggregateId == id
    {
      if id == event.aggregateId {
        assert all[|outbox|].aggregateId == id;
      } else {
        var i :| 0 <= i < |outbox| && outbox[i].aggregateId == id;
        assert all[i].aggregateId == id;
      }
    }
  }

  lemma {:induction false} CreateKeepsOneToOne(lib: Lib, db: Repo, id: Id, c: Command, fault: Fault, now: int)
    requires OneToOne(db)
    ensures OneToOne(Created(lib, db, id, c, fault, now))
  {
    hide EventsOneToOne, Encode, CreatedEvent;
    if Commits(db, id, c, fault) {
      var db', event := Created(lib, db, id, c, fault, now), NewEvent(lib, id, c, now);
      OneMoreEvent(db.orders.Keys, db.outbox, event);
      assert db'.orders.Keys == db.orders.Keys + {id};
      var rows := ItemRows(id, c.items);
      forall k | 0 <= k < |db'.items|
        ensures db'.items[k].orderId in db'.orders
      {
        if k >= |db.items| {
          assert db'.items[k] == rows[k - |db.items|];
        }
      }
    }
  }

  lemma {:induction false} CreateKeepsMatch(lib: Lib, db: Repo, id: Id, c: Command, fault: Fault, now: int)
    requires Matched(lib, db) && SameLines(lib, c.eventItems, c.items)
    ensures Matched(lib, Created(lib, db, id, c, fault, now))
  {
    var db' := Created(lib, db, id, c, fault, now);
    CreateKeepsOneToOne(lib, db, id, c, fault, now);
    forall i | 0 <= i < |db'.outbox|
      ensures Describes(lib, db', db'.outbox[i])
    {
      CreateKeepsDescriptions(lib, db, id, c, fault, now, i);
    }
  }

  /** Nothing differs but the orders' progress and the events' processed flags. */
  ghost predicate SameRows(db: Repo, db': Repo) {
    && db'.items == db.items && db'.orders.Keys == db.orders.Keys && |db'.outbox| == |db.outbox|
    && (forall id :: id in db.orders ==>
          db'.orders[id] == db.orders[id].(progress := db'.orders[id].progress))
    && (forall i :: 0 <= i < |db.outbox| ==>
          db'.outbox[i] == db.outbox[i].(processed := db'.outbox[i].processed))
  }

  lemma ObservedSameRows(db: Repo, id: Id, e: Event)
    ensures SameRows(db, Observed(db, id, e))
  {
    assert Observed(db, id, e).orders.Keys == db.orders.Keys;
  }

  lemma MarkedSameRows(db: Repo, i: nat)
    ensures SameRows(db, Marked(db, i))
  {
  }

  lemma {:induction false} SameRowsKeepMatch(lib: Lib, db: Repo, db': Repo)
    requires Matched(lib, db) && SameRows(db, db')
    ensures Matched(lib, db')
  {
    forall i | 0 <= i < |db'.outbox|
      ensures Describes(lib, db', db'.outbox[i])
    {
      assert Describes(lib, db, db.outbox[i]);
    }
    forall id | id in db'.orders
      ensures exists i :: 0 <= i < |db'.outbox| && db'.outbox[i].aggregateId == id
    {
      var i :| 0 <= i < |db.outbox| && db.outbox[i].aggregateId == id;
      assert db'.outbox[i].aggregateId == id;
    }
  }

  lemma {:induction false} StepKeepsMatch(lib: Lib, db: Repo, s: Step)
    requires Matched(lib, db)
    requires s.Create? ==> SameLines(lib, s.command.eventItems, s.command.items)
    ensures Matched(lib, Apply(lib, db, s))
  {
    match s
    case Create(id, command, fault, now) =>
      CreateKeepsMatch(lib, db, id, command, fault, now);
    case Observe(id, event) =>
      ObservedSameRows(db, id, event);
      SameRowsKeepMatch(lib, db, Observed(db, id, event));
    case Mark(i) =>
      MarkedSameRows(db, i);
      SameRowsKeepMatch(lib, db, Marked(db, i));
  }

  /** Whatever fails at whatever point of whatever Create, and however status and outbox move meanwhile,
      committed orders and order.created rows correspond one to one with agreeing contents. */
  lemma {:induction false} OutboxBijection(lib: Lib, db: Repo, steps: seq<Step>)
    requires Matched(lib, db)
    requires forall s :: s in steps && s.Create? ==> SameLines(lib, s.command.eventItems, s.command.items)
    ensures Matched(lib, Run(lib, db, steps))
    decreases |steps|
  {
    if steps != [] {
      StepKeepsMatch(lib, db, steps[0]);
      OutboxBijection(lib, Apply(lib, db, steps[0]), steps[1..]);
    }
  }

  lemma EmptyMatched(lib: Lib)
    ensures Matched(lib, EMPTY)
  {
  }
}
