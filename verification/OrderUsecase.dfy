/** Order placement and saga events in the order service
    (golang-order-kratos/internal/biz/order.go and golang-order-kratos/internal/worker/consumer.go). */
module OrderUsecase {
  import opened Common
  import opened Messages
  import opened AvroCodec
  import opened OrderStatus
  import opened OrderRepo

  datatype VariantInfo = VariantInfo(
    id: GoString,
    productId: GoString,
    productName: GoString,
    variantDescription: GoString,
    imageUrl: GoString,
    salePrice: real)

  datatype Line = Line(variantId: GoString, quantity: int32, unitPrice: real)

  datatype Request = Request(customerId: GoString, shippingAddress: GoString, billingAddress: GoString, items: seq<Line>)

  datatype CreateError =
    | InvalidCustomer
    | NoItems
    | CatalogFailed
    | VariantNotFound(variantId: GoString)
    | PriceMismatch(variantId: GoString)
    | InvalidProductId(variantId: GoString)
    | InvalidVariantId(variantId: GoString)
    | NotStored

  /** The catalog's entry for an id: the last one, should the catalog answer with several. */
  function Lookup(variants: seq<VariantInfo>, id: GoString): (r: Option<VariantInfo>)
    ensures r.Some? ==> r.value in variants && r.value.id == id
    ensures r.None? ==> forall v :: v in variants ==> v.id != id
  {
    if variants == [] then None
    else
      var last := variants[|variants| - 1];
      if last.id == id then Some(last) else Lookup(variants[..|variants| - 1], id)
  }

  /** Why a line is refused, if it is. */
  function LineError(lib: Lib, variants: seq<VariantInfo>, line: Line): Option<CreateError> {
    match Lookup(variants, line.variantId)
    case None => Some(VariantNotFound(line.variantId))
    case Some(v) =>
      if v.salePrice != line.unitPrice then Some(PriceMismatch(line.variantId))
      else if lib.parseUuid(v.productId).None? then Some(InvalidProductId(line.variantId))
      else if lib.parseUuid(v.id).None? then Some(InvalidVariantId(line.variantId))
      else None
  }

  predicate LinesOk(lib: Lib, variants: seq<VariantInfo>, lines: seq<Line>) {
    forall k :: 0 <= k < |lines| ==> LineError(lib, variants, lines[k]) == None
  }

  function LineTotal(line: Line): real {
    line.quantity as real * line.unitPrice
  }

  function Subtotal(lines: seq<Line>): real {
    if lines == [] then 0.0 else Subtotal(lines[..|lines| - 1]) + LineTotal(lines[|lines| - 1])
  }

  function ItemFor(lib: Lib, variants: seq<VariantInfo>, line: Line): OrderItem
    requires LineError(lib, variants, line) == None
  {
    var v := Lookup(variants, line.variantId).value;
    OrderItem(lib.parseUuid(v.productId).value, lib.parseUuid(v.id).value, v.productName, v.variantDescription,
              line.unitPrice, line.quantity, LineTotal(line), v.imageUrl)
  }

  function EventItemFor(lib: Lib, line: Line): Item {
    Item(line.variantId, line.quantity, lib.toBits(line.unitPrice))
  }

  function ItemsFor(lib: Lib, variants: seq<VariantInfo>, lines: seq<Line>): (r: seq<OrderItem>)
    requires LinesOk(lib, variants, lines)
    ensures |r| == |lines|
  {
    seq(|lines|, k requires 0 <= k < |lines| => ItemFor(lib, variants, lines[k]))
  }

  function EventItemsFor(lib: Lib, lines: seq<Line>): (r: seq<Item>)
    ensures |r| == |lines|
  {
    seq(|lines|, k requires 0 <= k < |lines| => EventItemFor(lib, lines[k]))
  }

  function CommandFor(lib: Lib, customer: Id, request: Request, variants: seq<VariantInfo>): Command
    requires LinesOk(lib, variants, request.items)
  {
    var subtotal := Subtotal(request.items);
    Command(customer, request.shippingAddress, request.billingAddress,
            ItemsFor(lib, variants, request.items), EventItemsFor(lib, request.items),
            subtotal, subtotal * 0.1, subtotal + subtotal * 0.1)
  }

  /** Whether a request reaches the repository. */
  predicate Admitted(lib: Lib, request: Request, catalog: Option<seq<VariantInfo>>) {
    && lib.parseUuid(request.customerId).Some?
    && request.items != []
    && catalog.Some?
    && LinesOk(lib, catalog.value, request.items)
  }

  ghost predicate FirstError(lib: Lib, variants: seq<VariantInfo>, lines: seq<Line>, e: CreateError) {
    exists k :: (0 <= k < |lines| && LineError(lib, variants, lines[k]) == Some(e) && LinesOk(lib, variants, lines[..k]))
  }

  /** The answer to a request that does not reach the repository: the first check that fails, line by line. */
  ghost predicate Refused(lib: Lib, request: Request, catalog: Option<seq<VariantInfo>>, e: CreateError) {
    if lib.parseUuid(request.customerId).None? then e == InvalidCustomer
    else if request.items == [] then e == NoItems
    else if catalog.None? then e == CatalogFailed
    else FirstError(lib, catalog.value, request.items, e)
  }

  function Placed(lib: Lib, db: Repo, request: Request, catalog: Option<seq<VariantInfo>>, id: Id, fault: Fault, now: int): Repo {
    if Admitted(lib, request, catalog)
    then Created(lib, db, id, CommandFor(lib, lib.parseUuid(request.customerId).value, request, catalog.value), fault, now)
    else db
  }

  /** Position i holds the catalog's last entry for an id. */
  ghost predicate LastEntry(variants: seq<VariantInfo>, id: GoString, i: int) {
    0 <= i < |variants| && variants[i].id == id && forall j :: i < j < |variants| ==> variants[j].id != id
  }

  lemma {:induction false} LookupIsLast(variants: seq<VariantInfo>, id: GoString, i: nat)
    requires LastEntry(variants, id, i)
    ensures Lookup(variants, id) == Some(variants[i])
  {
    var n := |variants| - 1;
    if i < n {
      assert variants[n].id != id;
      LookupIsLast(variants[..n], id, i);
    }
  }

  lemma {:induction false} LastEntryExists(variants: seq<VariantInfo>, id: GoString) returns (i: nat)
    requires Lookup(variants, id).Some?
    ensures LastEntry(variants, id, i)
  {
    i := |variants| - 1;
    if variants[i].id != id {
      i := LastEntryExists(variants[..i], id);
    }
  }

  lemma {:induction false} LookupFindsLast(variants: seq<VariantInfo>, id: GoString)
    ensures Lookup(variants, id).Some? <==> exists i :: LastEntry(variants, id, i)
    ensures forall i :: LastEntry(variants, id, i) ==> Lookup(variants, id) == Some(variants[i])
  {
    if Lookup(variants, id).Some? {
      var i := LastEntryExists(variants, id);
    }
    forall i | LastEntry(variants, id, i)
      ensures Lookup(variants, id) == Some(variants[i])
    {
      LookupIsLast(variants, id, i);
    }
  }

  /** The answer to a line, check by check: unknown variant, other price, bad product id, bad variant id. */
  lemma {:induction false} LineChecks(lib: Lib, variants: seq<VariantInfo>, line: Line)
    ensures LineError(lib, variants, line) == Some(VariantNotFound(line.variantId)) <==> forall v :: v in variants ==> v.id != line.variantId
    ensures forall i :: LastEntry(variants, line.variantId, i) ==>
      var v, error := variants[i], LineError(lib, variants, line);
      && (error == Some(PriceMismatch(line.variantId)) <==> v.salePrice != line.unitPrice)
      && (error == Some(InvalidProductId(line.variantId)) <==> v.salePrice == line.unitPrice && lib.parseUuid(v.productId) == None)
      && (error == Some(InvalidVariantId(line.variantId)) <==>
            v.salePrice == line.unitPrice && lib.parseUuid(v.productId).Some? && lib.parseUuid(v.id) == None)
      && (error == None <==>
            v.salePrice == line.unitPrice && lib.parseUuid(v.productId).Some? && lib.parseUuid(v.id).Some?)
  {
    LookupFindsLast(variants, line.variantId);
  }

  /** An order item that says what the request's line says, described by the catalog's entry for it. */
  ghost predicate MirrorsLine(lib: Lib, variants: seq<VariantInfo>, line: Line, item: OrderItem) {
    && item.quantity == line.quantity
    && item.unitPrice == line.unitPrice
    && item.totalPrice == line.quantity as real * line.unitPrice
    && exists i :: (
         && LastEntry(variants, line.variantId, i)
         && variants[i].salePrice == line.unitPrice
         && lib.parseUuid(variants[i].productId) == Some(item.productId)
         && lib.parseUuid(variants[i].id) == Some(item.variantId)
         && item.productName == variants[i].productName
         && item.variantDescription == variants[i].variantDescription
         && item.imageUrl == variants[i].imageUrl)
  }

  ghost predicate MirrorsLines(lib: Lib, variants: seq<VariantInfo>, lines: seq<Line>, items: seq<OrderItem>) {
    |items| == |lines| && forall k :: 0 <= k < |lines| ==> MirrorsLine(lib, variants, lines[k], items[k])
  }

  ghost predicate EventsMirrorLines(lib: Lib, lines: seq<Line>, events: seq<Item>) {
    && |events| == |lines|
    && forall k :: 0 <= k < |lines| ==>
         events[k].variantId == lines[k].variantId && events[k].quantity == lines[k].quantity
         && events[k].unitPrice == lib.toBits(lines[k].unitPrice)
  }

  lemma {:induction false} AcceptedLine(lib: Lib, variants: seq<VariantInfo>, line: Line)
    requires LineError(lib, variants, line) == None
    ensures MirrorsLine(lib, variants, line, ItemFor(lib, variants, line))
    ensures SameLine(lib, EventItemFor(lib, line), ItemFor(lib, variants, line))
  {
    LookupFindsLast(variants, line.variantId);
    var i :| LastEntry(variants, line.variantId, i);
    assert ItemFor(lib, variants, line).productName == variants[i].productName;
  }

  method BuildVariantMap(variants: seq<VariantInfo>) returns (variantMap: map<GoString, VariantInfo>)
    ensures forall id :: Lookup(variants, id) == if id in variantMap then Some(variantMap[id]) else None
  {
    variantMap := map[];
    for i := 0 to |variants|
      invariant forall id :: Lookup(variants[..i], id) == if id in variantMap then Some(variantMap[id]) else None
    {
      assert variants[..i + 1][..i] == variants[..i];
      variantMap := variantMap[variants[i].id := variants[i]];
    }
    assert variants[..|variants|] == variants;
  }

  method CheckLine(lib: Lib, variants: seq<VariantInfo>, variantMap: map<GoString, VariantInfo>, line: Line)
    returns (r: Result<OrderItem, CreateError>)
    requires forall id :: Lookup(variants, id) == if id in variantMap then Some(variantMap[id]) else None
    ensures LineError(lib, variants, line) == if r.Ok? then None else Some(r.error)
    ensures r.Ok? ==> r.value == ItemFor(lib, variants, line) && MirrorsLine(lib, variants, line, r.value)
  {
    hide MirrorsLine;
    if LineError(lib, variants, line) == None {
      AcceptedLine(lib, variants, line);
    }
    assert Lookup(variants, line.variantId) == if line.variantId in variantMap then Some(variantMap[line.variantId]) else None;
    if line.variantId !in variantMap { return Err(VariantNotFound(line.variantId)); }
    var variant := variantMap[line.variantId];
    if variant.salePrice != line.unitPrice { return Err(PriceMismatch(line.variantId)); }
    var productId := lib.parseUuid(variant.productId);
    if productId.None? { return Err(InvalidProductId(line.variantId)); }
    var variantId := lib.parseUuid(variant.id);
    if variantId.None? { return Err(InvalidVariantId(line.variantId)); }
    return Ok(OrderItem(productId.value, variantId.value, variant.productName, variant.variantDescription,
                        variant.salePrice, line.quantity, line.quantity as real * variant.salePrice, variant.imageUrl));
  }

  lemma OneMoreLine(lib: Lib, variants: seq<VariantInfo>, lines: seq<Line>, k: nat)
    requires k < |lines| && LinesOk(lib, variants, lines[..k])
    ensures LineError(lib, variants, lines[k]) == None ==>
      && LinesOk(lib, variants, lines[..k + 1])
      && ItemsFor(lib, variants, lines[..k + 1]) == ItemsFor(lib, variants, lines[..k]) + [ItemFor(lib, variants, lines[k])]
    ensures EventItemsFor(lib, lines[..k + 1]) == EventItemsFor(lib, lines[..k]) + [EventItemFor(lib, lines[k])]
    ensures Subtotal(lines[..k + 1]) == Subtotal(lines[..k]) + LineTotal(lines[k])
  {
    assert lines[..k + 1][..k] == lines[..k];
    assert forall l :: 0 <= l < k ==> lines[..k][l] == lines[l];
  }

  /** The pricing loop of CreateOrder. */
  method PriceLines(lib: Lib, customer: Id, request: Request, variants: seq<VariantInfo>)
    returns (r: Result<Command, CreateError>)
    ensures r.Ok? <==> LinesOk(lib, variants, request.items)
    ensures r.Ok? ==>
      && r.value == CommandFor(lib, customer, request, variants)
      && MirrorsLines(lib, variants, request.items, r.value.items)
      && EventsMirrorLines(lib, request.items, r.value.eventItems)
      && r.value.subtotal == Subtotal(request.items)
    ensures r.Err? ==> FirstError(lib, variants, request.items, r.error)
  {
    var variantMap := BuildVariantMap(variants);
    var items: seq<OrderItem>, eventItems: seq<Item>, subtotal := [], [], 0.0;
    for k := 0 to |request.items|
      invariant LinesOk(lib, variants, request.items[..k])
      invariant items == ItemsFor(lib, variants, request.items[..k])
      invariant eventItems == EventItemsFor(lib, request.items[..k])
      invariant subtotal == Subtotal(request.items[..k])
    {
      var line := request.items[k];
      OneMoreLine(lib, variants, request.items, k);
      var item := CheckLine(lib, variants, variantMap, line);
      if item.Err? { return Err(item.error); }
      subtotal := subtotal + item.value.totalPrice;
      items := items + [item.value];
      eventItems := eventItems + [Item(line.variantId, line.quantity, lib.toBits(item.value.unitPrice))];
    }
    assert request.items[..|request.items|] == request.items;
    PricingMirrorsRequest(lib, customer, request, variants);
    var tax := subtotal * 0.1;
    return Ok(Command(customer, request.shippingAddress, request.billingAddress, items, eventItems, subtotal, tax, subtotal + tax));
  }

  class Usecase {
    const repo: OrderTables

    constructor (repo: OrderTables)
      ensures this.repo == repo
    {
      this.repo := repo;
    }

    /** `catalog` is the product service's answer, None if the call fails; `id` the new order's UUID. */
    method CreateOrder(request: Request, catalog: Option<seq<VariantInfo>>, id: Id, fault: Fault, now: int)
      returns (r: Result<Id, CreateError>)
      modifies repo
      ensures repo.State() == Placed(repo.lib, old(repo.State()), request, catalog, id, fault, now)
      ensures Admitted(repo.lib, request, catalog) ==>
        var command := CommandFor(repo.lib, repo.lib.parseUuid(request.customerId).value, request, catalog.value);
        r == if Commits(old(repo.State()), id, command, fault) && fault != AtReload then Ok(id) else Err(NotStored)
      ensures !Admitted(repo.lib, request, catalog) ==> r.Err? && Refused(repo.lib, request, catalog, r.error)
      ensures r.Ok? ==> id in repo.orders && id !in old(repo.orders)
    {
      var customer := repo.lib.parseUuid(request.customerId);
      if customer.None? { return Err(InvalidCustomer); }
      if |request.items| == 0 { return Err(NoItems); }
      if catalog.None? { return Err(CatalogFailed); }
      var command := PriceLines(repo.lib, customer.value, request, catalog.value);
      if command.Err? { return Err(command.error); }
      var stored := repo.Create(id, command.value, fault, now);
      if stored.Err? { return Err(NotStored); }
      return Ok(id);
    }

    method HandleStockEvent(orderId: GoString, success: bool, message: ErrorMessage, getFails: bool, saveFails: bool)
      returns (r: Result<(), ()>)
      modifies repo
      ensures r.Ok? <==>
        && Names(repo.lib, old(repo.State()), orderId) && !getFails
        && (saveFails ==>
              var p := old(repo.orders)[repo.lib.parseUuid(orderId).value].progress;
              OrderStatus.HandleStockEvent(p, success, message) == p)
      ensures repo.State() == if r.Err? then old(repo.State())
        else var id := repo.lib.parseUuid(orderId).value; var order := old(repo.orders)[id];
          old(repo.State()).(orders := old(repo.orders)[id := order.(progress := OrderStatus.HandleStockEvent(order.progress, success, message))])
    {
      var id := repo.lib.parseUuid(orderId);
      if id.None? { return Err(()); }
      var status := if success then StatusInventoryReserved else StatusInventoryReservedFailed;
      var errorMessage := if message != Text("") then Some(message) else None;
      r := repo.Advance(id.value, status, errorMessage, StatusCreated, getFails, saveFails);
    }

    method HandlePaymentEvent(orderId: GoString, success: bool, message: ErrorMessage, getFails: bool, saveFails: bool)
      returns (r: Result<(), ()>)
      modifies repo
      ensures r.Ok? <==>
        && Names(repo.lib, old(repo.State()), orderId) && !getFails
        && (saveFails ==>
              var p := old(repo.orders)[repo.lib.parseUuid(orderId).value].progress;
              OrderStatus.HandlePaymentEvent(p, success, message) == p)
      ensures repo.State() == if r.Err? then old(repo.State())
        else var id := repo.lib.parseUuid(orderId).value; var order := old(repo.orders)[id];
          old(repo.State()).(orders := old(repo.orders)[id := order.(progress := OrderStatus.HandlePaymentEvent(order.progress, success, message))])
    {
      var id := repo.lib.parseUuid(orderId);
      if id.None? { return Err(()); }
      var status := if success then StatusPaymentCompleted else StatusPaymentFailed;
      var errorMessage := if message != Text("") then Some(message) else None;
      r := repo.Advance(id.value, status, errorMessage, StatusInventoryReserved, getFails, saveFails);
    }

    /** OrderEventConsumer: `decoded` is the order id and message in the payload, None if it is malformed.
        The offset is committed unless the handler fails; a message on an unknown topic is committed unread. */
    method HandleMessage(topic: Option<string>, decoded: Option<(GoString, ErrorMessage)>, getFails: bool, saveFails: bool)
      returns (commits: bool)
      modifies repo
      ensures (repo.State(), commits) == MessageHandled(repo.lib, old(repo.State()), topic, decoded, getFails, saveFails)
    {
      if topic.None? { return false; }
      var known := EventOn(topic.value, Text(""));
      if known.None? { return true; }
      if decoded.None? { return false; }
      var (orderId, message) := decoded.value;
      var r: Result<(), ()>;
      match known.value {
        case StockNotReduced(_) => r := HandleStockEvent(orderId, false, message, getFails, saveFails);
        case StockReduced => r := HandleStockEvent(orderId, true, Text(""), getFails, saveFails);
        case PaymentNotMade(_) => r := HandlePaymentEvent(orderId, false, message, getFails, saveFails);
        case PaymentSucceeded => r := HandlePaymentEvent(orderId, true, Text(""), getFails, saveFails);
      }
      return r.Ok?;
    }
  }

  /** The text is the UUID of an order that exists. */
  predicate Names(lib: Lib, db: Repo, orderId: GoString) {
    lib.parseUuid(orderId).Some? && lib.parseUuid(orderId).value in db.orders
  }

  /** The four subscribed topics. */
  function EventOn(topic: string, message: ErrorMessage): Option<Event> {
    if topic == "stock.reduction.fail" then Some(StockNotReduced(message))
    else if topic == "stock.reduction.success" then Some(StockReduced)
    else if topic == "payment.fail" then Some(PaymentNotMade(message))
    else if topic == "payment.success" then Some(PaymentSucceeded)
    else None
  }

  /** The tables after one message, and whether its offset is committed. */
  function MessageHandled(lib: Lib, db: Repo, topic: Option<string>, decoded: Option<(GoString, ErrorMessage)>,
                          getFails: bool, saveFails: bool): (Repo, bool)
  {
    if topic.None? then (db, false)
    else if EventOn(topic.value, Text("")).None? then (db, true)
    else if decoded.None? || !Names(lib, db, decoded.value.0) || getFails then (db, false)
    else
      var id, e := lib.parseUuid(decoded.value.0).value, EventOn(topic.value, decoded.value.1).value;
      if saveFails && Handle(db.orders[id].progress, e) != db.orders[id].progress then (db, false)
      else (Observed(db, id, e), true)
  }

  /** The table of topics: which message moves an order from which status to which, and with which error text.
      Every other combination commits and changes nothing, and so does every other topic. */
  lemma {:induction false} TopicTable(lib: Lib, db: Repo, topic: string, orderId: GoString, text: ErrorMessage)
    requires lib.parseUuid(orderId).Some? && lib.parseUuid(orderId).value in db.orders
    ensures var id := lib.parseUuid(orderId).value;
      var p, kept := db.orders[id].progress, if text == Text("") then db.orders[id].progress.errorMessage else Some(text);
      var moved :=
        if topic == "stock.reduction.success" && p.status == StatusCreated then Progress(StatusInventoryReserved, p.errorMessage)
        else if topic == "stock.reduction.fail" && p.status == StatusCreated then Progress(StatusInventoryReservedFailed, kept)
        else if topic == "payment.success" && p.status == StatusInventoryReserved then Progress(StatusPaymentCompleted, p.errorMessage)
        else if topic == "payment.fail" && p.status == StatusInventoryReserved then Progress(StatusPaymentFailed, kept)
        else p;
      MessageHandled(lib, db, Some(topic), Some((orderId, text)), false, false)
        == (db.(orders := db.orders[id := db.orders[id].(progress := moved)]), true)
  {
    var id := lib.parseUuid(orderId).value;
    assert db.orders[id := db.orders[id].(progress := db.orders[id].progress)] == db.orders;
  }

  /** A message that is not committed has changed nothing. Exactly these are not committed: no topic; on one of the
      four topics, a payload that is malformed or names no order; a failing read; a failing write that was needed. */
  lemma {:induction false} CommitRule(lib: Lib, db: Repo, topic: Option<string>, decoded: Option<(GoString, ErrorMessage)>,
                                      getFails: bool, saveFails: bool)
    ensures var (db', commits) := MessageHandled(lib, db, topic, decoded, getFails, saveFails);
      var subscribed := {"stock.reduction.fail", "stock.reduction.success", "payment.fail", "payment.success"};
      && (!commits ==> db' == db)
      && (commits <==>
            (topic.Some? && (topic.value in subscribed ==>
               && decoded.Some? && lib.parseUuid(decoded.value.0).Some? && lib.parseUuid(decoded.value.0).value in db.orders
               && !getFails
               && (saveFails ==> MessageHandled(lib, db, topic, decoded, false, false).0 == db))))
  {
    if topic.Some? && EventOn(topic.value, Text("")).Some? && decoded.Some? && Names(lib, db, decoded.value.0) {
      var id, e := lib.parseUuid(decoded.value.0).value, EventOn(topic.value, decoded.value.1).value;
      var p := db.orders[id].progress;
      assert Observed(db, id, e).orders[id].progress == Handle(p, e);
      if Handle(p, e) == p {
        assert db.orders[id := db.orders[id].(progress := p)] == db.orders;
      }
    }
  }

  // ---------------------------------------------------------------- what pricing means

  /** An admitted request becomes a command that mirrors it line by line, with a tenth of the subtotal as tax. */
  lemma {:induction false} PricingMirrorsRequest(lib: Lib, customer: Id, request: Request, variants: seq<VariantInfo>)
    requires LinesOk(lib, variants, request.items)
    ensures var c := CommandFor(lib, customer, request, variants);
      && MirrorsLines(lib, variants, request.items, c.items)
      && EventsMirrorLines(lib, request.items, c.eventItems)
      && SameLines(lib, c.eventItems, c.items)
      && c.customer == customer && c.shippingAddress == request.shippingAddress && c.billingAddress == request.billingAddress
      && c.subtotal == Subtotal(request.items)
      && c.tax * 10.0 == c.subtotal
      && c.total == c.subtotal + c.tax
  {
    var c := CommandFor(lib, customer, request, variants);
    forall k | 0 <= k < |c.items|
      ensures MirrorsLine(lib, variants, request.items[k], c.items[k])
      ensures SameLine(lib, c.eventItems[k], c.items[k])
    {
      AcceptedLine(lib, variants, request.items[k]);
    }
  }

  /** The subtotal is the sum of quantity times price over all lines. */
  lemma {:induction false} SubtotalSums(lines: seq<Line>, line: Line)
    ensures Subtotal([]) == 0.0
    ensures Subtotal(lines + [line]) == Subtotal(lines) + line.quantity as real * line.unitPrice
  {
    assert (lines + [line])[..|lines|] == lines;
  }

  lemma {:induction false} SubtotalNotNegative(lines: seq<Line>)
    requires forall k :: 0 <= k < |lines| ==> lines[k].quantity > 0 && lines[k].unitPrice >= 0.0
    ensures Subtotal(lines) >= 0.0
  {
    if lines != [] {
      SubtotalNotNegative(lines[..|lines| - 1]);
      PriceNotNegative(lines[|lines| - 1].quantity as real, lines[|lines| - 1].unitPrice);
    }
  }

  lemma PriceNotNegative(quantity: real, price: real)
    requires quantity >= 0.0 && price >= 0.0
    ensures quantity * price >= 0.0
  {
  }

  /** A line that the schema's checks let through, whatever the rest of the order. */
  ghost predicate Storable(variants: seq<VariantInfo>, line: Line) {
    && line.quantity > 0 && line.unitPrice >= 0.0
    && forall i :: LastEntry(variants, line.variantId, i) ==> variants[i].productName != []
  }

  lemma {:induction false} ItemStorableIff(lib: Lib, variants: seq<VariantInfo>, line: Line)
    requires LineError(lib, variants, line) == None
    ensures ValidItem(ItemFor(lib, variants, line)) <==> Storable(variants, line)
  {
    LookupFindsLast(variants, line.variantId);
    if line.quantity > 0 && line.unitPrice >= 0.0 {
      PriceNotNegative(line.quantity as real, line.unitPrice);
    }
  }

  /** An admitted request is stored exactly if its id is new, every line asks for a positive quantity at a price that is
      not negative, of a product with a name, and no fault precedes the end of the transaction. */
  lemma {:induction false} StoredIff(lib: Lib, db: Repo, request: Request, catalog: Option<seq<VariantInfo>>, id: Id, fault: Fault)
    requires Admitted(lib, request, catalog)
    ensures var command := CommandFor(lib, lib.parseUuid(request.customerId).value, request, catalog.value);
      Commits(db, id, command, fault) <==>
        && (fault == NoFault || fault == AtReload) && id !in db.orders
        && forall k :: 0 <= k < |request.items| ==> Storable(catalog.value, request.items[k])
  {
    var lines, variants := request.items, catalog.value;
    var command := CommandFor(lib, lib.parseUuid(request.customerId).value, request, variants);
    forall k | 0 <= k < |lines|
      ensures ValidItem(command.items[k]) <==> Storable(variants, lines[k])
    {
      ItemStorableIff(lib, variants, lines[k]);
    }
    if forall k :: 0 <= k < |lines| ==> Storable(variants, lines[k]) {
      assert forall k :: 0 <= k < |lines| ==> lines[k].quantity > 0 && lines[k].unitPrice >= 0.0 by {
        assert forall k :: 0 <= k < |lines| ==> Storable(variants, lines[k]);
      }
      SubtotalNotNegative(lines);
    }
  }

  lemma {:induction false} SubtotalRemove(lines: seq<Line>, i: nat)
    requires i < |lines|
    ensures Subtotal(lines) == Subtotal(lines[..i] + lines[i + 1..]) + LineTotal(lines[i])
  {
    var n := |lines| - 1;
    if i == n {
      assert lines[..i] + lines[i + 1..] == lines[..n];
    } else {
      var rest := lines[..i] + lines[i + 1..];
      assert rest[..|rest| - 1] == lines[..n][..i] + lines[..n][i + 1..];
      SubtotalRemove(lines[..n], i);
    }
  }

  lemma MultisetRemove(lines: seq<Line>, i: nat)
    requires i < |lines|
    ensures multiset(lines[..i] + lines[i + 1..]) == multiset(lines) - multiset{lines[i]}
  {
    assert lines == lines[..i] + ([lines[i]] + lines[i + 1..]);
    assert multiset(lines) == multiset(lines[..i] + lines[i + 1..]) + multiset{lines[i]};
  }

  lemma {:induction false} MatchingLine(lines1: seq<Line>, lines2: seq<Line>) returns (i: nat)
    requires multiset(lines1) == multiset(lines2) && lines1 != []
    ensures i < |lines2| && lines2[i] == lines1[0]
    ensures multiset(lines2[..i] + lines2[i + 1..]) == multiset(lines1[..0] + lines1[1..])
  {
    assert lines1[0] in multiset(lines2);
    i :| 0 <= i < |lines2| && lines2[i] == lines1[0];
    MultisetRemove(lines1, 0);
    MultisetRemove(lines2, i);
  }

  /** The subtotal counts every line, repeated variants included, and does not depend on their order. */
  lemma {:induction false} SubtotalIgnoresOrder(lines1: seq<Line>, lines2: seq<Line>)
    requires multiset(lines1) == multiset(lines2)
    ensures Subtotal(lines1) == Subtotal(lines2)
    decreases |lines1|
  {
    if lines1 == [] {
      assert |multiset(lines2)| == 0;
    } else {
      var i := MatchingLine(lines1, lines2);
      SubtotalRemove(lines1, 0);
      SubtotalRemove(lines2, i);
      SubtotalIgnoresOrder(lines1[..0] + lines1[1..], lines2[..i] + lines2[i + 1..]);
    }
  }

  // ---------------------------------------------------------------- runs of whole requests

  datatype Step =
    | Place(request: Request, catalog: Option<seq<VariantInfo>>, id: Id, fault: Fault, now: int)
    | Event(id: Id, event: OrderStatus.Event)
    | Processed(i: nat)

  function Apply(lib: Lib, db: Repo, s: Step): Repo {
    match s
    case Place(request, catalog, id, fault, now) => Placed(lib, db, request, catalog, id, fault, now)
    case Event(id, event) => Observed(db, id, event)
    case Processed(i) => Marked(db, i)
  }

  function Run(lib: Lib, db: Repo, steps: seq<Step>): Repo
    decreases |steps|
  {
    if steps == [] then db else Run(lib, Apply(lib, db, steps[0]), steps[1..])
  }

  /** The outbox bijection for arbitrary requests: pricing makes each event agree with its order's item rows. */
  lemma {:induction false} RequestsKeepMatch(lib: Lib, db: Repo, steps: seq<Step>)
    requires Matched(lib, db)
    ensures Matched(lib, Run(lib, db, steps))
    decreases |steps|
  {
    if steps != [] {
      var s := steps[0];
      match s {
        case Place(request, catalog, id, fault, now) =>
          if Admitted(lib, request, catalog) {
            var customer := lib.parseUuid(request.customerId).value;
            PricingMirrorsRequest(lib, customer, request, catalog.value);
            CreateKeepsMatch(lib, db, id, CommandFor(lib, customer, request, catalog.value), fault, now);
          }
        case Event(id, event) =>
          StepKeepsMatch(lib, db, Observe(id, event));
        case Processed(i) =>
          StepKeepsMatch(lib, db, Mark(i));
      }
      RequestsKeepMatch(lib, Apply(lib, db, s), steps[1..]);
    }
  }

  // ---------------------------------------------------------------- orders tell their requests

  /** The order is the request, column by column and line by line. */
  ghost predicate TellsRequest(lib: Lib, db: Repo, id: Id, request: Request, variants: seq<VariantInfo>) {
    && id in db.orders
    && var row := db.orders[id];
    && lib.parseUuid(request.customerId) == Some(row.customer)
    && row.shippingAddress == request.shippingAddress && row.billingAddress == request.billingAddress
    && row.subtotal == Subtotal(request.items) && row.tax * 10.0 == row.subtotal
    && row.shippingCost == 0.0 && row.total == row.subtotal + row.tax
    && MirrorsLines(lib, variants, request.items, ItemsOf(db.items, id))
  }

  /** The order is as before but for its progress. */
  ghost predicate SameOrder(db: Repo, db': Repo, id: Id)
    requires id in db.orders
  {
    && id in db'.orders
    && db'.orders[id] == db.orders[id].(progress := db'.orders[id].progress)
    && ItemsOf(db'.items, id) == ItemsOf(db.items, id)
  }

  lemma {:induction false} StepKeepsOrder(lib: Lib, db: Repo, s: Step, id: Id)
    requires id in db.orders
    ensures SameOrder(db, Apply(lib, db, s), id)
  {
    if s.Place? && Admitted(lib, s.request, s.catalog) {
      var c := CommandFor(lib, lib.parseUuid(s.request.customerId).value, s.request, s.catalog.value);
      ItemsOfAppend(db.items, s.id, c.items, id);
      assert ItemsOf(db.items, id) + [] == ItemsOf(db.items, id);
    }
  }

  lemma {:induction false} RunKeepsOrder(lib: Lib, db: Repo, steps: seq<Step>, id: Id)
    requires id in db.orders
    ensures SameOrder(db, Run(lib, db, steps), id)
    decreases |steps|
  {
    if steps != [] {
      StepKeepsOrder(lib, db, steps[0], id);
      RunKeepsOrder(lib, Apply(lib, db, steps[0]), steps[1..], id);
    }
  }

  ghost predicate PlacedBy(lib: Lib, db: Repo, s: Step, id: Id) {
    s.Place? && s.id == id && s.catalog.Some? && TellsRequest(lib, db, id, s.request, s.catalog.value)
  }

  lemma {:induction false} PlacedTellsRequest(lib: Lib, db: Repo, request: Request, catalog: Option<seq<VariantInfo>>, id: Id, fault: Fault, now: int)
    requires OneToOne(db) && Admitted(lib, request, catalog)
    requires Commits(db, id, CommandFor(lib, lib.parseUuid(request.customerId).value, request, catalog.value), fault)
    ensures TellsRequest(lib, Placed(lib, db, request, catalog, id, fault, now), id, request, catalog.value)
  {
    hide OneToOne, Commits, Created, CommandFor, MirrorsLines, EventsMirrorLines, SameLines, ItemsOf;
    var customer := lib.parseUuid(request.customerId).value;
    var c := CommandFor(lib, customer, request, catalog.value);
    PricingMirrorsRequest(lib, customer, request, catalog.value);
    CreatedPlaces(lib, db, id, c, fault, now);
    CreatedItems(lib, db, id, c, fault, now);
  }

  lemma {:induction false} NewOrderTellsRequest(lib: Lib, db: Repo, s: Step, id: Id)
    requires OneToOne(db) && id !in db.orders && id in Apply(lib, db, s).orders
    ensures PlacedBy(lib, Apply(lib, db, s), s, id)
  {
    hide OneToOne, TellsRequest, CommandFor;
    assert s.Place? && s.id == id && Admitted(lib, s.request, s.catalog);
    PlacedTellsRequest(lib, db, s.request, s.catalog, id, s.fault, s.now);
  }

  /** Over any run of requests, events and failures: every order is either an old one, unchanged but for its progress,
      or says exactly what the request that placed it asked for, with the items in the request's order. */
  lemma {:induction false} OrdersTellRequests(lib: Lib, db: Repo, steps: seq<Step>, id: Id)
    requires Matched(lib, db) && id in Run(lib, db, steps).orders
    ensures if id in db.orders then SameOrder(db, Run(lib, db, steps), id)
      else exists k :: 0 <= k < |steps| && PlacedBy(lib, Run(lib, db, steps), steps[k], id)
    decreases |steps|
  {
    if id in db.orders {
      RunKeepsOrder(lib, db, steps, id);
    } else {
      var db' := Apply(lib, db, steps[0]);
      if id in db'.orders {
        NewOrderTellsRequest(lib, db, steps[0], id);
        RunKeepsOrder(lib, db', steps[1..], id);
        assert PlacedBy(lib, Run(lib, db, steps), steps[0], id);
      } else {
        RequestsKeepMatch(lib, db, steps[..1]);
        assert Run(lib, db, steps[..1]) == db' by { OneStep(lib, db, steps[0]); assert steps[..1] == [steps[0]]; }
        OrdersTellRequests(lib, db', steps[1..], id);
        var k :| 0 <= k < |steps| - 1 && PlacedBy(lib, Run(lib, db', steps[1..]), steps[1..][k], id);
        assert steps[k + 1] == steps[1..][k];
      }
    }
  }

  lemma OneStep(lib: Lib, db: Repo, s: Step)
    ensures Run(lib, db, [s]) == Apply(lib, db, s)
  {
    assert Run(lib, Apply(lib, db, s), [s][1..]) == Apply(lib, db, s);
  }
}
