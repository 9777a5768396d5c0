/** How stock and payment events move an order's status (golang-order-kratos/internal/biz/order.go
    and the guarded update in golang-order-kratos/internal/data/order_repo.go). */
module OrderStatus {
  import opened Common
  import opened Messages

  datatype Status =
    | StatusCreated
    | StatusPendingInventory
    | StatusInventoryReserved
    | StatusInventoryReservedFailed
    | StatusPaymentPending
    | StatusPaymentCompleted
    | StatusPaymentFailed
    | StatusShipping
    | StatusCompleted

  datatype Progress = Progress(status: Status, errorMessage: Option<ErrorMessage>)

  const INITIAL := Progress(StatusCreated, None)

  /** A message on one of the four topics of the order service's consumer, for one order. */
  datatype Event =
    | StockReduced
    | StockNotReduced(message: ErrorMessage)
    | PaymentSucceeded
    | PaymentNotMade(reason: ErrorMessage)
  {
    predicate IsStock() {
      StockReduced? || StockNotReduced?
    }
  }

  function UpdateStatus(p: Progress, status: Status, message: Option<ErrorMessage>, expected: Status): Progress {
    if p.status == status then p
    else if p.status != expected then p
    else Progress(status, if message.Some? then message else p.errorMessage)
  }

  function NonEmpty(message: ErrorMessage): Option<ErrorMessage> {
    if message == Text("") then None else Some(message)
  }

  function HandleStockEvent(p: Progress, success: bool, message: ErrorMessage): Progress {
    UpdateStatus(p, if success then StatusInventoryReserved else StatusInventoryReservedFailed,
                 NonEmpty(message), StatusCreated)
  }

  function HandlePaymentEvent(p: Progress, success: bool, message: ErrorMessage): Progress {
    UpdateStatus(p, if success then StatusPaymentCompleted else StatusPaymentFailed,
                 NonEmpty(message), StatusInventoryReserved)
  }

  function Handle(p: Progress, e: Event): Progress {
    match e
    case StockReduced => HandleStockEvent(p, true, Text(""))
    case StockNotReduced(message) => HandleStockEvent(p, false, message)
    case PaymentSucceeded => HandlePaymentEvent(p, true, Text(""))
    case PaymentNotMade(reason) => HandlePaymentEvent(p, false, reason)
  }

  function HandleAll(p: Progress, events: seq<Event>): Progress {
    if events == [] then p else Handle(HandleAll(p, events[..|events| - 1]), events[|events| - 1])
  }

  // ---------------------------------------------------------------- the declarative rule

  /** Position i holds the first stock (or payment) event at or after `from`. */
  predicate IsFirst(events: seq<Event>, stock: bool, from: nat, i: nat) {
    && from <= i < |events|
    && events[i].IsStock() == stock
    && forall j :: from <= j < i ==> events[j].IsStock() != stock
  }

  function Position(events: seq<Event>, stock: bool, from: nat): (r: Option<nat>)
    ensures r.Some? ==> IsFirst(events, stock, from, r.value)
    ensures r.None? ==> forall j :: from <= j < |events| ==> events[j].IsStock() != stock
    decreases |events| - from
  {
    if from >= |events| then None
    else if events[from].IsStock() == stock then Some(from)
    else Position(events, stock, from + 1)
  }

  /** The first stock event decides; after a stock success the next payment event decides; nothing else counts.
      A refusal keeps its text, if it has one. */
  function Rule(events: seq<Event>): Progress {
    match Position(events, true, 0)
    case None => INITIAL
    case Some(i) =>
      if events[i].StockNotReduced? then
        Progress(StatusInventoryReservedFailed, if events[i].message == Text("") then None else Some(events[i].message))
      else match Position(events, false, i + 1)
        case None => Progress(StatusInventoryReserved, None)
        case Some(j) =>
          if events[j].PaymentSucceeded? then Progress(StatusPaymentCompleted, None)
          else if events[j].PaymentNotMade? then
            Progress(StatusPaymentFailed, if events[j].reason == Text("") then None else Some(events[j].reason))
          else Progress(StatusInventoryReserved, None)
  }

  lemma {:induction false} PositionAppend(events: seq<Event>, e: Event, stock: bool, from: nat)
    requires from <= |events|
    ensures Position(events, stock, from).Some? ==> Position(events + [e], stock, from) == Position(events, stock, from)
    ensures Position(events, stock, from).None? ==>
      Position(events + [e], stock, from) == if e.IsStock() == stock then Some(|events|) else None
    decreases |events| - from
  {
    if from < |events| && events[from].IsStock() != stock {
      PositionAppend(events, e, stock, from + 1);
    }
  }

  /** Handling any sequence of deliveries, however duplicated or reordered, gives what the rule says. */
  lemma {:induction false} ClosedForm(events: seq<Event>)
    ensures HandleAll(INITIAL, events) == Rule(events)
  {
    if events != [] {
      var n := |events| - 1;
      var before, e := events[..n], events[n];
      ClosedForm(before);
      assert before + [e] == events;
      PositionAppend(before, e, true, 0);
      var first := Position(before, true, 0);
      if first.Some? {
        PositionAppend(before, e, false, first.value + 1);
      }
    }
  }

  function Rank(s: Status): nat {
    match s
    case StatusCreated => 0
    case StatusInventoryReserved => 1
    case _ => 2
  }

  /** Only the two failed states carry an error message, and no other status is ever reached. */
  predicate Reachable(p: Progress) {
    match p.status
    case StatusCreated | StatusInventoryReserved | StatusPaymentCompleted => p.errorMessage == None
    case StatusInventoryReservedFailed | StatusPaymentFailed => p.errorMessage != Some(Text(""))
    case _ => false
  }

  /** Status only moves forward, and once it is final nothing changes any more. */
  lemma {:induction false} ForwardOnly(p: Progress, events: seq<Event>)
    requires Reachable(p)
    ensures Reachable(HandleAll(p, events))
    ensures Rank(HandleAll(p, events).status) >= Rank(p.status)
    ensures Rank(HandleAll(p, events).status) == Rank(p.status) ==> HandleAll(p, events) == p
    ensures Rank(p.status) == 2 ==> HandleAll(p, events) == p
  {
    if events != [] {
      ForwardOnly(p, events[..|events| - 1]);
    }
  }
}
