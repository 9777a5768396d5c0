/** The order saga as one step system: order service, wallet service, their two outboxes, any number of
    concurrent stock handlers, and a message log from which every message may be delivered at any time and
    any number of times. The product service is an environment that may emit any stock event about any order. */
module Saga {
  import opened Common
  import opened Messages
  import opened OrderStatus
  import opened OrderRepo
  import OrderUsecase
  import OrderOutbox
  import PaymentOutbox
  import Wallet

  /** Where a handler of one delivered stock success stands, between its transactions. */
  datatype Phase = Loaded | Declined(reason: ErrorMessage) | Settled

  datatype Handler = Handler(order: Id, invoice: Wallet.Invoice, phase: Phase)

  datatype System = System(repo: Repo, wallet: Wallet.Db, log: set<Message>, handlers: map<nat, Handler>)

  datatype Step =
    | Place(request: OrderUsecase.Request, catalog: Option<seq<OrderUsecase.VariantInfo>>, id: Id, fault: Fault, now: int)
    | FlushOrders(list: seq<nat>, results: seq<OrderOutbox.Outcome>)
    | EmitStock(id: Id, reserved: bool, text: string)
    | Register(user: Id)
    | Credit(user: Id, amount: real)
    | ChangePassword(user: Id, matches: bool)
    | Receive(h: nat, id: Id)
    | Deduct(h: nat, now: int, dbFails: bool)
    | RecordFailure(h: nat, now: int, dbFails: bool)
    | CommitOffset(h: nat)
    | Crash(h: nat)
    | DispatchPayments(batch: seq<nat>, outcomes: seq<PaymentOutbox.PublishOutcome>, saveTime: int, saved: bool)
    | Observe(message: Message)

  function InvoiceFor(row: OrderRow): Wallet.Invoice {
    Wallet.Invoice(row.customer, row.total)
  }

  function Invoices(db: Repo): map<Id, Wallet.Invoice> {
    map id | id in db.orders :: InvoiceFor(db.orders[id])
  }

  /** The order service's reading of a message; it does not subscribe to order.created. */
  function Reading(m: Message): Option<(Id, Event)> {
    match m
    case OrderCreated(_, _) => None
    case StockSuccess(id) => Some((id, StockReduced))
    case StockFail(id, text) => Some((id, StockNotReduced(Text(text))))
    case Payment(PaymentSuccess(id)) => Some((id, PaymentSucceeded))
    case Payment(PaymentFailed(id, reason)) => Some((id, PaymentNotMade(reason)))
  }

  function FlushOrdersStep(s: System, list: seq<nat>, results: seq<OrderOutbox.Outcome>): System {
    if |results| <= |list| && forall k :: 0 <= k < |list| ==> list[k] < |s.repo.outbox| then
      var reached := OrderOutbox.Reached(list, results);
      s.(repo := s.repo.(outbox := OrderOutbox.Flushed(s.repo.outbox, list, results)),
         log := s.log + set i | i in reached && 0 <= i < |s.repo.outbox| ::
           OrderCreated(s.repo.outbox[i].aggregateId, s.repo.outbox[i].payload))
    else s
  }

  /** The handler fetched the order's customer and total from the order service. */
  function ReceiveStep(s: System, h: nat, id: Id): System {
    if h !in s.handlers && StockSuccess(id) in s.log && id in s.repo.orders
    then s.(handlers := s.handlers[h := Handler(id, InvoiceFor(s.repo.orders[id]), Loaded)])
    else s
  }

  function DeductStep(s: System, h: nat, now: int, dbFails: bool): System {
    if h in s.handlers && s.handlers[h].phase == Loaded then
      var handler := s.handlers[h];
      var (db, r) := Wallet.Deduct(s.wallet, handler.invoice.customer, handler.invoice.total, handler.order, now, dbFails);
      match r
      case Ok(_) => s.(wallet := db, handlers := s.handlers[h := handler.(phase := Settled)])
      case Err(Insufficient(reason)) => s.(wallet := db, handlers := s.handlers[h := handler.(phase := Declined(reason))])
      case Err(DbFailure) => s.(wallet := db, handlers := s.handlers - {h})
    else s
  }

  function RecordFailureStep(s: System, h: nat, now: int, dbFails: bool): System {
    if h in s.handlers && s.handlers[h].phase.Declined? then
      var handler := s.handlers[h];
      var (db, r) := Wallet.RecordFailure(s.wallet, handler.order, handler.phase.reason, now, dbFails);
      if r.Ok? then s.(wallet := db, handlers := s.handlers[h := handler.(phase := Settled)])
      else s.(wallet := db, handlers := s.handlers - {h})
    else s
  }

  function DispatchStep(s: System, batch: seq<nat>, outcomes: seq<PaymentOutbox.PublishOutcome>, saveTime: int, saved: bool): System {
    var rows := s.wallet.outbox;
    if |outcomes| <= |batch| && (saved ==> |outcomes| == |batch|) && forall k :: 0 <= k < |batch| ==> batch[k] < |rows| then
      var reached := PaymentOutbox.Reached(rows, batch[..|outcomes|], outcomes);
      s.(wallet := s.wallet.(outbox := if saved then PaymentOutbox.Dispatched(rows, batch, outcomes, saveTime) else rows),
         log := s.log + set e | e in reached :: Payment(e))
    else s
  }

  function ObserveStep(s: System, m: Message): System {
    if m in s.log && Reading(m).Some?
    then s.(repo := Observed(s.repo, Reading(m).value.0, Reading(m).value.1))
    else s
  }

  /** A step that is not enabled leaves the system as it is. */
  function Apply(lib: Lib, s: System, step: Step): System {
    match step
    case Place(request, catalog, id, fault, now) =>
      s.(repo := OrderUsecase.Placed(lib, s.repo, request, catalog, id, fault, now))
    case FlushOrders(list, results) => FlushOrdersStep(s, list, results)
    case EmitStock(id, reserved, text) => s.(log := s.log + {if reserved then StockSuccess(id) else StockFail(id, text)})
    case Register(user) =>
      if user in s.wallet.users then s else s.(wallet := s.wallet.(users := s.wallet.users[user := 0.0]))
    case Credit(user, amount) =>
      if user in s.wallet.users && amount >= 0.0
      then s.(wallet := s.wallet.(users := s.wallet.users[user := s.wallet.users[user] + amount])) else s
    case ChangePassword(user, matches) =>
      if user in s.wallet.users && matches then s.(wallet := Wallet.PasswordChanged(s.wallet, user)) else s
    case Receive(h, id) => ReceiveStep(s, h, id)
    case Deduct(h, now, dbFails) => DeductStep(s, h, now, dbFails)
    case RecordFailure(h, now, dbFails) => RecordFailureStep(s, h, now, dbFails)
    case CommitOffset(h) =>
      if h in s.handlers && s.handlers[h].phase == Settled then s.(handlers := s.handlers - {h}) else s
    case Crash(h) => s.(handlers := s.handlers - {h})
    case DispatchPayments(batch, outcomes, saveTime, saved) => DispatchStep(s, batch, outcomes, saveTime, saved)
    case Observe(m) => ObserveStep(s, m)
  }

  function Run(lib: Lib, s: System, steps: seq<Step>): System
    decreases |steps|
  {
    if steps == [] then s else Run(lib, Apply(lib, s, steps[0]), steps[1..])
  }

  // ---------------------------------------------------------------- invariant

  function Events(s: System): seq<PaymentEvent> {
    Wallet.Events(s.wallet.outbox)
  }

  /** At most one outcome row per order, and only for orders whose stock was reported reserved. */
  ghost predicate OutcomesOk(s: System) {
    && (forall i, j :: 0 <= i < j < |Events(s)| ==> Events(s)[i].orderId != Events(s)[j].orderId)
    && (forall i :: 0 <= i < |Events(s)| ==>
          Events(s)[i].orderId in s.repo.orders && StockSuccess(Events(s)[i].orderId) in s.log)
  }

  ghost predicate HandlerOk(s: System, handler: Handler) {
    && handler.order in s.repo.orders
    && handler.invoice == InvoiceFor(s.repo.orders[handler.order])
    && StockSuccess(handler.order) in s.log
    && (handler.phase == Settled ==> Wallet.Handled(s.wallet.outbox, handler.order))
  }

  ghost predicate HandlersOk(s: System) {
    forall h :: h in s.handlers ==> HandlerOk(s, s.handlers[h])
  }

  /** Every message of the two services comes from a committed outbox row. */
  ghost predicate LogOk(s: System) {
    && (forall e :: Payment(e) in s.log ==> e in Events(s))
    && (forall id, payload :: OrderCreated(id, payload) in s.log ==>
          exists i :: 0 <= i < |s.repo.outbox| && s.repo.outbox[i].aggregateId == id && s.repo.outbox[i].payload == payload)
  }

  /** The messages that account for an order's status. */
  ghost predicate Justified(log: set<Message>, id: Id, p: Progress) {
    match p.status
    case StatusCreated => true
    case StatusInventoryReserved => StockSuccess(id) in log
    case StatusInventoryReservedFailed => exists text :: StockFail(id, text) in log
    case StatusPaymentCompleted => StockSuccess(id) in log && Payment(PaymentSuccess(id)) in log
    case StatusPaymentFailed => StockSuccess(id) in log && exists reason :: Payment(PaymentFailed(id, reason)) in log
    case _ => false
  }

  ghost predicate StatusOk(s: System) {
    forall id :: id in s.repo.orders ==> Justified(s.log, id, s.repo.orders[id].progress)
  }

  ghost predicate UsersOk(s: System) {
    forall u :: u in s.wallet.users ==> s.wallet.users[u] >= 0.0
  }

  ghost predicate Inv(s: System) {
    OutcomesOk(s) && HandlersOk(s) && LogOk(s) && StatusOk(s) && UsersOk(s)
  }

  ghost predicate Initial(s: System) {
    s.repo == EMPTY && s.wallet.outbox == [] && s.log == {} && s.handlers == map[] && UsersOk(s)
  }

  /** No message, order or outcome ever disappears, and of an order only the progress ever changes. */
  ghost predicate Grows(s: System, t: System) {
    && s.log <= t.log
    && Events(s) <= Events(t)
    && (forall id :: id in s.repo.orders ==>
          id in t.repo.orders && t.repo.orders[id] == s.repo.orders[id].(progress := t.repo.orders[id].progress))
  }

  lemma {:induction false} DispatchedKeepsEvents(rows: seq<PaymentOutbox.Row>, batch: seq<nat>, outcomes: seq<PaymentOutbox.PublishOutcome>, saveTime: int)
    requires |outcomes| == |batch|
    requires forall k :: 0 <= k < |batch| ==> batch[k] < |rows|
    ensures Wallet.Events(PaymentOutbox.Dispatched(rows, batch, outcomes, saveTime)) == Wallet.Events(rows)
  {
    if batch != [] {
      DispatchedKeepsEvents(rows, batch[..|batch| - 1], outcomes[..|batch| - 1], saveTime);
    }
  }

  lemma {:induction false} ApplyGrows(lib: Lib, s: System, step: Step)
    ensures Grows(s, Apply(lib, s, step))
  {
    hide OrderUsecase.CommandFor, OrderUsecase.Admitted, NewOrder, NewEvent, OrderOutbox.Flushed, OrderOutbox.Reached;
    if step.DispatchPayments? && Apply(lib, s, step) != s && step.saved {
      DispatchedKeepsEvents(s.wallet.outbox, step.batch, step.outcomes, step.saveTime);
    }
  }

  lemma HandledStays(s: System, t: System, order: Id)
    requires Grows(s, t) && Wallet.Handled(s.wallet.outbox, order)
    ensures Wallet.Handled(t.wallet.outbox, order)
  {
    var i :| 0 <= i < |s.wallet.outbox| && s.wallet.outbox[i].event.orderId == order;
    assert Events(s)[i] == Events(t)[i];
  }

  /** A new outcome row is for an order without one, and comes from a handler of that order. */
  lemma {:induction false} NewOutcome(lib: Lib, s: System, step: Step)
    requires Events(Apply(lib, s, step)) != Events(s)
    ensures step.Deduct? || step.RecordFailure?
    ensures step.h in s.handlers
    ensures var e := if step.Deduct? then PaymentSuccess(s.handlers[step.h].order)
                     else PaymentFailed(s.handlers[step.h].order, s.handlers[step.h].phase.reason);
      Events(Apply(lib, s, step)) == Events(s) + [e] && !Wallet.Handled(s.wallet.outbox, e.orderId)
  {
    if step.DispatchPayments? && Apply(lib, s, step) != s && step.saved {
      DispatchedKeepsEvents(s.wallet.outbox, step.batch, step.outcomes, step.saveTime);
    }
  }

  lemma {:induction false} KeepsOutcomes(lib: Lib, s: System, step: Step)
    requires OutcomesOk(s) && HandlersOk(s)
    ensures OutcomesOk(Apply(lib, s, step))
  {
    var t := Apply(lib, s, step);
    ApplyGrows(lib, s, step);
    if Events(t) != Events(s) {
      NewOutcome(lib, s, step);
      var n := |Events(s)|;
      assert HandlerOk(s, s.handlers[step.h]);
      forall i | 0 <= i < n ensures Events(t)[i].orderId != Events(t)[n].orderId {
        assert s.wallet.outbox[i].event == Events(s)[i];
      }
    }
  }

  lemma HandlerStays(s: System, t: System, handler: Handler)
    requires Grows(s, t) && HandlerOk(s, handler)
    ensures HandlerOk(t, handler)
  {
    if handler.phase == Settled {
      HandledStays(s, t, handler.order);
    }
  }

  /** A new handler starts from what the order service answers; an old one keeps its order and invoice. */
  lemma {:induction false} HandlerOrigin(lib: Lib, s: System, step: Step, h: nat)
    requires h in Apply(lib, s, step).handlers
    ensures var handler := Apply(lib, s, step).handlers[h];
      if h in s.handlers then handler.order == s.handlers[h].order && handler.invoice == s.handlers[h].invoice
      else (handler.phase == Loaded && handler.order in s.repo.orders
            && handler.invoice == InvoiceFor(s.repo.orders[handler.order]) && StockSuccess(handler.order) in s.log)
  {
  }

  lemma {:induction false} KeepsHandlers(lib: Lib, s: System, step: Step)
    requires HandlersOk(s)
    ensures HandlersOk(Apply(lib, s, step))
  {
    var t := Apply(lib, s, step);
    ApplyGrows(lib, s, step);
    forall h | h in t.handlers
      ensures HandlerOk(t, t.handlers[h])
    {
      HandlerOrigin(lib, s, step, h);
      if h in s.handlers {
        HandlerStays(s, t, s.handlers[h]);
        if t.handlers[h] != s.handlers[h] && t.handlers[h].phase == Settled {
          SettledIsHandled(lib, s, step, h);
        }
      }
    }
  }

  /** A handler settles only by a transaction that finds or writes the outcome row of its order. */
  lemma {:induction false} SettledIsHandled(lib: Lib, s: System, step: Step, h: nat)
    requires h in s.handlers && h in Apply(lib, s, step).handlers
    requires Apply(lib, s, step).handlers[h] != s.handlers[h]
    requires Apply(lib, s, step).handlers[h].phase == Settled
    ensures Wallet.Handled(Apply(lib, s, step).wallet.outbox, s.handlers[h].order)
  {
    var t := Apply(lib, s, step);
    if t.wallet.outbox != s.wallet.outbox {
      assert t.wallet.outbox[|s.wallet.outbox|].event.orderId == s.handlers[h].order;
    }
  }

  lemma {:induction false} KeepsLog(lib: Lib, s: System, step: Step)
    requires LogOk(s)
    ensures LogOk(Apply(lib, s, step))
  {
    var t := Apply(lib, s, step);
    ApplyGrows(lib, s, step);
    forall e | Payment(e) in t.log
      ensures e in Events(t)
    {
      if Payment(e) !in s.log {
        PaymentComesFromRow(lib, s, step, e);
      }
    }
    forall id, payload | OrderCreated(id, payload) in t.log
      ensures exists i :: 0 <= i < |t.repo.outbox| && t.repo.outbox[i].aggregateId == id && t.repo.outbox[i].payload == payload
    {
      var i := OrderCreatedComesFromRow(lib, s, step, id, payload);
    }
  }

  lemma {:induction false} PaymentComesFromRow(lib: Lib, s: System, step: Step, e: PaymentEvent)
    requires Payment(e) in Apply(lib, s, step).log && Payment(e) !in s.log
    ensures e in Events(s)
  {
    var rows, sent := s.wallet.outbox, step.batch[..|step.outcomes|];
    PaymentOutbox.ReachedEvents(rows, sent, step.outcomes, e);
    var k :| 0 <= k < |sent| && rows[sent[k]].event == e;
    assert Events(s)[sent[k]] == e;
  }

  /** Outbox rows of the order service keep their place and payload. */
  lemma {:induction false} OrderRowsStay(lib: Lib, s: System, step: Step, i: nat)
    requires i < |s.repo.outbox|
    ensures i < |Apply(lib, s, step).repo.outbox|
    ensures Apply(lib, s, step).repo.outbox[i].aggregateId == s.repo.outbox[i].aggregateId
    ensures Apply(lib, s, step).repo.outbox[i].payload == s.repo.outbox[i].payload
  {
    if step.FlushOrders? && Apply(lib, s, step) != s {
      OrderOutbox.FlushedRows(s.repo.outbox, step.list, step.results);
    }
  }

  lemma {:induction false} OrderCreatedComesFromRow(lib: Lib, s: System, step: Step, id: Id, payload: seq<byte>) returns (i: nat)
    requires LogOk(s) && OrderCreated(id, payload) in Apply(lib, s, step).log
    ensures i < |Apply(lib, s, step).repo.outbox|
    ensures Apply(lib, s, step).repo.outbox[i].aggregateId == id && Apply(lib, s, step).repo.outbox[i].payload == payload
  {
    if OrderCreated(id, payload) in s.log {
      i :| 0 <= i < |s.repo.outbox| && s.repo.outbox[i].aggregateId == id && s.repo.outbox[i].payload == payload;
    } else {
      i :| i in OrderOutbox.Reached(step.list, step.results) && 0 <= i < |s.repo.outbox|
           && OrderCreated(s.repo.outbox[i].aggregateId, s.repo.outbox[i].payload) == OrderCreated(id, payload);
    }
    OrderRowsStay(lib, s, step, i);
  }

  lemma JustifiedStays(log: set<Message>, log': set<Message>, id: Id, p: Progress)
    requires log <= log' && Justified(log, id, p)
    ensures Justified(log', id, p)
  {
  }

  lemma {:induction false} ReadingJustifies(log: set<Message>, m: Message, p: Progress)
    requires m in log && Reading(m).Some? && Justified(log, Reading(m).value.0, p)
    ensures Justified(log, Reading(m).value.0, Handle(p, Reading(m).value.1))
  {
  }

  /** Status moves only by observing a logged message about the order; new orders start as created. */
  lemma {:induction false} ProgressOrigin(lib: Lib, s: System, step: Step, id: Id)
    requires id in Apply(lib, s, step).repo.orders
    ensures var p := Apply(lib, s, step).repo.orders[id].progress;
      if id !in s.repo.orders then p == INITIAL
      else (p == s.repo.orders[id].progress ||
            (step.Observe? && step.message in s.log && Reading(step.message).Some? && Reading(step.message).value.0 == id
             && p == Handle(s.repo.orders[id].progress, Reading(step.message).value.1)))
  {
  }

  lemma {:induction false} KeepsStatus(lib: Lib, s: System, step: Step)
    requires StatusOk(s)
    ensures StatusOk(Apply(lib, s, step))
  {
    var t := Apply(lib, s, step);
    assert s.log <= t.log by {
      ApplyGrows(lib, s, step);
    }
    forall id | id in t.repo.orders
      ensures Justified(t.log, id, t.repo.orders[id].progress)
    {
      ProgressOrigin(lib, s, step, id);
      if id in s.repo.orders {
        var p, p' := s.repo.orders[id].progress, t.repo.orders[id].progress;
        if p' != p {
          ReadingJustifies(s.log, step.message, p);
        }
        JustifiedStays(s.log, t.log, id, p');
      }
    }
  }

  lemma {:induction false} KeepsUsers(lib: Lib, s: System, step: Step)
    requires UsersOk(s)
    ensures UsersOk(Apply(lib, s, step))
  {
  }

  lemma {:induction false} ApplyKeepsInv(lib: Lib, s: System, step: Step)
    requires Inv(s)
    ensures Inv(Apply(lib, s, step))
  {
    KeepsOutcomes(lib, s, step);
    KeepsHandlers(lib, s, step);
    KeepsLog(lib, s, step);
    KeepsStatus(lib, s, step);
    KeepsUsers(lib, s, step);
  }

  lemma {:induction false} RunKeepsInv(lib: Lib, s: System, steps: seq<Step>)
    requires Inv(s)
    ensures Inv(Run(lib, s, steps))
    decreases |steps|
  {
    if steps != [] {
      ApplyKeepsInv(lib, s, steps[0]);
      RunKeepsInv(lib, Apply(lib, s, steps[0]), steps[1..]);
    }
  }

  lemma InitialInv(s: System)
    requires Initial(s)
    ensures Inv(s)
  {
  }

  // ---------------------------------------------------------------- what a run charges

  /** What a step takes out of a user's wallet on behalf of an order, read off the wallets before and after. */
  function Debit(lib: Lib, s: System, step: Step, order: Id, user: Id): real {
    if step.Deduct? && step.h in s.handlers && s.handlers[step.h].order == order
    then Wallet.WalletOf(s.wallet.users, user) - Wallet.WalletOf(Apply(lib, s, step).wallet.users, user)
    else 0.0
  }

  ghost predicate Charges(lib: Lib, s: System, step: Step, order: Id) {
    exists user :: Debit(lib, s, step, order, user) != 0.0
  }

  function TotalDebit(lib: Lib, s: System, steps: seq<Step>, order: Id, user: Id): real
    decreases |steps|
  {
    if steps == [] then 0.0
    else Debit(lib, s, steps[0], order, user) + TotalDebit(lib, Apply(lib, s, steps[0]), steps[1..], order, user)
  }

  /** How many steps of a run took money from anybody on behalf of an order. */
  ghost function ChargeCount(lib: Lib, s: System, steps: seq<Step>, order: Id): nat
    decreases |steps|
  {
    if steps == [] then 0
    else (if Charges(lib, s, steps[0], order) then 1 else 0) + ChargeCount(lib, Apply(lib, s, steps[0]), steps[1..], order)
  }

  ghost predicate Paid(s: System, order: Id) {
    PaymentSuccess(order) in Events(s)
  }

  ghost function PaidBy(s: System, order: Id, user: Id): real {
    if Paid(s, order) && order in s.repo.orders && s.repo.orders[order].customer == user
    then s.repo.orders[order].total else 0.0
  }

  lemma PaidIsHandled(s: System, order: Id)
    requires Paid(s, order)
    ensures Wallet.Handled(s.wallet.outbox, order)
  {
    var i :| 0 <= i < |Events(s)| && Events(s)[i] == PaymentSuccess(order);
    assert s.wallet.outbox[i].event.orderId == order;
  }

  /** A step charges for an order exactly when it writes the order's success row, and then its customer, its total. */
  lemma {:induction false} ChargeStep(lib: Lib, s: System, step: Step, order: Id)
    requires Inv(s)
    ensures Charges(lib, s, step, order) <==> Paid(Apply(lib, s, step), order) && !Paid(s, order)
    ensures Paid(s, order) ==> Paid(Apply(lib, s, step), order)
    ensures forall user :: Debit(lib, s, step, order, user) == PaidBy(Apply(lib, s, step), order, user) - PaidBy(s, order, user)
  {
    var t := Apply(lib, s, step);
    ApplyGrows(lib, s, step);
    ApplyKeepsInv(lib, s, step);
    if Paid(t, order) && !Paid(s, order) {
      NewOutcome(lib, s, step);
      SuccessCharges(lib, s, step, order);
    } else {
      NoSuccessNoCharge(lib, s, step, order);
    }
  }

  lemma {:induction false} SuccessCharges(lib: Lib, s: System, step: Step, order: Id)
    requires Inv(s) && step.Deduct? && step.h in s.handlers
    requires Events(Apply(lib, s, step)) == Events(s) + [PaymentSuccess(s.handlers[step.h].order)]
    requires Paid(Apply(lib, s, step), order) && !Paid(s, order)
    ensures order == s.handlers[step.h].order
    ensures Charges(lib, s, step, order)
    ensures forall user :: Debit(lib, s, step, order, user) == PaidBy(Apply(lib, s, step), order, user) - PaidBy(s, order, user)
  {
    var handler := s.handlers[step.h];
    assert HandlerOk(s, handler);
    assert handler.order == order;
    assert Debit(lib, s, step, order, handler.invoice.customer) == handler.invoice.total;
  }

  /** The first transaction touches the wallets only together with the success row. */
  lemma {:induction false} DebitMeansPaid(lib: Lib, s: System, step: Step, order: Id)
    ensures step.Deduct? && step.h in s.handlers && s.handlers[step.h].order == order
              && Apply(lib, s, step).wallet.users != s.wallet.users ==>
            !Wallet.Handled(s.wallet.outbox, order) && Paid(Apply(lib, s, step), order)
  {
    var t := Apply(lib, s, step);
    if step.Deduct? && step.h in s.handlers && t.wallet.users != s.wallet.users {
      assert Events(t)[|Events(s)|] == PaymentSuccess(s.handlers[step.h].order);
    }
  }

  lemma {:induction false} NoSuccessNoCharge(lib: Lib, s: System, step: Step, order: Id)
    requires Inv(s) && (Paid(Apply(lib, s, step), order) ==> Paid(s, order))
    ensures forall user :: Debit(lib, s, step, order, user) == 0.0
    ensures Paid(s, order) ==> Paid(Apply(lib, s, step), order)
    ensures forall user :: PaidBy(Apply(lib, s, step), order, user) == PaidBy(s, order, user)
  {
    var t := Apply(lib, s, step);
    ApplyGrows(lib, s, step);
    if Paid(s, order) {
      PaidIsHandled(s, order);
      var i :| 0 <= i < |Events(s)| && Events(s)[i] == PaymentSuccess(order);
      assert Events(t)[i] == Events(s)[i];
    }
    DebitMeansPaid(lib, s, step, order);
  }

  /** Over any run, what an order took from a user is its total if it has a success row and the user is its customer. */
  lemma {:induction false} ChargesOfRun(lib: Lib, s: System, steps: seq<Step>, order: Id, user: Id)
    requires Inv(s)
    ensures TotalDebit(lib, s, steps, order, user) == PaidBy(Run(lib, s, steps), order, user) - PaidBy(s, order, user)
    ensures ChargeCount(lib, s, steps, order) == (if Paid(Run(lib, s, steps), order) && !Paid(s, order) then 1 else 0)
    ensures Paid(s, order) ==> Paid(Run(lib, s, steps), order)
    decreases |steps|
  {
    if steps != [] {
      ChargeStep(lib, s, steps[0], order);
      ApplyKeepsInv(lib, s, steps[0]);
      ChargesOfRun(lib, Apply(lib, s, steps[0]), steps[1..], order, user);
    }
  }

  ghost predicate ChargedOnce(lib: Lib, s: System, steps: seq<Step>, order: Id, customer: Id, total: real) {
    && ChargeCount(lib, s, steps, order) == 1
    && TotalDebit(lib, s, steps, order, customer) == total
    && forall user :: user != customer ==> TotalDebit(lib, s, steps, order, user) == 0.0
  }

  ghost predicate NeverCharged(lib: Lib, s: System, steps: seq<Step>, order: Id) {
    && ChargeCount(lib, s, steps, order) == 0
    && forall user :: TotalDebit(lib, s, steps, order, user) == 0.0
  }

  lemma {:induction false} PaidMeansChargedOnce(lib: Lib, s: System, steps: seq<Step>, order: Id)
    requires Initial(s)
    ensures Paid(Run(lib, s, steps), order) ==>
      && order in Run(lib, s, steps).repo.orders
      && var row := Run(lib, s, steps).repo.orders[order];
         ChargedOnce(lib, s, steps, order, row.customer, row.total)
    ensures !Paid(Run(lib, s, steps), order) ==> NeverCharged(lib, s, steps, order)
  {
    var t := Run(lib, s, steps);
    RunKeepsInv(lib, s, steps);
    forall user
      ensures TotalDebit(lib, s, steps, order, user) == PaidBy(t, order, user)
      ensures ChargeCount(lib, s, steps, order) == (if Paid(t, order) then 1 else 0)
    {
      ChargesOfRun(lib, s, steps, order, user);
    }
    ChargesOfRun(lib, s, steps, order, order);
    if Paid(t, order) {
      var i :| 0 <= i < |Events(t)| && Events(t)[i] == PaymentSuccess(order);
      assert Events(t)[i].orderId in t.repo.orders;
    }
  }

  lemma {:induction false} FailedIsUnpaid(s: System, order: Id)
    requires Inv(s) && order in s.repo.orders && s.repo.orders[order].progress.status == StatusPaymentFailed
    ensures !Paid(s, order)
  {
    assert Justified(s.log, order, s.repo.orders[order].progress);
    var reason :| Payment(PaymentFailed(order, reason)) in s.log;
    assert PaymentFailed(order, reason) in Events(s);
    var j :| 0 <= j < |Events(s)| && Events(s)[j] == PaymentFailed(order, reason);
    forall i | 0 <= i < |Events(s)|
      ensures Events(s)[i] != PaymentSuccess(order)
    {
      if i < j {
        assert Events(s)[i].orderId != Events(s)[j].orderId;
      } else if j < i {
        assert Events(s)[j].orderId != Events(s)[i].orderId;
      }
    }
  }

  /** Cross-service safety of every run, with any interleaving of handlers, crashes, duplicates and reordering:
      an order in payment_completed has charged its customer its total exactly once and nobody else;
      one in payment_failed has never charged anybody; and one whose stock was refused has charged nobody
      either, unless the product service reported both outcomes for it. */
  ghost predicate ChargedAsItsStatusSays(lib: Lib, s: System, steps: seq<Step>, order: Id)
    requires order in Run(lib, s, steps).repo.orders
  {
    var t := Run(lib, s, steps);
    var row := t.repo.orders[order];
    match row.progress.status
    case StatusPaymentCompleted => ChargedOnce(lib, s, steps, order, row.customer, row.total)
    case StatusPaymentFailed => NeverCharged(lib, s, steps, order)
    case StatusInventoryReservedFailed => StockSuccess(order) !in t.log ==> NeverCharged(lib, s, steps, order)
    case _ => NeverCharged(lib, s, steps, order) || ChargedOnce(lib, s, steps, order, row.customer, row.total)
  }

  /** Every run of the whole system keeps it, for every order. */
  lemma {:induction false} PaymentSafety(lib: Lib, s: System, steps: seq<Step>, order: Id)
    requires Initial(s)
    ensures order in Run(lib, s, steps).repo.orders ==> ChargedAsItsStatusSays(lib, s, steps, order)
  {
    var t := Run(lib, s, steps);
    RunKeepsInv(lib, s, steps);
    PaidMeansChargedOnce(lib, s, steps, order);
    if order in t.repo.orders {
      assert Justified(t.log, order, t.repo.orders[order].progress);
      if t.repo.orders[order].progress.status == StatusPaymentFailed {
        FailedIsUnpaid(t, order);
      }
    }
    assert Paid(t, order) ==> StockSuccess(order) in t.log;
  }

  // ---------------------------------------------------------------- which orders can still be charged

  /** The product service does not report (again) that the order's stock is reserved. */
  ghost predicate NoSuccessFor(steps: seq<Step>, order: Id) {
    forall step :: step in steps && step.EmitStock? && step.reserved ==> step.id != order
  }

  ghost predicate Chargeable(s: System, order: Id) {
    && order in s.repo.orders && s.repo.orders[order].total > 0.0
    && StockSuccess(order) in s.log && !Wallet.Handled(s.wallet.outbox, order)
  }

  lemma {:induction false} PaidWasChargeable(lib: Lib, s: System, step: Step, order: Id)
    requires Inv(s) && !Paid(s, order)
    ensures Paid(Apply(lib, s, step), order) ==> Chargeable(s, order)
  {
    if Paid(Apply(lib, s, step), order) {
      NewOutcome(lib, s, step);
      assert HandlerOk(s, s.handlers[step.h]);
    }
  }

  lemma {:induction false} StepKeepsUnchargeable(lib: Lib, s: System, step: Step, order: Id)
    requires Inv(s) && order in s.repo.orders && !Chargeable(s, order) && !Paid(s, order)
    requires step.EmitStock? && step.reserved ==> step.id != order
    ensures !Chargeable(Apply(lib, s, step), order) && !Paid(Apply(lib, s, step), order)
  {
    var t := Apply(lib, s, step);
    ApplyGrows(lib, s, step);
    assert InvoiceFor(t.repo.orders[order]) == InvoiceFor(s.repo.orders[order]);
    if Wallet.Handled(s.wallet.outbox, order) {
      HandledStays(s, t, order);
    } else {
      assert StockSuccess(order) in t.log ==> StockSuccess(order) in s.log;
    }
    PaidWasChargeable(lib, s, step, order);
  }

  lemma {:induction false} RunKeepsUnchargeable(lib: Lib, s: System, steps: seq<Step>, order: Id)
    requires Inv(s) && order in s.repo.orders && !Chargeable(s, order) && !Paid(s, order) && NoSuccessFor(steps, order)
    ensures !Paid(Run(lib, s, steps), order)
    decreases |steps|
  {
    if steps != [] {
      assert steps[0] in steps;
      StepKeepsUnchargeable(lib, s, steps[0], order);
      ApplyKeepsInv(lib, s, steps[0]);
      ApplyGrows(lib, s, steps[0]);
      RunKeepsUnchargeable(lib, Apply(lib, s, steps[0]), steps[1..], order);
    }
  }

  /** Register the customer, credit the total, and let one handler run its first transaction. */
  function ChargingSteps(s: System, order: Id, h: nat): seq<Step>
    requires order in s.repo.orders
  {
    var row := s.repo.orders[order];
    [Register(row.customer), Credit(row.customer, if row.total > 0.0 then row.total else 0.0), Receive(h, order), Deduct(h, 0, false)]
  }

  lemma {:induction false} ChargingStepsCharge(lib: Lib, s: System, order: Id, h: nat)
    requires Inv(s) && Chargeable(s, order) && h !in s.handlers
    ensures Paid(Run(lib, s, ChargingSteps(s, order, h)), order)
  {
    var row, steps := s.repo.orders[order], ChargingSteps(s, order, h);
    var s1 := Apply(lib, s, steps[0]);
    assert row.customer in s1.wallet.users && s1.wallet.users[row.customer] >= 0.0;
    var s2 := Apply(lib, s1, steps[1]);
    assert s2.wallet.users[row.customer] >= row.total;
    var s3 := Apply(lib, s2, steps[2]);
    assert s3.handlers[h] == Handler(order, InvoiceFor(row), Loaded);
    var s4 := Apply(lib, s3, steps[3]);
    assert Events(s4)[|Events(s)|] == PaymentSuccess(order);
    assert steps[1..][1..] == steps[2..] && steps[2..][1..] == steps[3..] && steps[3..][1..] == [];
    assert Run(lib, s3, steps[3..]) == s4;
    assert Run(lib, s1, steps[1..]) == s4;
  }

  lemma {:induction false} UnusedHandler(handlers: map<nat, Handler>) returns (h: nat)
    ensures h !in handlers
  {
    var bound := MaxOf(handlers.Keys);
    h := bound + 1;
  }

  lemma {:induction false} MaxOf(keys: set<nat>) returns (bound: nat)
    ensures forall k :: k in keys ==> k <= bound
    decreases |keys|
  {
    if keys == {} {
      bound := 0;
    } else {
      var k :| k in keys;
      var rest := MaxOf(keys - {k});
      bound := if k > rest then k else rest;
      assert forall l :: l in keys ==> l == k || l in keys - {k};
    }
  }

  /** Exactly which unpaid orders can still be charged once the product service reports nothing more in their
      favour: those with a positive total, a reported success and no outcome yet. The order's status plays
      no part, so an order whose stock was refused is among them if both stock outcomes were reported. */
  lemma {:induction false} ChargeableIff(lib: Lib, s: System, order: Id)
    requires Inv(s) && order in s.repo.orders && !Paid(s, order)
    ensures (exists steps :: NoSuccessFor(steps, order) && Paid(Run(lib, s, steps), order)) <==> Chargeable(s, order)
  {
    if Chargeable(s, order) {
      var h := UnusedHandler(s.handlers);
      ChargingStepsCharge(lib, s, order, h);
      assert NoSuccessFor(ChargingSteps(s, order, h), order);
    } else {
      forall steps | NoSuccessFor(steps, order)
        ensures !Paid(Run(lib, s, steps), order)
      {
        RunKeepsUnchargeable(lib, s, steps, order);
      }
    }
  }

  // ---------------------------------------------------------------- outcomes and money

  /** In every run no order has two outcome rows, and a handler that is ready to commit its offset
      has exactly one for its order. */
  lemma {:induction false} OneOutcomePerOrder(lib: Lib, s: System, steps: seq<Step>, h: nat)
    requires Initial(s)
    ensures var t := Run(lib, s, steps);
      && (forall i, j :: 0 <= i < j < |t.wallet.outbox| ==> t.wallet.outbox[i].event.orderId != t.wallet.outbox[j].event.orderId)
      && (h in t.handlers && t.handlers[h].phase == Settled ==>
            exists i :: 0 <= i < |t.wallet.outbox| && t.wallet.outbox[i].event.orderId == t.handlers[h].order)
  {
    RunKeepsInv(lib, s, steps);
    var t := Run(lib, s, steps);
    forall i, j | 0 <= i < j < |t.wallet.outbox|
      ensures t.wallet.outbox[i].event.orderId != t.wallet.outbox[j].event.orderId
    {
      assert Events(t)[i].orderId != Events(t)[j].orderId;
    }
    if h in t.handlers {
      assert HandlerOk(t, t.handlers[h]);
    }
  }

  function Credited(s: System, step: Step, user: Id): real {
    if step.Credit? && step.user == user && user in s.wallet.users && step.amount >= 0.0 then step.amount else 0.0
  }

  function TotalCredit(lib: Lib, s: System, steps: seq<Step>, user: Id): real
    decreases |steps|
  {
    if steps == [] then 0.0
    else Credited(s, steps[0], user) + TotalCredit(lib, Apply(lib, s, steps[0]), steps[1..], user)
  }

  /** What a password change writes off: the wallet is set back to zero. */
  function WrittenOff(s: System, step: Step, user: Id): real {
    if step.ChangePassword? && step.user == user && step.matches then Wallet.WalletOf(s.wallet.users, user) else 0.0
  }

  function TotalWrittenOff(lib: Lib, s: System, steps: seq<Step>, user: Id): real
    decreases |steps|
  {
    if steps == [] then 0.0
    else WrittenOff(s, steps[0], user) + TotalWrittenOff(lib, Apply(lib, s, steps[0]), steps[1..], user)
  }

  function SpentIn(s: System, user: Id): real {
    Wallet.Spent(Events(s), Invoices(s.repo), user)
  }

  lemma {:induction false} ConservationStep(lib: Lib, s: System, step: Step, user: Id)
    requires Inv(s)
    ensures var t := Apply(lib, s, step);
      Wallet.WalletOf(t.wallet.users, user) + SpentIn(t, user)
        == Wallet.WalletOf(s.wallet.users, user) + SpentIn(s, user) + Credited(s, step, user) - WrittenOff(s, step, user)
  {
    var t := Apply(lib, s, step);
    ApplyGrows(lib, s, step);
    Wallet.SpentStable(Events(s), Invoices(s.repo), Invoices(t.repo), user);
    if Events(t) != Events(s) {
      NewOutcome(lib, s, step);
      OutcomeConserves(lib, s, step, user);
    } else {
      NoOutcomeNoDebit(lib, s, step, user);
    }
  }

  /** The two transactions of a handler as steps of the system. */
  lemma {:induction false} TransactionSteps(lib: Lib, s: System, step: Step)
    requires (step.Deduct? || step.RecordFailure?) && step.h in s.handlers
    requires Events(Apply(lib, s, step)) != Events(s)
    ensures Apply(lib, s, step).repo == s.repo
    ensures step.RecordFailure? ==> s.handlers[step.h].phase.Declined?
    ensures var handler := s.handlers[step.h];
      Apply(lib, s, step).wallet ==
        if step.Deduct?
        then Wallet.Deduct(s.wallet, handler.invoice.customer, handler.invoice.total, handler.order, step.now, step.dbFails).0
        else Wallet.RecordFailure(s.wallet, handler.order, handler.phase.reason, step.now, step.dbFails).0
  {
  }

  lemma {:induction false} OutcomeConserves(lib: Lib, s: System, step: Step, user: Id)
    requires Inv(s) && (step.Deduct? || step.RecordFailure?) && step.h in s.handlers
    requires Events(Apply(lib, s, step)) != Events(s)
    ensures var t := Apply(lib, s, step);
      Wallet.WalletOf(t.wallet.users, user) + SpentIn(t, user) == Wallet.WalletOf(s.wallet.users, user) + SpentIn(s, user)
  {
    hide Apply, Wallet.Deduct, Wallet.RecordFailure;
    TransactionSteps(lib, s, step);
    var handler, invoices := s.handlers[step.h], Invoices(s.repo);
    assert handler.order in invoices && invoices[handler.order] == handler.invoice by {
      assert HandlerOk(s, handler);
    }
    if step.Deduct? {
      Wallet.DeductConserves(s.wallet, invoices, handler.order, step.now, step.dbFails, user);
    } else {
      Wallet.RecordFailureConserves(s.wallet, invoices, handler.order, handler.phase.reason, step.now, step.dbFails, user);
    }
  }

  lemma {:induction false} NoOutcomeNoDebit(lib: Lib, s: System, step: Step, user: Id)
    requires Events(Apply(lib, s, step)) == Events(s)
    ensures Wallet.WalletOf(Apply(lib, s, step).wallet.users, user)
      == Wallet.WalletOf(s.wallet.users, user) + Credited(s, step, user) - WrittenOff(s, step, user)
  {
    if step.Deduct? && step.h in s.handlers {
      assert |Events(Apply(lib, s, step))| == |Events(s)|;
    }
  }

  /** Conservation: over every run, a user's wallet plus the totals of their paid orders is what they started
      with plus what was credited from outside less what password changes wrote off, and no wallet is overdrawn. */
  lemma {:induction false} Conservation(lib: Lib, s: System, steps: seq<Step>, user: Id)
    requires Inv(s)
    ensures Wallet.WalletOf(Run(lib, s, steps).wallet.users, user) + SpentIn(Run(lib, s, steps), user)
      == Wallet.WalletOf(s.wallet.users, user) + SpentIn(s, user) + TotalCredit(lib, s, steps, user) - TotalWrittenOff(lib, s, steps, user)
    ensures Wallet.WalletOf(Run(lib, s, steps).wallet.users, user) >= 0.0
    decreases |steps|
  {
    if steps != [] {
      ConservationStep(lib, s, steps[0], user);
      ApplyKeepsInv(lib, s, steps[0]);
      Conservation(lib, Apply(lib, s, steps[0]), steps[1..], user);
    }
  }

  /** Every password change of the user's finds an empty wallet. */
  ghost predicate ChangedOnlyWhenEmpty(lib: Lib, s: System, steps: seq<Step>, user: Id)
    decreases |steps|
  {
    steps == [] ||
    ((steps[0].ChangePassword? && steps[0].user == user && steps[0].matches ==> Wallet.WalletOf(s.wallet.users, user) == 0.0)
     && ChangedOnlyWhenEmpty(lib, Apply(lib, s, steps[0]), steps[1..], user))
  }

  lemma {:induction false} WrittenOffIff(lib: Lib, s: System, steps: seq<Step>, user: Id)
    requires Inv(s)
    ensures TotalWrittenOff(lib, s, steps, user) >= 0.0
    ensures TotalWrittenOff(lib, s, steps, user) == 0.0 <==> ChangedOnlyWhenEmpty(lib, s, steps, user)
    decreases |steps|
  {
    if steps != [] {
      ApplyKeepsInv(lib, s, steps[0]);
      WrittenOffIff(lib, Apply(lib, s, steps[0]), steps[1..], user);
    }
  }

  /** Money is conserved over a run exactly when the user's passwords are changed only while their wallet is empty. */
  lemma {:induction false} ConservedIff(lib: Lib, s: System, steps: seq<Step>, user: Id)
    requires Inv(s)
    ensures var t := Run(lib, s, steps);
      var conserved := Wallet.WalletOf(t.wallet.users, user) + SpentIn(t, user)
        == Wallet.WalletOf(s.wallet.users, user) + SpentIn(s, user) + TotalCredit(lib, s, steps, user);
      conserved <==> ChangedOnlyWhenEmpty(lib, s, steps, user)
  {
    Conservation(lib, s, steps, user);
    WrittenOffIff(lib, s, steps, user);
  }

  lemma {:induction false} PlaceKeepsMatch(lib: Lib, s: System, step: Step)
    requires Matched(lib, s.repo) && step.Place?
    ensures Matched(lib, Apply(lib, s, step).repo)
  {
    hide Matched;
    var place := OrderUsecase.Place(step.request, step.catalog, step.id, step.fault, step.now);
    OrderUsecase.RequestsKeepMatch(lib, s.repo, [place]);
    assert Apply(lib, s, step).repo == OrderUsecase.Run(lib, s.repo, [place]);
  }

  lemma {:induction false} OtherStepsKeepRows(lib: Lib, s: System, step: Step)
    requires !step.Place?
    ensures SameRows(s.repo, Apply(lib, s, step).repo)
  {
    if step.FlushOrders? && Apply(lib, s, step) != s {
      OrderOutbox.FlushedRows(s.repo.outbox, step.list, step.results);
    } else if step.Observe? && Apply(lib, s, step) != s {
      ObservedSameRows(s.repo, Reading(step.message).value.0, Reading(step.message).value.1);
    }
  }

  lemma {:induction false} ApplyKeepsMatch(lib: Lib, s: System, step: Step)
    requires Matched(lib, s.repo)
    ensures Matched(lib, Apply(lib, s, step).repo)
  {
    if step.Place? {
      PlaceKeepsMatch(lib, s, step);
    } else {
      OtherStepsKeepRows(lib, s, step);
      SameRowsKeepMatch(lib, s.repo, Apply(lib, s, step).repo);
    }
  }

  lemma {:induction false} RunKeepsMatch(lib: Lib, s: System, steps: seq<Step>)
    requires Matched(lib, s.repo)
    ensures Matched(lib, Run(lib, s, steps).repo)
    decreases |steps|
  {
    if steps != [] {
      ApplyKeepsMatch(lib, s, steps[0]);
      RunKeepsMatch(lib, Apply(lib, s, steps[0]), steps[1..]);
    }
  }

  /** Nothing on the log is a phantom: each payment message has its outcome row, and each order.created message
      decodes to the customer, total and item lines of an order that exists. */
  lemma {:induction false} NoPhantomMessages(lib: Lib, s: System, steps: seq<Step>, m: Message)
    requires Initial(s) && m in Run(lib, s, steps).log
    ensures m.Payment? ==> m.event in Events(Run(lib, s, steps))
    ensures m.OrderCreated? ==>
      exists e :: e in Run(lib, s, steps).repo.outbox && e.aggregateId == m.id && e.payload == m.payload
        && Describes(lib, Run(lib, s, steps).repo, e)
  {
    RunKeepsInv(lib, s, steps);
    RunKeepsMatch(lib, s, steps);
    var t := Run(lib, s, steps);
    if m.OrderCreated? {
      var i :| 0 <= i < |t.repo.outbox| && t.repo.outbox[i].aggregateId == m.id && t.repo.outbox[i].payload == m.payload;
      assert Describes(lib, t.repo, t.repo.outbox[i]);
    }
  }

  /** An event whose outbox row says that it was published is on the log. */
  ghost predicate PublishedIsLogged(s: System) {
    && (forall i :: 0 <= i < |s.repo.outbox| && s.repo.outbox[i].processed ==>
          OrderCreated(s.repo.outbox[i].aggregateId, s.repo.outbox[i].payload) in s.log)
    && (forall i :: 0 <= i < |s.wallet.outbox| && s.wallet.outbox[i].status == PaymentOutbox.Sent ==>
          Payment(s.wallet.outbox[i].event) in s.log)
  }

  lemma {:induction false} OrderRowLogged(lib: Lib, s: System, step: Step, i: nat)
    requires PublishedIsLogged(s) && i < |Apply(lib, s, step).repo.outbox|
    ensures var e := Apply(lib, s, step).repo.outbox[i];
      e.processed ==> OrderCreated(e.aggregateId, e.payload) in Apply(lib, s, step).log
  {
    if step.FlushOrders? && Apply(lib, s, step) != s {
      OrderOutbox.FlushedRows(s.repo.outbox, step.list, step.results);
    }
  }

  lemma {:induction false} PaymentRowLogged(lib: Lib, s: System, step: Step, i: nat)
    requires PublishedIsLogged(s) && i < |Apply(lib, s, step).wallet.outbox|
    ensures var row := Apply(lib, s, step).wallet.outbox[i];
      row.status == PaymentOutbox.Sent ==> Payment(row.event) in Apply(lib, s, step).log
  {
    if step.DispatchPayments? && Apply(lib, s, step) != s && step.saved {
      PaymentOutbox.SentReached(s.wallet.outbox, step.batch, step.outcomes, step.saveTime, i);
      assert step.batch[..|step.outcomes|] == step.batch;
    }
  }

  lemma {:induction false} RunKeepsLogged(lib: Lib, s: System, steps: seq<Step>)
    requires PublishedIsLogged(s)
    ensures PublishedIsLogged(Run(lib, s, steps))
    decreases |steps|
  {
    if steps != [] {
      var t := Apply(lib, s, steps[0]);
      forall i | 0 <= i < |t.repo.outbox| && t.repo.outbox[i].processed
        ensures OrderCreated(t.repo.outbox[i].aggregateId, t.repo.outbox[i].payload) in t.log
      {
        OrderRowLogged(lib, s, steps[0], i);
      }
      forall i | 0 <= i < |t.wallet.outbox| && t.wallet.outbox[i].status == PaymentOutbox.Sent
        ensures Payment(t.wallet.outbox[i].event) in t.log
      {
        PaymentRowLogged(lib, s, steps[0], i);
      }
      RunKeepsLogged(lib, t, steps[1..]);
    }
  }

  /** Nothing is lost: in every run each order's event is on the log or still pending in the outbox, and each
      payment outcome is on the log or still unsent. */
  lemma {:induction false} NothingLost(lib: Lib, s: System, steps: seq<Step>, id: Id)
    requires Initial(s)
    ensures var t := Run(lib, s, steps);
      && (id in t.repo.orders ==>
            exists e :: e in t.repo.outbox && e.aggregateId == id && Describes(lib, t.repo, e)
              && (e.processed ==> OrderCreated(id, e.payload) in t.log))
      && (forall row :: row in t.wallet.outbox && row.status == PaymentOutbox.Sent ==> Payment(row.event) in t.log)
  {
    hide Run, Matched, Describes, PublishedIsLogged;
    assert PublishedIsLogged(s) && Matched(lib, s.repo) by {
      InitialTables(lib, s);
    }
    RunKeepsLogged(lib, s, steps);
    RunKeepsMatch(lib, s, steps);
    LoggedOrPending(lib, Run(lib, s, steps), id);
  }

  lemma InitialTables(lib: Lib, s: System)
    requires Initial(s)
    ensures PublishedIsLogged(s) && Matched(lib, s.repo)
  {
  }

  lemma {:induction false} LoggedOrPending(lib: Lib, t: System, id: Id)
    requires Matched(lib, t.repo) && PublishedIsLogged(t)
    ensures id in t.repo.orders ==>
      exists e :: e in t.repo.outbox && e.aggregateId == id && Describes(lib, t.repo, e)
        && (e.processed ==> OrderCreated(id, e.payload) in t.log)
    ensures forall row :: row in t.wallet.outbox && row.status == PaymentOutbox.Sent ==> Payment(row.event) in t.log
  {
    hide Describes;
    if id in t.repo.orders {
      var i :| 0 <= i < |t.repo.outbox| && t.repo.outbox[i].aggregateId == id;
      assert Describes(lib, t.repo, t.repo.outbox[i]);
    }
  }

  /** The order service's consumer, handed a stock or payment message on the topic it is published on, makes the
      move of the Observe step, or none if it cannot commit; it can whenever the order exists and nothing fails. */
  lemma {:induction false} ConsumerObserves(lib: Lib, s: System, m: Message, getFails: bool, saveFails: bool)
    requires m in s.log && !m.OrderCreated?
    requires lib.parseUuid(Payload(m).0) == Some(Payload(m).0)
    ensures var (repo, commits) := OrderUsecase.MessageHandled(lib, s.repo, Some(Topic(m)), Some(Payload(m)), getFails, saveFails);
      && (commits ==> repo == Apply(lib, s, Step.Observe(m)).repo)
      && (!commits ==> repo == s.repo)
      && (!getFails && !saveFails ==> (commits <==> Payload(m).0 in s.repo.orders))
  {
  }

  /** The sequential handler of one delivery is the schedule of its steps that nothing interrupts. */
  lemma {:induction false} SequentialHandler(lib: Lib, s: System, h: nat, id: Id, now: int, fails1: bool, fails2: bool)
    requires h !in s.handlers && StockSuccess(id) in s.log
    ensures var t := Run(lib, s, [Receive(h, id), Deduct(h, now, fails1), RecordFailure(h, now, fails2)]);
      var (wallet, commits) := Wallet.HandleStockSuccess(s.wallet, Wallet.InvoiceOf(Invoices(s.repo), id), id, now, fails1, fails2);
      t.wallet == wallet && (commits <==> h in t.handlers && t.handlers[h].phase == Settled)
  {
    var a, b, c := Receive(h, id), Deduct(h, now, fails1), RecordFailure(h, now, fails2);
    var s1 := Apply(lib, s, a);
    var s2 := Apply(lib, s1, b);
    var s3 := Apply(lib, s2, c);
    assert [a, b, c][1..] == [b, c] && [b, c][1..] == [c] && [c][1..] == [];
    assert Run(lib, s2, [c]) == Run(lib, s3, []) == s3;
    assert Run(lib, s1, [b, c]) == s3;
    assert Run(lib, s, [a, b, c]) == s3;
  }

  // ---------------------------------------------------------------- one order from end to end

  function PlacingSteps(s: System, request: OrderUsecase.Request, catalog: Option<seq<OrderUsecase.VariantInfo>>, id: Id, now: int): seq<Step> {
    [Place(request, catalog, id, NoFault, now), FlushOrders([|s.repo.outbox|], [OrderOutbox.Marked]),
     EmitStock(id, true, ""), Step.Observe(StockSuccess(id))]
  }

  /** RecordFailure has nothing to do if the first transaction has settled the order. */
  function PayingSteps(id: Id, h: nat, now: int): seq<Step> {
    [Receive(h, id), Deduct(h, now, false), RecordFailure(h, now, false), CommitOffset(h)]
  }

  function SettlingSteps(s: System, outcome: PaymentEvent, now: int): seq<Step> {
    [DispatchPayments([|s.wallet.outbox|], [PaymentOutbox.Acked], now, true), Step.Observe(Payment(outcome))]
  }

  lemma {:induction false} RunFour(lib: Lib, s: System, a: Step, b: Step, c: Step, d: Step)
    ensures Run(lib, s, [a, b, c, d]) == Apply(lib, Apply(lib, Apply(lib, Apply(lib, s, a), b), c), d)
  {
    hide Apply;
    var t := Apply(lib, Apply(lib, Apply(lib, s, a), b), c);
    assert [a, b, c, d][1..] == [b, c, d] && [b, c, d][1..] == [c, d] && [c, d][1..] == [d] && [d][1..] == [];
    assert Run(lib, t, [d]) == Apply(lib, t, d);
    assert Run(lib, Apply(lib, s, a), [b, c, d]) == Apply(lib, t, d);
  }

  lemma {:induction false} RunTwo(lib: Lib, s: System, a: Step, b: Step)
    ensures Run(lib, s, [a, b]) == Apply(lib, Apply(lib, s, a), b)
  {
    hide Apply;
    assert [a, b][1..] == [b] && [b][1..] == [];
    assert Run(lib, Apply(lib, s, a), [b]) == Apply(lib, Apply(lib, s, a), b);
  }

  lemma {:induction false} RunConcat(lib: Lib, s: System, first: seq<Step>, second: seq<Step>)
    ensures Run(lib, s, first + second) == Run(lib, Run(lib, s, first), second)
    decreases |first|
  {
    hide Apply;
    if first == [] {
      assert first + second == second;
    } else {
      assert (first + second)[1..] == first[1..] + second;
      RunConcat(lib, Apply(lib, s, first[0]), first[1..], second);
    }
  }

  ghost predicate Reserved(s: System, id: Id, request: OrderUsecase.Request, lib: Lib) {
    && id in s.repo.orders && s.repo.orders[id].progress == Progress(StatusInventoryReserved, None)
    && lib.parseUuid(request.customerId) == Some(s.repo.orders[id].customer)
    && s.repo.orders[id].total * 10.0 == OrderUsecase.Subtotal(request.items) * 11.0
    && StockSuccess(id) in s.log
    && exists payload :: OrderCreated(id, payload) in s.log
  }

  lemma {:induction false} FlushPublishes(lib: Lib, s: System, i: nat)
    requires i < |s.repo.outbox|
    ensures var t := Apply(lib, s, FlushOrders([i], [OrderOutbox.Marked]));
      && OrderCreated(s.repo.outbox[i].aggregateId, s.repo.outbox[i].payload) in t.log
      && t.repo.outbox[i].processed && s.log <= t.log
      && t.repo.orders == s.repo.orders && t.wallet == s.wallet && t.handlers == s.handlers
  {
    OrderOutbox.ReachedEvents([i], [OrderOutbox.Marked], i);
    OrderOutbox.FlushedRows(s.repo.outbox, [i], [OrderOutbox.Marked]);
    assert [i][0] == i && [OrderOutbox.Marked][0].Marked?;
  }

  /** An admitted request that meets no fault becomes an order whose event is published and whose stock is reserved. */
  lemma {:induction false} PlacingReserves(lib: Lib, s: System, request: OrderUsecase.Request, catalog: Option<seq<OrderUsecase.VariantInfo>>, id: Id, now: int)
    requires OrderUsecase.Admitted(lib, request, catalog)
    requires Commits(s.repo, id, OrderUsecase.CommandFor(lib, lib.parseUuid(request.customerId).value, request, catalog.value), NoFault)
    ensures var t := Run(lib, s, PlacingSteps(s, request, catalog, id, now));
      Reserved(t, id, request, lib) && t.wallet == s.wallet && t.handlers == s.handlers
  {
    hide OrderUsecase.Admitted, OrderUsecase.CommandFor, Commits, Created, OrderUsecase.Subtotal;
    AdmittedParts(lib, request, catalog);
    var steps := PlacingSteps(s, request, catalog, id, now);
    var customer := lib.parseUuid(request.customerId).value;
    var command := OrderUsecase.CommandFor(lib, customer, request, catalog.value);
    RunFour(lib, s, steps[0], steps[1], steps[2], steps[3]);
    CreatedPlaces(lib, s.repo, id, command, NoFault, now);
    OrderUsecase.PricingMirrorsRequest(lib, customer, request, catalog.value);
    var s1 := Apply(lib, s, steps[0]);
    assert s1.repo == Created(lib, s.repo, id, command, NoFault, now);
    FlushPublishes(lib, s1, |s.repo.outbox|);
    var s2 := Apply(lib, s1, steps[1]);
    assert s2.repo.orders[id].progress == INITIAL;
    var s3 := Apply(lib, s2, steps[2]);
    assert Apply(lib, s3, steps[3]).repo == Observed(s3.repo, id, StockReduced);
  }

  lemma AdmittedParts(lib: Lib, request: OrderUsecase.Request, catalog: Option<seq<OrderUsecase.VariantInfo>>)
    requires OrderUsecase.Admitted(lib, request, catalog)
    ensures lib.parseUuid(request.customerId).Some? && catalog.Some? && OrderUsecase.LinesOk(lib, catalog.value, request.items)
  {
  }

  /** Whether the customer can pay the order, and the balance that a refusal reports. */
  predicate Affordable(s: System, row: OrderRow) {
    row.customer in s.wallet.users && row.total > 0.0 && s.wallet.users[row.customer] >= row.total
  }

  function Outcome(s: System, id: Id): PaymentEvent
    requires id in s.repo.orders
  {
    var row := s.repo.orders[id];
    if Affordable(s, row) then PaymentSuccess(id)
    else PaymentFailed(id, InsufficientBalance(if row.total > 0.0 then Wallet.WalletOf(s.wallet.users, row.customer) else 0.0, row.total))
  }

  /** An undisturbed handler of a fresh order charges an affordable total, or records the refusal. */
  lemma {:induction false} PayingDecides(lib: Lib, s: System, id: Id, h: nat, now: int)
    requires id in s.repo.orders && StockSuccess(id) in s.log && h !in s.handlers && !Wallet.Handled(s.wallet.outbox, id)
    ensures var t, row := Run(lib, s, PayingSteps(id, h, now)), s.repo.orders[id];
      && t.repo == s.repo && t.log == s.log && t.handlers == s.handlers
      && t.wallet.users == (if Affordable(s, row) then s.wallet.users[row.customer := s.wallet.users[row.customer] - row.total] else s.wallet.users)
      && |t.wallet.outbox| == |s.wallet.outbox| + 1 && t.wallet.outbox[|s.wallet.outbox|].event == Outcome(s, id)
  {
    var steps := PayingSteps(id, h, now);
    RunFour(lib, s, steps[0], steps[1], steps[2], steps[3]);
    SequentialHandler(lib, s, h, id, now, false, false);
    Wallet.FreshDelivery(s.wallet, InvoiceFor(s.repo.orders[id]), id, now);
    var s3 := Run(lib, s, [steps[0], steps[1], steps[2]]);
    assert s3 == Apply(lib, Apply(lib, Apply(lib, s, steps[0]), steps[1]), steps[2]) by {
      RunThree(lib, s, steps[0], steps[1], steps[2]);
    }
    HandlerStepsLocal(lib, s, id, h, now);
  }

  lemma {:induction false} RunThree(lib: Lib, s: System, a: Step, b: Step, c: Step)
    ensures Run(lib, s, [a, b, c]) == Apply(lib, Apply(lib, Apply(lib, s, a), b), c)
  {
    hide Apply;
    var t := Apply(lib, Apply(lib, s, a), b);
    assert [a, b, c][1..] == [b, c] && [b, c][1..] == [c] && [c][1..] == [];
    assert Run(lib, t, [c]) == Apply(lib, t, c);
  }

  /** The handler's steps touch nothing but the wallet service's tables and the handler itself. */
  lemma {:induction false} HandlerStepsLocal(lib: Lib, s: System, id: Id, h: nat, now: int)
    requires h !in s.handlers
    ensures var t := Apply(lib, Apply(lib, Apply(lib, s, Receive(h, id)), Deduct(h, now, false)), RecordFailure(h, now, false));
      t.repo == s.repo && t.log == s.log && t.handlers - {h} == s.handlers
  {
    var s1 := Apply(lib, s, Receive(h, id));
    assert s1.repo == s.repo && s1.log == s.log && s1.handlers - {h} == s.handlers;
    var s2 := Apply(lib, s1, Deduct(h, now, false));
    assert s2.repo == s.repo && s2.log == s.log && s2.handlers - {h} == s.handlers;
  }

  /** Dispatching the outcome row and observing its message moves a reserved order to its final status. */
  lemma {:induction false} SettlingFinishes(lib: Lib, s: System, id: Id, i: nat, now: int)
    requires id in s.repo.orders && s.repo.orders[id].progress == Progress(StatusInventoryReserved, None)
    requires i < |s.wallet.outbox| && s.wallet.outbox[i].event.orderId == id
    ensures var t := Run(lib, s, [DispatchPayments([i], [PaymentOutbox.Acked], now, true), Step.Observe(Payment(s.wallet.outbox[i].event))]);
      && t.wallet.users == s.wallet.users && t.handlers == s.handlers
      && id in t.repo.orders
      && t.repo.orders[id] == s.repo.orders[id].(progress :=
           if s.wallet.outbox[i].event.PaymentSuccess? then Progress(StatusPaymentCompleted, None)
           else Progress(StatusPaymentFailed, if s.wallet.outbox[i].event.reason == Text("") then None else Some(s.wallet.outbox[i].event.reason)))
  {
    var e := s.wallet.outbox[i].event;
    var dispatch, observe := DispatchPayments([i], [PaymentOutbox.Acked], now, true), Step.Observe(Payment(e));
    RunTwo(lib, s, dispatch, observe);
    PaymentOutbox.ReachedEvents(s.wallet.outbox, [i], [PaymentOutbox.Acked], e);
    assert [i][0] == i && [PaymentOutbox.Acked][0].Acked?;
    assert [i][..1] == [i];
    assert Payment(e) in Apply(lib, s, dispatch).log;
  }

  /** How the order of this row ends when the wallets are those of state s. */
  ghost predicate Decided(s: System, row: OrderRow, end: System, id: Id) {
    && id in end.repo.orders && end.handlers == s.handlers
    && if Affordable(s, row) then
         && end.repo.orders[id] == row.(progress := Progress(StatusPaymentCompleted, None))
         && end.wallet.users == s.wallet.users[row.customer := s.wallet.users[row.customer] - row.total]
       else
         var found := if row.total > 0.0 then Wallet.WalletOf(s.wallet.users, row.customer) else 0.0;
         && end.repo.orders[id] == row.(progress := Progress(StatusPaymentFailed, Some(InsufficientBalance(found, row.total))))
         && end.wallet.users == s.wallet.users
  }

  function AllSteps(lib: Lib, s: System, request: OrderUsecase.Request, catalog: Option<seq<OrderUsecase.VariantInfo>>, id: Id, h: nat, now: int): seq<Step>
  {
    var placed := Run(lib, s, PlacingSteps(s, request, catalog, id, now));
    if id !in placed.repo.orders then []
    else PlacingSteps(s, request, catalog, id, now) + PayingSteps(id, h, now) + SettlingSteps(s, Outcome(placed, id), now)
  }

  /** From any state, an admitted request that meets no fault and whose stock is reserved ends as the wallet decides:
      paid in full and in payment_completed, or unpaid and in payment_failed with the balance found. The total is
      eleven tenths of the subtotal, and no other wallet moves. */
  lemma {:induction false} EndToEnd(lib: Lib, s: System, request: OrderUsecase.Request, catalog: Option<seq<OrderUsecase.VariantInfo>>, id: Id, h: nat, now: int)
    requires OrderUsecase.Admitted(lib, request, catalog)
    requires Commits(s.repo, id, OrderUsecase.CommandFor(lib, lib.parseUuid(request.customerId).value, request, catalog.value), NoFault)
    requires h !in s.handlers && !Wallet.Handled(s.wallet.outbox, id)
    ensures var placed := Run(lib, s, PlacingSteps(s, request, catalog, id, now));
      && Reserved(placed, id, request, lib)
      && Decided(s, placed.repo.orders[id], Run(lib, s, AllSteps(lib, s, request, catalog, id, h, now)), id)
  {
    hide OrderUsecase.Admitted, OrderUsecase.CommandFor, Commits, Apply, Run;
    var first, second := PlacingSteps(s, request, catalog, id, now), PayingSteps(id, h, now);
    PlacingReserves(lib, s, request, catalog, id, now);
    var placed := Run(lib, s, first);
    var third := SettlingSteps(s, Outcome(placed, id), now);
    PayingDecides(lib, placed, id, h, now);
    var paid := Run(lib, placed, second);
    SettlingFinishes(lib, paid, id, |s.wallet.outbox|, now);
    RunConcat(lib, s, first, second);
    RunConcat(lib, s, first + second, third);
  }
}
