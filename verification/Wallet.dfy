/** The wallet service: payment transactions over users and outbox (asp-user/Services/UsersService.cs)
    and the stock event handler that sequences them (asp-user/Consumers/UserConsumer.cs). */
module Wallet {
  import opened Common
  import opened Messages
  import opened PaymentOutbox

  datatype Db = Db(users: map<Id, real>, outbox: seq<Row>)

  /** What GetOrder tells the wallet service about an order. */
  datatype Invoice = Invoice(customer: Id, total: real)

  datatype TxError = Insufficient(reason: ErrorMessage) | DbFailure

  function Events(outbox: seq<Row>): (r: seq<PaymentEvent>)
    ensures |r| == |outbox|
  {
    seq(|outbox|, i requires 0 <= i < |outbox| => outbox[i].event)
  }

  /** An outcome row for the order exists; the table holds payment.success and payment.fail rows only. */
  predicate Handled(outbox: seq<Row>, order: Id) {
    exists i :: 0 <= i < |outbox| && outbox[i].event.orderId == order
  }

  /** The first transaction: charge the customer and record the success, unless an outcome exists. */
  function Deduct(db: Db, user: Id, amount: real, order: Id, now: int, dbFails: bool): (Db, Result<(), TxError>) {
    if amount <= 0.0 then (db, Err(Insufficient(InsufficientBalance(0.0, amount))))
    else if dbFails then (db, Err(DbFailure))
    else if user !in db.users then (db, Err(Insufficient(InsufficientBalance(0.0, amount))))
    else if Handled(db.outbox, order) then (db, Ok(()))
    else if db.users[user] < amount then (db, Err(Insufficient(InsufficientBalance(db.users[user], amount))))
    else (Db(db.users[user := db.users[user] - amount], db.outbox + [NewRow(PaymentSuccess(order), now)]), Ok(()))
  }

  /** The second transaction: record the failure, unless an outcome exists. */
  function RecordFailure(db: Db, order: Id, reason: ErrorMessage, now: int, dbFails: bool): (Db, Result<(), TxError>) {
    if dbFails then (db, Err(DbFailure))
    else if Handled(db.outbox, order) then (db, Ok(()))
    else (db.(outbox := db.outbox + [NewRow(PaymentFailed(order, reason), now)]), Ok(()))
  }

  /** One undisturbed delivery of a stock success; the flag says whether the handler reaches its commit. */
  function HandleStockSuccess(db: Db, invoice: Option<Invoice>, order: Id, now: int, fails1: bool, fails2: bool): (Db, bool) {
    match invoice
    case None => (db, false)
    case Some(Invoice(customer, total)) =>
      var (db1, r1) := Deduct(db, customer, total, order, now, fails1);
      match r1
      case Ok(_) => (db1, true)
      case Err(DbFailure) => (db1, false)
      case Err(Insufficient(reason)) =>
        var (db2, r2) := RecordFailure(db1, order, reason, now, fails2);
        (db2, r2.Ok?)
  }

  class UsersService {
    var users: map<Id, real>
    var outbox: seq<Row>

    constructor (users: map<Id, real>)
      ensures State() == Db(users, [])
    {
      this.users, outbox := users, [];
    }

    function State(): Db
      reads this
    {
      Db(users, outbox)
    }

    /** A serializable transaction: an exception leaves the tables as they were. */
    method DecreaseWalletAndEnqueuePaymentSuccess(userId: Id, amount: real, orderId: Id, now: int, dbFails: bool)
      returns (r: Result<(), TxError>)
      modifies this
      ensures (State(), r) == Deduct(old(State()), userId, amount, orderId, now, dbFails)
    {
      if amount <= 0.0 { return Err(Insufficient(InsufficientBalance(0.0, amount))); }
      if dbFails { return Err(DbFailure); }
      if userId !in users { return Err(Insufficient(InsufficientBalance(0.0, amount))); }
      var wallet := users[userId];
      var paymentAlreadyHandled := AlreadyHandled(orderId);
      if paymentAlreadyHandled { return Ok(()); }
      if wallet < amount { return Err(Insufficient(InsufficientBalance(wallet, amount))); }
      wallet := wallet - amount;
      users := users[userId := wallet];
      outbox := outbox + [NewRow(PaymentSuccess(orderId), now)];
      return Ok(());
    }

    method AlreadyHandled(orderId: Id) returns (r: bool)
      ensures r == Handled(outbox, orderId)
    {
      r := exists i :: 0 <= i < |outbox| && outbox[i].event.orderId == orderId;
    }

    method EnqueuePaymentFailed(orderId: Id, reason: ErrorMessage, now: int, dbFails: bool) returns (r: Result<(), TxError>)
      modifies this
      ensures (State(), r) == RecordFailure(old(State()), orderId, reason, now, dbFails)
    {
      if dbFails { return Err(DbFailure); }
      var paymentAlreadyHandled := AlreadyHandled(orderId);
      if paymentAlreadyHandled { return Ok(()); }
      outbox := outbox + [NewRow(PaymentFailed(orderId, reason), now)];
      return Ok(());
    }

    /** UserConsumer.OnStockReduceSuccess: `order` is GetOrder's answer, None if it throws. */
    method OnStockReduceSuccess(order: Option<Invoice>, orderId: Id, now: int, fails1: bool, fails2: bool)
      returns (commits: bool)
      modifies this
      ensures (State(), commits) == HandleStockSuccess(old(State()), order, orderId, now, fails1, fails2)
    {
      if order.None? { return false; }
      var charged := DecreaseWalletAndEnqueuePaymentSuccess(order.value.customer, order.value.total, orderId, now, fails1);
      match charged {
        case Ok(_) => return true;
        case Err(DbFailure) => return false;
        case Err(Insufficient(reason)) =>
          var recorded := EnqueuePaymentFailed(orderId, reason, now, fails2);
          return recorded.Ok?;
      }
    }

    /** ChangePassword writes back a fresh user record whose wallet is the default. */
    method ChangePassword(userId: Id, passwordMatches: bool) returns (ok: bool)
      modifies this
      ensures State() == if ok then PasswordChanged(old(State()), userId) else old(State())
      ensures ok <==> userId in old(users) && passwordMatches
    {
      if userId !in users || !passwordMatches { return false; }
      users := users[userId := 0.0];
      return true;
    }
  }

  // ---------------------------------------------------------------- what one delivery does

  /** The first transaction ends without an exception. */
  predicate Payable(db: Db, invoice: Invoice, order: Id) {
    invoice.customer in db.users && (Handled(db.outbox, order) || db.users[invoice.customer] >= invoice.total)
  }

  /** Every amount, user and balance: a delivery that reaches its commit leaves an outcome row for its order. */
  lemma {:induction false} CommittedMeansHandled(db: Db, invoice: Option<Invoice>, order: Id, now: int, fails1: bool, fails2: bool)
    ensures var (db', commits) := HandleStockSuccess(db, invoice, order, now, fails1, fails2);
      && (commits ==> Handled(db'.outbox, order))
      && (!commits ==> db' == db)
      && (commits <==>
            (invoice.Some? &&
             (if invoice.value.total <= 0.0 then !fails2
              else !fails1 && (Payable(db, invoice.value, order) || !fails2))))
  {
    var (db', commits) := HandleStockSuccess(db, invoice, order, now, fails1, fails2);
    if db'.outbox != db.outbox {
      assert db'.outbox[|db.outbox|].event.orderId == order;
    }
  }

  /** What one delivery without database failures does to an order that has no outcome yet: the customer pays the
      total and a pending success row is added, or nobody pays and a pending failure row reports the balance found. */
  lemma {:induction false} FreshDelivery(db: Db, invoice: Invoice, order: Id, now: int)
    requires !Handled(db.outbox, order)
    ensures var (db', commits) := HandleStockSuccess(db, Some(invoice), order, now, false, false);
      var Invoice(user, total) := invoice;
      var paid := user in db.users && total > 0.0 && db.users[user] >= total;
      var found := if user in db.users && total > 0.0 then db.users[user] else 0.0;
      && commits
      && db'.users == (if paid then db.users[user := db.users[user] - total] else db.users)
      && |db'.outbox| == |db.outbox| + 1 && db'.outbox[..|db.outbox|] == db.outbox
      && var row := db'.outbox[|db.outbox|];
         && row.event == (if paid then PaymentSuccess(order) else PaymentFailed(order, InsufficientBalance(found, total)))
         && row.status == Pending && row.attempts == 0 && row.lastError == None && row.createdAt == now && row.updatedAt == now
  {
  }

  /** Once an order has its outcome row, further deliveries change nothing. */
  lemma {:induction false} HandledIsFinal(db: Db, invoice: Option<Invoice>, order: Id, now: int, fails1: bool, fails2: bool)
    requires Handled(db.outbox, order)
    ensures HandleStockSuccess(db, invoice, order, now, fails1, fails2).0 == db
  {
  }

  /** An outcome is found by the order id as it is spelled in the stock message: two spellings that GetOrder
      resolves to one order are charged as two exactly when the wallet affords both. */
  lemma {:induction false} SpellingsAreChargedSeparately(db: Db, invoice: Invoice, a: Id, b: Id, now: int)
    requires invoice.customer in db.users && invoice.total > 0.0
    requires !Handled(db.outbox, a) && !Handled(db.outbox, b)
    ensures var db1 := HandleStockSuccess(db, Some(invoice), a, now, false, false).0;
      var db2 := HandleStockSuccess(db1, Some(invoice), b, now, false, false).0;
      var chargedTwice := db2.users[invoice.customer] == db.users[invoice.customer] - 2.0 * invoice.total;
      chargedTwice <==> a != b && db.users[invoice.customer] >= 2.0 * invoice.total
  {
    var db1 := HandleStockSuccess(db, Some(invoice), a, now, false, false).0;
    assert db1.outbox[|db.outbox|].event.orderId == a;
    assert Handled(db1.outbox, b) <==> a == b;
  }

  // ---------------------------------------------------------------- replay

  datatype Delivery = Delivery(order: Id, now: int, fails1: bool, fails2: bool)

  function InvoiceOf(invoices: map<Id, Invoice>, order: Id): Option<Invoice> {
    if order in invoices then Some(invoices[order]) else None
  }

  function Deliver(db: Db, invoices: map<Id, Invoice>, d: Delivery): Db {
    HandleStockSuccess(db, InvoiceOf(invoices, d.order), d.order, d.now, d.fails1, d.fails2).0
  }

  function DeliverAll(db: Db, invoices: map<Id, Invoice>, ds: seq<Delivery>): Db
    decreases |ds|
  {
    if ds == [] then db else DeliverAll(Deliver(db, invoices, ds[0]), invoices, ds[1..])
  }

  predicate Undisturbed(d: Delivery) {
    !d.fails1 && !d.fails2
  }

  /** Keeps the deliveries of each order up to its first undisturbed one; without failures, the first of each order. */
  function Firsts(ds: seq<Delivery>, seen: set<Id>): seq<Delivery>
    decreases |ds|
  {
    if ds == [] then []
    else if ds[0].order in seen then Firsts(ds[1..], seen)
    else [ds[0]] + Firsts(ds[1..], if Undisturbed(ds[0]) then seen + {ds[0].order} else seen)
  }

  ghost predicate Settled(db: Db, invoices: map<Id, Invoice>, order: Id) {
    order in invoices ==> Handled(db.outbox, order)
  }

  lemma {:induction false} DeliverKeepsSettled(db: Db, invoices: map<Id, Invoice>, d: Delivery, order: Id)
    requires Settled(db, invoices, order) || (order == d.order && Undisturbed(d))
    ensures Settled(Deliver(db, invoices, d), invoices, order)
  {
    var db' := Deliver(db, invoices, d);
    assert db.outbox <= db'.outbox;
    if order in invoices {
      if Settled(db, invoices, order) {
        var i :| 0 <= i < |db.outbox| && db.outbox[i].event.orderId == order;
        assert db'.outbox[i].event.orderId == order;
      } else {
        CommittedMeansHandled(db, InvoiceOf(invoices, order), order, d.now, d.fails1, d.fails2);
      }
    }
  }

  /** Replaying deliveries, in any order and number, gives the same users and outbox as dropping the duplicates. */
  lemma {:induction false} ReplayRefinement(db: Db, invoices: map<Id, Invoice>, ds: seq<Delivery>, seen: set<Id>)
    requires forall order :: order in seen ==> Settled(db, invoices, order)
    ensures DeliverAll(db, invoices, ds) == DeliverAll(db, invoices, Firsts(ds, seen))
    decreases |ds|
  {
    if ds != [] {
      var d, rest := ds[0], ds[1..];
      var db' := Deliver(db, invoices, d);
      if d.order in seen {
        if d.order in invoices {
          HandledIsFinal(db, InvoiceOf(invoices, d.order), d.order, d.now, d.fails1, d.fails2);
        }
        assert db' == db;
        ReplayRefinement(db, invoices, rest, seen);
      } else {
        var seen' := if Undisturbed(d) then seen + {d.order} else seen;
        forall order | order in seen' ensures Settled(db', invoices, order) {
          DeliverKeepsSettled(db, invoices, d, order);
        }
        ReplayRefinement(db', invoices, rest, seen');
        var kept := Firsts(rest, seen');
        assert ([d] + kept)[0] == d && ([d] + kept)[1..] == kept;
      }
    }
  }

  // ---------------------------------------------------------------- the ledger

  function WalletOf(users: map<Id, real>, user: Id): real {
    if user in users then users[user] else 0.0
  }

  /** What an outcome row costs a user. */
  function Price(e: PaymentEvent, invoices: map<Id, Invoice>, user: Id): real {
    if e.PaymentSuccess? && e.orderId in invoices && invoices[e.orderId].customer == user
    then invoices[e.orderId].total else 0.0
  }

  /** Sum of the totals of a user's orders that have a payment.success row. */
  function Spent(events: seq<PaymentEvent>, invoices: map<Id, Invoice>, user: Id): real {
    if events == [] then 0.0
    else Spent(events[..|events| - 1], invoices, user) + Price(events[|events| - 1], invoices, user)
  }

  lemma SpentAppend(events: seq<PaymentEvent>, e: PaymentEvent, invoices: map<Id, Invoice>, user: Id)
    ensures Spent(events + [e], invoices, user) == Spent(events, invoices, user) + Price(e, invoices, user)
  {
    assert (events + [e])[..|events|] == events;
  }

  /** New orders do not change what was spent on the old ones. */
  lemma {:induction false} SpentStable(events: seq<PaymentEvent>, invoices: map<Id, Invoice>, invoices': map<Id, Invoice>, user: Id)
    requires forall i :: 0 <= i < |events| ==> events[i].orderId in invoices
    requires forall order :: order in invoices ==> order in invoices' && invoices'[order] == invoices[order]
    ensures Spent(events, invoices', user) == Spent(events, invoices, user)
  {
    if events != [] {
      SpentStable(events[..|events| - 1], invoices, invoices', user);
    }
  }

  /** Both transactions move money only from the wallet into the sum of paid orders. */
  lemma {:induction false} DeductConserves(db: Db, invoices: map<Id, Invoice>, order: Id, now: int, dbFails: bool, user: Id)
    requires order in invoices
    ensures var db' := Deduct(db, invoices[order].customer, invoices[order].total, order, now, dbFails).0;
      WalletOf(db'.users, user) + Spent(Events(db'.outbox), invoices, user)
        == WalletOf(db.users, user) + Spent(Events(db.outbox), invoices, user)
  {
    var db' := Deduct(db, invoices[order].customer, invoices[order].total, order, now, dbFails).0;
    if db' != db {
      assert Events(db'.outbox) == Events(db.outbox) + [PaymentSuccess(order)];
      SpentAppend(Events(db.outbox), PaymentSuccess(order), invoices, user);
    }
  }

  lemma {:induction false} RecordFailureConserves(db: Db, invoices: map<Id, Invoice>, order: Id, reason: ErrorMessage, now: int, dbFails: bool, user: Id)
    ensures var db' := RecordFailure(db, order, reason, now, dbFails).0;
      db'.users == db.users && Spent(Events(db'.outbox), invoices, user) == Spent(Events(db.outbox), invoices, user)
  {
    var db' := RecordFailure(db, order, reason, now, dbFails).0;
    if db' != db {
      assert Events(db'.outbox) == Events(db.outbox) + [PaymentFailed(order, reason)];
      SpentAppend(Events(db.outbox), PaymentFailed(order, reason), invoices, user);
    }
  }

  function PasswordChanged(db: Db, user: Id): Db {
    db.(users := db.users[user := 0.0])
  }
}
