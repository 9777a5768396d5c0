/** The wallet service's outbox table and its dispatcher (asp-user/Outbox). */
module PaymentOutbox {
  import opened Common
  import opened Messages
  import opened Batches

  datatype Status = Pending | Sent | Failed

  datatype Row = Row(
    event: PaymentEvent,
    createdAt: int,
    updatedAt: int,
    status: Status,
    attempts: nat,
    lastError: Option<string>)

  function NewRow(event: PaymentEvent, now: int): Row {
    Row(event, now, now, Pending, 0, None)
  }

  datatype Options = Options(batchSize: nat, retryBackoff: int, maxAttempts: int)

  /** A publish call is acknowledged, or it throws; a call that throws may still have reached the broker. */
  datatype PublishOutcome = Acked | Raised(error: string, reached: bool)

  predicate Eligible(o: Options, now: int, row: Row) {
    || row.status == Pending
    || (row.status == Failed && row.attempts < o.maxAttempts && row.updatedAt <= now - o.retryBackoff)
  }

  ghost function EligibleRows(o: Options, now: int, rows: seq<Row>): set<nat> {
    set i: nat | i < |rows| && Eligible(o, now, rows[i])
  }

  ghost function CreatedTimes(rows: seq<Row>): seq<int> {
    seq(|rows|, i requires 0 <= i < |rows| => rows[i].createdAt)
  }

  ghost predicate IsBatch(o: Options, now: int, rows: seq<Row>, batch: seq<nat>) {
    OldestFirst(CreatedTimes(rows), EligibleRows(o, now, rows), o.batchSize, batch)
  }

  lemma IsBatchInRange(o: Options, now: int, rows: seq<Row>, batch: seq<nat>)
    requires IsBatch(o, now, rows, batch)
    ensures NoDup(batch)
    ensures forall k :: 0 <= k < |batch| ==> batch[k] < |rows| && Eligible(o, now, rows[batch[k]])
  {
    forall k | 0 <= k < |batch|
      ensures batch[k] < |rows| && Eligible(o, now, rows[batch[k]])
    {
      assert batch[k] in EligibleRows(o, now, rows);
    }
  }

  function Attempted(row: Row, outcome: PublishOutcome, saveTime: int): Row {
    var tried := row.(attempts := row.attempts + 1, updatedAt := saveTime);
    match outcome
    case Acked => tried.(status := Sent, lastError := None)
    case Raised(error, _) => tried.(status := Failed, lastError := Some(error))
  }

  function Dispatched(rows: seq<Row>, batch: seq<nat>, outcomes: seq<PublishOutcome>, saveTime: int): (r: seq<Row>)
    requires |outcomes| == |batch|
    requires forall k :: 0 <= k < |batch| ==> batch[k] < |rows|
    ensures |r| == |rows|
  {
    if batch == [] then rows
    else
      var n := |batch| - 1;
      var prev := Dispatched(rows, batch[..n], outcomes[..n], saveTime);
      prev[batch[n] := Attempted(prev[batch[n]], outcomes[n], saveTime)]
  }

  /** The events that reached the broker, in publishing order. */
  function Reached(rows: seq<Row>, batch: seq<nat>, outcomes: seq<PublishOutcome>): seq<PaymentEvent>
    requires |outcomes| == |batch|
    requires forall k :: 0 <= k < |batch| ==> batch[k] < |rows|
  {
    if batch == [] then []
    else
      var n := |batch| - 1;
      Reached(rows, batch[..n], outcomes[..n]) +
      if outcomes[n].Acked? || outcomes[n].reached then [rows[batch[n]].event] else []
  }

  /** `after` is `before` with one more attempt: Sent if the broker acknowledged it, Failed with the error otherwise. */
  ghost predicate OneAttempt(before: Row, after: Row, outcome: PublishOutcome, saveTime: int) {
    && after.attempts == before.attempts + 1
    && after.updatedAt == saveTime
    && (outcome.Acked? ==> after.status == Sent && after.lastError == None)
    && (outcome.Raised? ==> after.status == Failed && after.lastError == Some(outcome.error))
    && after.event == before.event && after.createdAt == before.createdAt
  }

  /** Each picked row is attempted exactly once with its own outcome; every other row is untouched. */
  ghost predicate EachAttempted(rows: seq<Row>, after: seq<Row>, batch: seq<nat>, outcomes: seq<PublishOutcome>, saveTime: int)
    requires |outcomes| == |batch| && |after| == |rows|
    requires forall k :: 0 <= k < |batch| ==> batch[k] < |rows|
  {
    && (forall k :: 0 <= k < |batch| ==> OneAttempt(rows[batch[k]], after[batch[k]], outcomes[k], saveTime))
    && (forall i :: 0 <= i < |rows| && i !in batch ==> after[i] == rows[i])
  }

  lemma {:induction false} DispatchedRows(rows: seq<Row>, batch: seq<nat>, outcomes: seq<PublishOutcome>, saveTime: int)
    requires |outcomes| == |batch| && NoDup(batch)
    requires forall k :: 0 <= k < |batch| ==> batch[k] < |rows|
    ensures EachAttempted(rows, Dispatched(rows, batch, outcomes, saveTime), batch, outcomes, saveTime)
  {
    var after := Dispatched(rows, batch, outcomes, saveTime);
    forall k | 0 <= k < |batch|
      ensures OneAttempt(rows[batch[k]], after[batch[k]], outcomes[k], saveTime)
    {
      PickedRow(rows, batch, outcomes, saveTime, k);
    }
    forall i | 0 <= i < |rows| && i !in batch
      ensures after[i] == rows[i]
    {
      OtherRow(rows, batch, outcomes, saveTime, i);
    }
  }

  lemma {:induction false} OtherRow(rows: seq<Row>, batch: seq<nat>, outcomes: seq<PublishOutcome>, saveTime: int, i: nat)
    requires |outcomes| == |batch| && i < |rows| && i !in batch
    requires forall k :: 0 <= k < |batch| ==> batch[k] < |rows|
    ensures Dispatched(rows, batch, outcomes, saveTime)[i] == rows[i]
  {
    if batch != [] {
      OtherRow(rows, batch[..|batch| - 1], outcomes[..|batch| - 1], saveTime, i);
    }
  }

  lemma {:induction false} PickedRow(rows: seq<Row>, batch: seq<nat>, outcomes: seq<PublishOutcome>, saveTime: int, k: nat)
    requires |outcomes| == |batch| && k < |batch| && NoDup(batch)
    requires forall k :: 0 <= k < |batch| ==> batch[k] < |rows|
    ensures Dispatched(rows, batch, outcomes, saveTime)[batch[k]] == Attempted(rows[batch[k]], outcomes[k], saveTime)
  {
    var n := |batch| - 1;
    if k == n {
      OtherRow(rows, batch[..n], outcomes[..n], saveTime, batch[n]);
    } else {
      assert batch[k] != batch[n];
      PickedRow(rows, batch[..n], outcomes[..n], saveTime, k);
    }
  }

  /** A row that a poll, of any rows at all, turns to Sent has reached the broker. */
  lemma {:induction false} SentReached(rows: seq<Row>, batch: seq<nat>, outcomes: seq<PublishOutcome>, saveTime: int, i: nat)
    requires |outcomes| == |batch| && i < |rows|
    requires forall k :: 0 <= k < |batch| ==> batch[k] < |rows|
    ensures Dispatched(rows, batch, outcomes, saveTime)[i].event == rows[i].event
    ensures Dispatched(rows, batch, outcomes, saveTime)[i].status == Sent && rows[i].status != Sent ==>
      rows[i].event in Reached(rows, batch, outcomes)
  {
    if batch != [] {
      SentReached(rows, batch[..|batch| - 1], outcomes[..|batch| - 1], saveTime, i);
    }
  }

  /** The broker holds exactly the acknowledged and the silently delivered events of the batch. */
  lemma {:induction false} ReachedEvents(rows: seq<Row>, batch: seq<nat>, outcomes: seq<PublishOutcome>, e: PaymentEvent)
    requires |outcomes| == |batch|
    requires forall k :: 0 <= k < |batch| ==> batch[k] < |rows|
    ensures e in Reached(rows, batch, outcomes) <==>
      exists k :: 0 <= k < |batch| && rows[batch[k]].event == e && (outcomes[k].Acked? || outcomes[k].reached)
  {
    if batch != [] {
      var n := |batch| - 1;
      ReachedEvents(rows, batch[..n], outcomes[..n], e);
      if k :| 0 <= k < |batch| && rows[batch[k]].event == e && (outcomes[k].Acked? || outcomes[k].reached) {
        if k < n {
          assert batch[..n][k] == batch[k] && outcomes[..n][k] == outcomes[k];
        }
      }
      if k :| 0 <= k < n && rows[batch[..n][k]].event == e && (outcomes[..n][k].Acked? || outcomes[..n][k].reached) {
        assert batch[..n][k] == batch[k] && outcomes[..n][k] == outcomes[k];
      }
    }
  }

  /** OutboxDispatchService: one call of DispatchBatch is one poll.
      `batch` is the answer of the query, `outcomes` the results of the publish calls that were made
      (fewer than the batch if the process stops half way), and `saved` says whether SaveChanges succeeded. */
  class DispatchService {
    const options: Options
    var rows: seq<Row>
    var broker: seq<PaymentEvent>

    constructor (options: Options)
      ensures this.options == options && rows == [] && broker == []
    {
      this.options := options;
      rows, broker := [], [];
    }

    method DispatchBatch(ghost now: int, batch: seq<nat>, outcomes: seq<PublishOutcome>, saveTime: int, saved: bool)
      returns (r: Result<nat, ()>)
      requires IsBatch(options, now, rows, batch)
      requires |outcomes| <= |batch| && (saved ==> |outcomes| == |batch|)
      modifies this
      ensures forall k :: 0 <= k < |batch| ==> batch[k] < |old(rows)|
      ensures broker == old(broker) + Reached(old(rows), batch[..|outcomes|], outcomes)
      ensures rows == if saved then Dispatched(old(rows), batch, outcomes, saveTime) else old(rows)
      ensures saved ==> EachAttempted(old(rows), rows, batch, outcomes, saveTime)
      ensures r == if batch == [] || saved then Ok(|batch|) else Err(())
    {
      hide IsBatch, EachAttempted;
      IsBatchInRange(options, now, rows, batch);
      if |batch| == 0 {
        if saved { DispatchedRows(rows, batch, outcomes, saveTime); }
        return Ok(0);
      }
      var tracked := rows;
      var n := 0;
      while n < |outcomes|
        invariant 0 <= n <= |outcomes|
        invariant rows == old(rows) && |tracked| == |rows|
        invariant tracked == Dispatched(rows, batch[..n], outcomes[..n], saveTime)
        invariant broker == old(broker) + Reached(rows, batch[..n], outcomes[..n])
      {
        assert batch[..n + 1][..n] == batch[..n] && outcomes[..n + 1][..n] == outcomes[..n];
        var message := tracked[batch[n]].(attempts := tracked[batch[n]].attempts + 1, updatedAt := saveTime);
        match outcomes[n] {
          case Acked =>
            broker := broker + [rows[batch[n]].event];
            message := message.(status := Sent, lastError := None);
          case Raised(error, reached) =>
            if reached {
              broker := broker + [rows[batch[n]].event];
            }
            message := message.(status := Failed, lastError := Some(error));
        }
        tracked := tracked[batch[n] := message];
        n := n + 1;
      }
      assert batch[..n] == batch[..|outcomes|] && outcomes[..n] == outcomes;
      if !saved {
        return Err(());
      }
      assert batch[..n] == batch;
      DispatchedRows(rows, batch, outcomes, saveTime);
      rows := tracked;
      return Ok(|batch|);
    }
  }

  // ---------------------------------------------------------------- runs

  datatype Table = Table(rows: seq<Row>, broker: set<PaymentEvent>)

  datatype Step =
    | Add(event: PaymentEvent, createdAt: int)
    | Poll(now: int, batch: seq<nat>, outcomes: seq<PublishOutcome>, saveTime: int, saved: bool)

  ghost predicate Enabled(o: Options, t: Table, s: Step) {
    s.Poll? ==>
      && IsBatch(o, s.now, t.rows, s.batch)
      && |s.outcomes| <= |s.batch|
      && (s.saved ==> |s.outcomes| == |s.batch|)
  }

  /** A step that is not enabled leaves the table as it is. */
  ghost function Apply(o: Options, t: Table, s: Step): Table {
    if !Enabled(o, t, s) then t
    else match s
      case Add(event, createdAt) => t.(rows := t.rows + [NewRow(event, createdAt)])
      case Poll(now, batch, outcomes, saveTime, saved) =>
        IsBatchInRange(o, now, t.rows, batch);
        Table(if saved then Dispatched(t.rows, batch, outcomes, saveTime) else t.rows,
              t.broker + Elements(Reached(t.rows, batch[..|outcomes|], outcomes)))
  }

  ghost function Run(o: Options, t: Table, steps: seq<Step>): Table
    decreases |steps|
  {
    if steps == [] then t else Run(o, Apply(o, t, steps[0]), steps[1..])
  }

  function Budget(o: Options): nat {
    if o.maxAttempts <= 1 then 1 else o.maxAttempts
  }

  ghost predicate RowOk(o: Options, broker: set<PaymentEvent>, row: Row) {
    && (row.status == Pending <==> row.attempts == 0)
    && (row.attempts <= 1 || row.attempts <= o.maxAttempts)
    && (row.status == Sent ==> row.event in broker)
  }

  ghost predicate Inv(o: Options, t: Table) {
    forall i :: 0 <= i < |t.rows| ==> RowOk(o, t.broker, t.rows[i])
  }

  /** A saved poll that picks row i and whose publish call for it ends like this. */
  ghost predicate Tried(o: Options, t: Table, s: Step, i: nat, outcome: PublishOutcome) {
    s.Poll? && s.saved && Enabled(o, t, s) && exists k :: 0 <= k < |s.batch| && s.batch[k] == i && s.outcomes[k] == outcome
  }

  /** What a saved poll does to a row: nothing, or one attempt on a row that was due. */
  lemma {:induction false} SavedPollRow(o: Options, t: Table, s: Step, i: nat)
    requires s.Poll? && s.saved && Enabled(o, t, s) && i < |t.rows|
    ensures |Apply(o, t, s).rows| == |t.rows|
    ensures i !in s.batch ==> Apply(o, t, s).rows[i] == t.rows[i]
    ensures i in s.batch ==>
      && Eligible(o, s.now, t.rows[i])
      && exists outcome :: OneAttempt(t.rows[i], Apply(o, t, s).rows[i], outcome, s.saveTime)
           && Tried(o, t, s, i, outcome) && (outcome.Acked? ==> t.rows[i].event in Apply(o, t, s).broker)
  {
    IsBatchInRange(o, s.now, t.rows, s.batch);
    DispatchedRows(t.rows, s.batch, s.outcomes, s.saveTime);
    if i in s.batch {
      var k :| 0 <= k < |s.batch| && s.batch[k] == i;
      assert s.batch[..|s.outcomes|] == s.batch;
      ReachedEvents(t.rows, s.batch, s.outcomes, t.rows[i].event);
      assert OneAttempt(t.rows[i], Apply(o, t, s).rows[i], s.outcomes[k], s.saveTime) && Tried(o, t, s, i, s.outcomes[k]);
    }
  }

  /** Each row is tried at most once in a poll. */
  lemma {:induction false} TriedOnce(o: Options, t: Table, s: Step, i: nat, outcome: PublishOutcome)
    requires Tried(o, t, s, i, outcome)
    ensures i < |t.rows| && i in s.batch && OneAttempt(t.rows[i], Apply(o, t, s).rows[i], outcome, s.saveTime)
  {
    IsBatchInRange(o, s.now, t.rows, s.batch);
    DispatchedRows(t.rows, s.batch, s.outcomes, s.saveTime);
  }

  lemma {:induction false} ApplyKeepsInv(o: Options, t: Table, s: Step)
    requires Inv(o, t)
    ensures Inv(o, Apply(o, t, s))
  {
    if s.Poll? && s.saved && Enabled(o, t, s) {
      forall i | 0 <= i < |t.rows|
        ensures RowOk(o, Apply(o, t, s).broker, Apply(o, t, s).rows[i])
      {
        SavedPollRow(o, t, s, i);
      }
    }
  }

  /** In every run, saved rows are Pending exactly when never attempted, a Sent row was published,
      and no row is attempted more often than the larger of once and maxAttempts. */
  lemma {:induction false} DispatcherInvariant(o: Options, t: Table, steps: seq<Step>)
    requires Inv(o, t)
    ensures Inv(o, Run(o, t, steps))
    decreases |steps|
  {
    if steps != [] {
      ApplyKeepsInv(o, t, steps[0]);
      DispatcherInvariant(o, Apply(o, t, steps[0]), steps[1..]);
    }
  }

  /** A Sent row is never picked again: the rest of the run leaves it exactly as it is. */
  lemma {:induction false} SentIsFinal(o: Options, t: Table, steps: seq<Step>, i: nat)
    requires i < |t.rows| && t.rows[i].status == Sent
    ensures i < |Run(o, t, steps).rows| && Run(o, t, steps).rows[i] == t.rows[i]
    decreases |steps|
  {
    if steps != [] {
      var s := steps[0];
      if s.Poll? && s.saved && Enabled(o, t, s) {
        SavedPollRow(o, t, s, i);
      }
      SentIsFinal(o, Apply(o, t, s), steps[1..], i);
    }
  }

  /** A saved poll whose publish call for row i was acknowledged. */
  ghost predicate AckedBy(o: Options, t: Table, s: Step, i: nat) {
    Tried(o, t, s, i, Acked)
  }

  /** A saved poll that picks row i, whatever becomes of it. */
  ghost predicate PickedBy(o: Options, t: Table, s: Step, i: nat) {
    s.Poll? && s.saved && Enabled(o, t, s) && i in s.batch
  }

  ghost predicate EverAcked(o: Options, t: Table, steps: seq<Step>, i: nat)
    decreases |steps|
  {
    steps != [] && (AckedBy(o, t, steps[0], i) || EverAcked(o, Apply(o, t, steps[0]), steps[1..], i))
  }

  ghost function Picks(o: Options, t: Table, steps: seq<Step>, i: nat): nat
    decreases |steps|
  {
    if steps == [] then 0
    else (if PickedBy(o, t, steps[0], i) then 1 else 0) + Picks(o, Apply(o, t, steps[0]), steps[1..], i)
  }

  lemma {:induction false} StepKeepsRow(o: Options, t: Table, s: Step, i: nat)
    ensures |t.rows| <= |Apply(o, t, s).rows| && (PickedBy(o, t, s, i) || AckedBy(o, t, s, i) ==> i < |t.rows|)
    ensures i < |t.rows| ==>
      && Apply(o, t, s).rows[i].attempts == t.rows[i].attempts + (if PickedBy(o, t, s, i) then 1 else 0)
      && (Apply(o, t, s).rows[i].status == Sent <==> t.rows[i].status == Sent || AckedBy(o, t, s, i))
    ensures i >= |t.rows| && i < |Apply(o, t, s).rows| ==>
      Apply(o, t, s).rows[i].status == Pending && Apply(o, t, s).rows[i].attempts == 0
  {
    if s.Poll? && s.saved && Enabled(o, t, s) {
      IsBatchInRange(o, s.now, t.rows, s.batch);
      if i < |t.rows| {
        SavedPollRow(o, t, s, i);
        if AckedBy(o, t, s, i) {
          TriedOnce(o, t, s, i, Acked);
        }
      }
    }
  }

  /** Over any run a row is Sent exactly if it was at the start or a saved poll had its publish call acknowledged,
      and its counter grows by the number of saved polls that picked it. Rows added on the way start from zero. */
  lemma {:induction false} SentIffAcked(o: Options, t: Table, steps: seq<Step>, i: nat)
    ensures |t.rows| <= |Run(o, t, steps).rows|
    ensures i < |Run(o, t, steps).rows| ==>
      && (Run(o, t, steps).rows[i].status == Sent <==> (i < |t.rows| && t.rows[i].status == Sent) || EverAcked(o, t, steps, i))
      && Run(o, t, steps).rows[i].attempts == (if i < |t.rows| then t.rows[i].attempts else 0) + Picks(o, t, steps, i)
    decreases |steps|
  {
    if steps != [] {
      StepKeepsRow(o, t, steps[0], i);
      SentIffAcked(o, Apply(o, t, steps[0]), steps[1..], i);
    }
  }

  /** When a row is due after it was picked by a saved poll: never if acknowledged; otherwise once the backoff since
      that save has passed, as long as attempts are left. A row never picked is due at any time. */
  lemma {:induction false} DueAfterAttempt(o: Options, t: Table, s: Step, i: nat, outcome: PublishOutcome, now: int)
    requires Tried(o, t, s, i, outcome)
    ensures i in EligibleRows(o, now, Apply(o, t, s).rows) <==>
      (outcome.Raised? && t.rows[i].attempts + 1 < o.maxAttempts && now >= s.saveTime + o.retryBackoff)
    ensures t.rows[i].status == Pending ==> i in EligibleRows(o, now, t.rows)
  {
    TriedOnce(o, t, s, i, outcome);
    IsBatchInRange(o, s.now, t.rows, s.batch);
  }

  // ---------------------------------------------------------------- bounds on retry

  /** How many more times the dispatcher may pick this row. */
  function Remaining(o: Options, row: Row): nat {
    match row.status
    case Sent => 0
    case Pending => Budget(o)
    case Failed => if row.attempts < o.maxAttempts then o.maxAttempts - row.attempts else 0
  }

  ghost function AllRemaining(o: Options, rows: seq<Row>): (r: seq<nat>)
    ensures |r| == |rows|
  {
    seq(|rows|, i requires 0 <= i < |rows| => Remaining(o, rows[i]))
  }

  /** Remaining attempts of the other rows created no later than row w. */
  ghost function OlderRemaining(o: Options, rows: seq<Row>, w: nat): (r: seq<nat>)
    requires w < |rows|
    ensures |r| == |rows|
  {
    seq(|rows|, i requires 0 <= i < |rows| =>
      if i != w && rows[i].createdAt <= rows[w].createdAt then Remaining(o, rows[i]) else 0)
  }

  lemma {:induction false} AttemptCosts(o: Options, now: int, row: Row, after: Row, outcome: PublishOutcome, saveTime: int)
    requires row.status == Pending <==> row.attempts == 0
    requires Eligible(o, now, row) && OneAttempt(row, after, outcome, saveTime)
    ensures Remaining(o, after) < Remaining(o, row)
  {
  }

  lemma {:induction false} SavedPollDrains(o: Options, t: Table, s: Step)
    requires Inv(o, t) && s.Poll? && s.saved && Enabled(o, t, s)
    ensures Sum(AllRemaining(o, Apply(o, t, s).rows)) + |s.batch| <= Sum(AllRemaining(o, t.rows))
  {
    IsBatchInRange(o, s.now, t.rows, s.batch);
    var t' := Apply(o, t, s);
    forall i | 0 <= i < |t.rows|
      ensures |t'.rows| == |t.rows|
      ensures Remaining(o, t'.rows[i]) <= Remaining(o, t.rows[i])
      ensures i in s.batch ==> Remaining(o, t'.rows[i]) < Remaining(o, t.rows[i])
    {
      SavedPollRow(o, t, s, i);
      if i in s.batch {
        var outcome :| OneAttempt(t.rows[i], t'.rows[i], outcome, s.saveTime);
        AttemptCosts(o, s.now, t.rows[i], t'.rows[i], outcome, s.saveTime);
      }
    }
    SumDrop(AllRemaining(o, t.rows), AllRemaining(o, t'.rows), s.batch);
  }

  /** The count that a saved poll returns; a crashed poll returns nothing. */
  ghost function CountReturned(o: Options, t: Table, s: Step): nat {
    if s.Poll? && s.saved && Enabled(o, t, s) then |s.batch| else 0
  }

  ghost function Returned(o: Options, t: Table, steps: seq<Step>): nat
    decreases |steps|
  {
    if steps == [] then 0
    else CountReturned(o, t, steps[0]) + Returned(o, Apply(o, t, steps[0]), steps[1..])
  }

  ghost function NonEmptyPolls(o: Options, t: Table, steps: seq<Step>): nat
    decreases |steps|
  {
    if steps == [] then 0
    else
      (if CountReturned(o, t, steps[0]) > 0 then 1 else 0) + NonEmptyPolls(o, Apply(o, t, steps[0]), steps[1..])
  }

  function AddedBy(s: Step): nat {
    if s.Add? then 1 else 0
  }

  function Added(steps: seq<Step>): nat {
    if steps == [] then 0 else AddedBy(steps[0]) + Added(steps[1..])
  }

  lemma {:induction false} DrainStep(o: Options, t: Table, s: Step)
    requires Inv(o, t)
    ensures Sum(AllRemaining(o, Apply(o, t, s).rows)) + CountReturned(o, t, s)
         <= Sum(AllRemaining(o, t.rows)) + AddedBy(s) * Budget(o)
  {
    if s.Add? {
      assert AllRemaining(o, Apply(o, t, s).rows) == AllRemaining(o, t.rows) + [Budget(o)];
      SumAppend(AllRemaining(o, t.rows), Budget(o));
    } else if s.saved && Enabled(o, t, s) {
      SavedPollDrains(o, t, s);
    }
  }

  lemma Distribute(a: int, b: int, c: int)
    ensures (a + b) * c == a * c + b * c
  {
  }

  /** Over any run, crashed polls included, what the saved polls returned is paid for by the attempts that
      were left at the start and by the rows added meanwhile. Without additions only finitely many polls are non-empty. */
  lemma {:induction false} Drain(o: Options, t: Table, steps: seq<Step>)
    requires Inv(o, t)
    ensures Sum(AllRemaining(o, Run(o, t, steps).rows)) + Returned(o, t, steps)
         <= Sum(AllRemaining(o, t.rows)) + Added(steps) * Budget(o)
    ensures NonEmptyPolls(o, t, steps) <= Returned(o, t, steps)
    decreases |steps|
  {
    hide Inv, Apply, AllRemaining, CountReturned, Budget;
    if steps != [] {
      ApplyKeepsInv(o, t, steps[0]);
      DrainStep(o, t, steps[0]);
      Drain(o, Apply(o, t, steps[0]), steps[1..]);
      Distribute(AddedBy(steps[0]), Added(steps[1..]), Budget(o));
    }
  }

  /** A saved poll that finds row w Pending and leaves it out. */
  ghost predicate SkippedBy(o: Options, t: Table, s: Step, w: nat) {
    s.Poll? && s.saved && Enabled(o, t, s) && w < |t.rows| && t.rows[w].status == Pending && w !in s.batch
  }

  ghost function Skips(o: Options, t: Table, steps: seq<Step>, w: nat): nat
    decreases |steps|
  {
    if steps == [] then 0
    else (if SkippedBy(o, t, steps[0], w) then 1 else 0) + Skips(o, Apply(o, t, steps[0]), steps[1..], w)
  }

  lemma {:induction false} SkipIsPaid(o: Options, t: Table, s: Step, w: nat)
    requires Inv(o, t) && SkippedBy(o, t, s, w)
    ensures |Apply(o, t, s).rows| == |t.rows|
    ensures Apply(o, t, s).rows[w] == t.rows[w]
    ensures Sum(OlderRemaining(o, Apply(o, t, s).rows, w)) + o.batchSize <= Sum(OlderRemaining(o, t.rows, w))
  {
    IsBatchInRange(o, s.now, t.rows, s.batch);
    SkippedMeansFull(CreatedTimes(t.rows), EligibleRows(o, s.now, t.rows), o.batchSize, s.batch, w);
    SavedPollRow(o, t, s, w);
    var t' := Apply(o, t, s);
    forall i | 0 <= i < |t.rows|
      ensures t'.rows[i].createdAt == t.rows[i].createdAt
      ensures Remaining(o, t'.rows[i]) <= Remaining(o, t.rows[i])
      ensures i in s.batch ==> i != w && t.rows[i].createdAt <= t.rows[w].createdAt
      ensures i in s.batch ==> Remaining(o, t'.rows[i]) < Remaining(o, t.rows[i])
    {
      SavedPollRow(o, t, s, i);
      if i in s.batch {
        var outcome :| OneAttempt(t.rows[i], t'.rows[i], outcome, s.saveTime);
        AttemptCosts(o, s.now, t.rows[i], t'.rows[i], outcome, s.saveTime);
      }
    }
    SumDrop(OlderRemaining(o, t.rows, w), OlderRemaining(o, t'.rows, w), s.batch);
  }

  lemma {:induction false} SettledRowHasNoSkips(o: Options, t: Table, steps: seq<Step>, w: nat)
    requires w < |t.rows| && t.rows[w].status != Pending
    ensures Skips(o, t, steps, w) == 0
    decreases |steps|
  {
    if steps != [] {
      var s := steps[0];
      if s.Poll? && s.saved && Enabled(o, t, s) {
        SavedPollRow(o, t, s, w);
      }
      SettledRowHasNoSkips(o, Apply(o, t, s), steps[1..], w);
    }
  }

  /** Whether a step adds a row created no later than `time`. */
  function OlderAddedBy(s: Step, time: int): nat {
    if s.Add? && s.createdAt <= time then 1 else 0
  }

  function OlderAdded(steps: seq<Step>, time: int): nat {
    if steps == [] then 0 else OlderAddedBy(steps[0], time) + OlderAdded(steps[1..], time)
  }

  /** An added row brings its attempts along if it counts as older. */
  lemma {:induction false} AddedAttempts(o: Options, t: Table, s: Step, w: nat)
    requires s.Add? && w < |t.rows|
    ensures Apply(o, t, s).rows == t.rows + [NewRow(s.event, s.createdAt)]
    ensures Sum(OlderRemaining(o, Apply(o, t, s).rows, w))
      == Sum(OlderRemaining(o, t.rows, w)) + OlderAddedBy(s, t.rows[w].createdAt) * Budget(o)
  {
    var left := if s.createdAt <= t.rows[w].createdAt then Budget(o) else 0;
    assert OlderRemaining(o, Apply(o, t, s).rows, w) == OlderRemaining(o, t.rows, w) + [left];
    SumAppend(OlderRemaining(o, t.rows, w), left);
  }

  /** A step that does not skip w cannot raise the attempts left to the older rows, unless it adds one
      or is w's own attempt. */
  lemma {:induction false} OlderAttemptsDoNotGrow(o: Options, t: Table, s: Step, w: nat)
    requires Inv(o, t) && w < |t.rows| && t.rows[w].status == Pending
    requires !SkippedBy(o, t, s, w)
    ensures w < |Apply(o, t, s).rows|
    ensures Apply(o, t, s).rows[w].status == Pending ==>
      && Apply(o, t, s).rows[w] == t.rows[w]
      && Sum(OlderRemaining(o, Apply(o, t, s).rows, w))
           == Sum(OlderRemaining(o, t.rows, w)) + OlderAddedBy(s, t.rows[w].createdAt) * Budget(o)
  {
    hide OlderRemaining, Budget;
    if s.Add? {
      AddedAttempts(o, t, s, w);
    } else if s.saved && Enabled(o, t, s) {
      SavedPollRow(o, t, s, w);
    } else {
      assert Apply(o, t, s).rows == t.rows;
    }
  }

  lemma ProductNotNegative(a: nat, b: nat)
    ensures a * b >= 0
  {
  }

  /** Failing rows cannot starve a Pending row: each poll that skips it uses up a whole batch of attempts of
      rows created no later, counting those still to be added; newer rows arrive freely and polls may crash. */
  lemma {:induction false} BoundedWaiting(o: Options, t: Table, steps: seq<Step>, w: nat)
    requires Inv(o, t) && w < |t.rows| && t.rows[w].status == Pending
    ensures Skips(o, t, steps, w) * o.batchSize
         <= Sum(OlderRemaining(o, t.rows, w)) + OlderAdded(steps, t.rows[w].createdAt) * Budget(o)
    decreases |steps|
  {
    hide Inv, Apply, OlderRemaining, OlderAddedBy, Budget;
    if steps != [] {
      var s, rest, time := steps[0], steps[1..], t.rows[w].createdAt;
      var t' := Apply(o, t, s);
      ApplyKeepsInv(o, t, s);
      Distribute(OlderAddedBy(s, time), OlderAdded(rest, time), Budget(o));
      if SkippedBy(o, t, s, w) {
        SkipIsPaid(o, t, s, w);
        BoundedWaiting(o, t', rest, w);
        Distribute(1, Skips(o, t', rest, w), o.batchSize);
      } else {
        OlderAttemptsDoNotGrow(o, t, s, w);
        if t'.rows[w].status == Pending {
          BoundedWaiting(o, t', rest, w);
        } else {
          SettledRowHasNoSkips(o, t', rest, w);
          ProductNotNegative(OlderAdded(steps, time), Budget(o));
        }
      }
    }
  }
}
