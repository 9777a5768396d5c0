/** The order service's outbox dispatcher (golang-order-kratos/internal/worker/outbox.go). */
module OrderOutbox {
  import opened Common
  import opened Batches
  import opened OrderRepo

  /** What happens to one event of a flush. A publish call that fails may still have reached the broker. */
  datatype Outcome = PublishFailed(reached: bool) | MarkFailed | Marked

  ghost function Pending(outbox: seq<OutboxEvent>): set<nat> {
    set i: nat | i < |outbox| && !outbox[i].processed
  }

  ghost function CreatedTimes(outbox: seq<OutboxEvent>): seq<int> {
    seq(|outbox|, i requires 0 <= i < |outbox| => outbox[i].createdAt)
  }

  /** An answer of ListPendingOutbox. */
  ghost predicate IsBatch(limit: nat, outbox: seq<OutboxEvent>, batch: seq<nat>) {
    OldestFirst(CreatedTimes(outbox), Pending(outbox), limit, batch)
  }

  lemma IsBatchInRange(limit: nat, outbox: seq<OutboxEvent>, batch: seq<nat>)
    requires IsBatch(limit, outbox, batch)
    ensures NoDup(batch)
    ensures forall k :: 0 <= k < |batch| ==> batch[k] < |outbox| && !outbox[batch[k]].processed
  {
    forall k | 0 <= k < |batch|
      ensures batch[k] < |outbox| && !outbox[batch[k]].processed
    {
      assert batch[k] in Pending(outbox);
    }
  }

  function Flushed(outbox: seq<OutboxEvent>, batch: seq<nat>, outcomes: seq<Outcome>): (r: seq<OutboxEvent>)
    requires |outcomes| <= |batch|
    requires forall k :: 0 <= k < |batch| ==> batch[k] < |outbox|
    ensures |r| == |outbox|
  {
    if outcomes == [] then outbox
    else
      var n := |outcomes| - 1;
      var prev := Flushed(outbox, batch, outcomes[..n]);
      if outcomes[n].Marked? then prev[batch[n] := prev[batch[n]].(processed := true)] else prev
  }

  /** Positions of the events that reached the broker, in publishing order. */
  function Reached(batch: seq<nat>, outcomes: seq<Outcome>): seq<nat>
    requires |outcomes| <= |batch|
  {
    if outcomes == [] then []
    else
      var n := |outcomes| - 1;
      Reached(batch, outcomes[..n]) +
      if outcomes[n].PublishFailed? && !outcomes[n].reached then [] else [batch[n]]
  }

  /** A flush only ever sets the processed flag, and only of events that it published. */
  lemma {:induction false} FlushedRows(outbox: seq<OutboxEvent>, batch: seq<nat>, outcomes: seq<Outcome>)
    requires |outcomes| <= |batch|
    requires forall k :: 0 <= k < |batch| ==> batch[k] < |outbox|
    ensures forall i :: 0 <= i < |outbox| ==>
      && Flushed(outbox, batch, outcomes)[i] == outbox[i].(processed := Flushed(outbox, batch, outcomes)[i].processed)
      && (Flushed(outbox, batch, outcomes)[i].processed <==>
            (outbox[i].processed || exists k :: 0 <= k < |outcomes| && batch[k] == i && outcomes[k].Marked?))
      && (Flushed(outbox, batch, outcomes)[i].processed && !outbox[i].processed ==> i in Reached(batch, outcomes))
    ensures forall i :: i in Reached(batch, outcomes) ==> i in batch
  {
    if outcomes != [] {
      var n := |outcomes| - 1;
      FlushedRows(outbox, batch, outcomes[..n]);
      forall i | 0 <= i < |outbox| && Flushed(outbox, batch, outcomes)[i].processed && !outbox[i].processed
        ensures exists k :: 0 <= k < |outcomes| && batch[k] == i && outcomes[k].Marked?
      {
        if Flushed(outbox, batch, outcomes[..n])[i].processed {
          var k :| 0 <= k < n && batch[k] == i && outcomes[..n][k].Marked?;
          assert outcomes[k].Marked?;
        }
      }
      forall i, k | 0 <= i < |outbox| && 0 <= k < |outcomes| && batch[k] == i && outcomes[k].Marked?
        ensures Flushed(outbox, batch, outcomes)[i].processed
      {
        if k < n {
          assert outcomes[..n][k].Marked?;
        }
      }
    }
  }

  /** An event reached the broker exactly if some publish call for it succeeded, whether or not it was marked
      afterwards, or failed after delivering it. */
  lemma {:induction false} ReachedEvents(batch: seq<nat>, outcomes: seq<Outcome>, i: nat)
    requires |outcomes| <= |batch|
    ensures i in Reached(batch, outcomes) <==>
      exists k :: 0 <= k < |outcomes| && batch[k] == i
        && (outcomes[k] == Marked || outcomes[k] == MarkFailed || outcomes[k] == PublishFailed(true))
  {
    if outcomes != [] {
      var n := |outcomes| - 1;
      ReachedEvents(batch, outcomes[..n], i);
      if k :| 0 <= k < n && batch[k] == i && outcomes[..n][k] != PublishFailed(false) {
        assert outcomes[..n][k] == outcomes[k];
      }
      if k :| 0 <= k < |outcomes| && batch[k] == i && outcomes[k] != PublishFailed(false) {
        assert k < n ==> outcomes[..n][k] == outcomes[k];
      }
    }
  }

  class OutboxDispatcher {
    const repo: OrderTables
    const limit: nat
    var published: seq<nat>

    constructor (repo: OrderTables, limit: nat)
      ensures this.repo == repo && this.limit == limit && published == []
    {
      this.repo, this.limit := repo, limit;
      published := [];
    }

    /** `events` is the answer of the query, None if it fails. There are fewer outcomes than events
        if the process stops half way. */
    method Flush(events: Option<seq<nat>>, outcomes: seq<Outcome>)
      requires events.Some? ==> IsBatch(limit, repo.outbox, events.value) && |outcomes| <= |events.value|
      modifies this, repo
      ensures repo.orders == old(repo.orders) && repo.items == old(repo.items)
      ensures events.None? ==> repo.outbox == old(repo.outbox) && published == old(published)
      ensures events.Some? ==>
        && (forall k :: 0 <= k < |events.value| ==> events.value[k] < |old(repo.outbox)|)
        && repo.outbox == Flushed(old(repo.outbox), events.value, outcomes)
        && published == old(published) + Reached(events.value, outcomes)
    {
      if events.None? { return; }
      var batch := events.value;
      IsBatchInRange(limit, repo.outbox, batch);
      var n := 0;
      while n < |outcomes|
        invariant 0 <= n <= |outcomes|
        invariant repo.orders == old(repo.orders) && repo.items == old(repo.items)
        invariant repo.outbox == Flushed(old(repo.outbox), batch, outcomes[..n])
        invariant published == old(published) + Reached(batch, outcomes[..n])
      {
        assert outcomes[..n + 1][..n] == outcomes[..n];
        if outcomes[n].PublishFailed? {
          if outcomes[n].reached {
            published := published + [batch[n]];
          }
        } else {
          published := published + [batch[n]];
          var marked := repo.MarkOutboxProcessed(batch[n], outcomes[n].MarkFailed?);
          assert repo.State().outbox == repo.outbox;
        }
        n := n + 1;
      }
      assert outcomes[..n] == outcomes;
    }
  }

  // ---------------------------------------------------------------- runs

  datatype Board = Board(outbox: seq<OutboxEvent>, published: seq<nat>)

  datatype Step = Insert(event: OutboxEvent) | Flush(batch: seq<nat>, outcomes: seq<Outcome>)

  /** A flush of any rows at all, so that nothing below depends on the query unless it says so. */
  function Apply(b: Board, s: Step): Board {
    match s
    case Insert(event) => b.(outbox := b.outbox + [event.(processed := false)])
    case Flush(batch, outcomes) =>
      if |outcomes| <= |batch| && forall k :: 0 <= k < |batch| ==> batch[k] < |b.outbox|
      then Board(Flushed(b.outbox, batch, outcomes), b.published + Reached(batch, outcomes))
      else b
  }

  function Run(b: Board, steps: seq<Step>): Board
    decreases |steps|
  {
    if steps == [] then b else Run(Apply(b, steps[0]), steps[1..])
  }

  ghost predicate ProcessedWasPublished(b: Board) {
    forall i :: 0 <= i < |b.outbox| && b.outbox[i].processed ==> i in b.published
  }

  /** At least once: whatever publish calls, marks and processes fail, a processed event was published,
      so an event that was never published stays pending. */
  lemma {:induction false} AtLeastOnce(b: Board, steps: seq<Step>)
    requires ProcessedWasPublished(b)
    ensures ProcessedWasPublished(Run(b, steps))
    decreases |steps|
  {
    if steps != [] {
      var s := steps[0];
      if s.Flush? && Apply(b, s) != b {
        FlushedRows(b.outbox, s.batch, s.outcomes);
      }
      AtLeastOnce(Apply(b, s), steps[1..]);
    }
  }

  // ---------------------------------------------------------------- undisturbed flushes

  function AllMarked(n: nat): (r: seq<Outcome>)
    ensures |r| == n && forall k :: 0 <= k < n ==> r[k] == Marked
  {
    seq(n, _ => Marked)
  }

  ghost function Undisturbed(batches: seq<seq<nat>>): seq<Step> {
    seq(|batches|, k requires 0 <= k < |batches| => Flush(batches[k], AllMarked(|batches[k]|)))
  }

  lemma {:induction false} ReachedAll(batch: seq<nat>, outcomes: seq<Outcome>)
    requires |outcomes| <= |batch| && forall k :: 0 <= k < |outcomes| ==> outcomes[k] == Marked
    ensures Reached(batch, outcomes) == batch[..|outcomes|]
  {
    if outcomes != [] {
      ReachedAll(batch, outcomes[..|outcomes| - 1]);
    }
  }

  ghost predicate InRange(b: Board, batch: seq<nat>) {
    forall k :: 0 <= k < |batch| ==> batch[k] < |b.outbox|
  }

  /** `end` is `b` with exactly the listed events published, in this order, and marked. */
  ghost predicate PublishedFrom(b: Board, end: Board, list: seq<nat>) {
    && |end.outbox| == |b.outbox|
    && end.published == b.published + list
    && forall i :: 0 <= i < |b.outbox| ==>
         end.outbox[i] == if i in list then b.outbox[i].(processed := true) else b.outbox[i]
  }

  lemma {:induction false} UndisturbedFlush(b: Board, batch: seq<nat>)
    requires InRange(b, batch)
    ensures PublishedFrom(b, Apply(b, Flush(batch, AllMarked(|batch|))), batch)
  {
    var outcomes := AllMarked(|batch|);
    FlushedRows(b.outbox, batch, outcomes);
    ReachedAll(batch, outcomes);
    assert batch[..|batch|] == batch;
    forall i | 0 <= i < |b.outbox|
      ensures Flushed(b.outbox, batch, outcomes)[i] == if i in batch then b.outbox[i].(processed := true) else b.outbox[i]
    {
      if i in batch {
        var k :| 0 <= k < |batch| && batch[k] == i;
        assert outcomes[k].Marked?;
      }
    }
  }

  lemma {:induction false} UndisturbedRun(b: Board, batches: seq<seq<nat>>)
    requires forall batch :: batch in batches ==> InRange(b, batch)
    ensures PublishedFrom(b, Run(b, Undisturbed(batches)), Concat(batches))
    decreases |batches|
  {
    if batches != [] {
      var b' := Apply(b, Flush(batches[0], AllMarked(|batches[0]|)));
      UndisturbedFlush(b, batches[0]);
      forall batch | batch in batches[1..] ensures InRange(b', batch) {
        assert batch in batches;
      }
      UndisturbedRun(b', batches[1..]);
      assert Undisturbed(batches)[1..] == Undisturbed(batches[1..]);
    }
  }

  /** Each batch answers the query at the time of its flush. */
  ghost predicate Answers(limit: nat, b: Board, batches: seq<seq<nat>>) {
    forall k :: 0 <= k < |batches| ==> IsBatch(limit, Run(b, Undisturbed(batches[..k])).outbox, batches[k])
  }

  lemma PendingAfter(b: Board, end: Board, list: seq<nat>)
    requires PublishedFrom(b, end, list)
    ensures CreatedTimes(end.outbox) == CreatedTimes(b.outbox)
    ensures Pending(end.outbox) == Pending(b.outbox) - Elements(list)
  {
  }

  lemma {:induction false} NextBatch(limit: nat, b: Board, mid: Board, done: nat, list: seq<nat>, batch: seq<nat>)
    requires PublishedFrom(b, mid, list)
    requires OldestFirst(CreatedTimes(b.outbox), Pending(b.outbox), done, list)
    requires IsBatch(limit, mid.outbox, batch)
    ensures OldestFirst(CreatedTimes(b.outbox), Pending(b.outbox), done + limit, list + batch)
  {
    PendingAfter(b, mid, list);
    BatchesCompose(CreatedTimes(b.outbox), Pending(b.outbox), done, list, limit, batch);
  }

  lemma {:induction false} AnswersInRange(limit: nat, b: Board, batches: seq<seq<nat>>, n: nat)
    requires Answers(limit, b, batches) && n <= |batches|
    ensures forall k :: 0 <= k < n ==> InRange(b, batches[k])
  {
    if n > 0 {
      AnswersInRange(limit, b, batches, n - 1);
      var before := batches[..n - 1];
      forall batch | batch in before ensures InRange(b, batch) {
        var k :| 0 <= k < n - 1 && batches[k] == batch;
      }
      UndisturbedRun(b, before);
      IsBatchInRange(limit, Run(b, Undisturbed(before)).outbox, batches[n - 1]);
    }
  }

  lemma {:induction false} ConcatLast(batches: seq<seq<nat>>, batch: seq<nat>)
    ensures Concat(batches + [batch]) == Concat(batches) + batch
  {
    if batches == [] {
      assert batches + [batch] == [batch];
      assert Concat([batch]) == batch;
    } else {
      assert (batches + [batch])[1..] == batches[1..] + [batch];
      ConcatLast(batches[1..], batch);
    }
  }

  lemma {:induction false} PrefixPublished(limit: nat, b: Board, batches: seq<seq<nat>>, n: nat)
    requires Answers(limit, b, batches) && n <= |batches|
    ensures PublishedFrom(b, Run(b, Undisturbed(batches[..n])), Concat(batches[..n]))
  {
    AnswersInRange(limit, b, batches, n);
    forall batch | batch in batches[..n] ensures InRange(b, batch) {
      var k :| 0 <= k < n && batches[k] == batch;
    }
    UndisturbedRun(b, batches[..n]);
  }

  lemma {:induction false} ConcatPrefix(batches: seq<seq<nat>>, n: nat)
    requires n < |batches|
    ensures Concat(batches[..n + 1]) == Concat(batches[..n]) + batches[n]
  {
    assert batches[..n + 1] == batches[..n] + [batches[n]];
    ConcatLast(batches[..n], batches[n]);
  }

  lemma {:induction false} PrefixIsOldest(limit: nat, b: Board, batches: seq<seq<nat>>, n: nat, total: nat)
    requires Answers(limit, b, batches) && n <= |batches| && total == n * limit
    ensures OldestFirst(CreatedTimes(b.outbox), Pending(b.outbox), total, Concat(batches[..n]))
  {
    hide OldestFirst;
    if n == 0 {
      EmptyBatch(CreatedTimes(b.outbox), Pending(b.outbox));
      assert Concat(batches[..0]) == [];
    } else {
      NextMultiple(n - 1, limit);
      var mid := Run(b, Undisturbed(batches[..n - 1]));
      var list := Concat(batches[..n - 1]);
      PrefixIsOldest(limit, b, batches, n - 1, total - limit);
      assert PublishedFrom(b, mid, list) by {
        PrefixPublished(limit, b, batches, n - 1);
      }
      NextBatch(limit, b, mid, total - limit, list, batches[n - 1]);
      ConcatPrefix(batches, n - 1);
    }
  }

  /** k undisturbed flushes publish and mark exactly the oldest min(k * limit, n) of the n pending events, oldest first. */
  lemma {:induction false} OldestPublished(limit: nat, b: Board, batches: seq<seq<nat>>)
    requires Answers(limit, b, batches)
    ensures PublishedFrom(b, Run(b, Undisturbed(batches)), Concat(batches))
    ensures OldestFirst(CreatedTimes(b.outbox), Pending(b.outbox), |batches| * limit, Concat(batches))
  {
    assert batches[..|batches|] == batches;
    PrefixPublished(limit, b, batches, |batches|);
    PrefixIsOldest(limit, b, batches, |batches|, |batches| * limit);
  }
}
