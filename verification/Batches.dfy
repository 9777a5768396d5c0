/** What `ORDER BY created_at ASC LIMIT n` may return, for the two outbox dispatchers.
    Rows are named by their position in the table; rows with equal timestamps come in any order. */
module Batches {
  import opened Common

  ghost predicate OldestFirst(created: seq<int>, eligible: set<nat>, limit: nat, batch: seq<nat>)
    requires forall i :: i in eligible ==> i < |created|
  {
    && NoDup(batch)
    && (forall k :: 0 <= k < |batch| ==> batch[k] in eligible)
    && |batch| == Min(limit, |eligible|)
    && (forall k, l :: 0 <= k < l < |batch| ==> created[batch[k]] <= created[batch[l]])
    && (forall k, j :: 0 <= k < |batch| && j in eligible && j !in batch ==> created[batch[k]] <= created[j])
  }

  lemma {:induction false} PickOldest(created: seq<int>, eligible: set<nat>) returns (i: nat)
    requires eligible != {}
    requires forall j :: j in eligible ==> j < |created|
    ensures i in eligible && forall j :: j in eligible ==> created[i] <= created[j]
    decreases |eligible|
  {
    i :| i in eligible;
    var rest := eligible - {i};
    if rest != {} {
      var k := PickOldest(created, rest);
      if created[k] < created[i] {
        i := k;
      }
    }
  }

  lemma {:induction false} BatchRemainder(eligible: set<nat>, batch: seq<nat>)
    requires NoDup(batch) && forall k :: 0 <= k < |batch| ==> batch[k] in eligible
    ensures |eligible - Elements(batch)| == |eligible| - |batch|
  {
    NoDupSize(batch);
    assert forall i :: i in Elements(batch) ==> i in eligible;
    assert eligible == (eligible - Elements(batch)) + Elements(batch);
  }

  /** Two consecutive batches are one batch of the combined limit. */
  lemma {:induction false} BatchesCompose(created: seq<int>, eligible: set<nat>, limit1: nat, batch1: seq<nat>, limit2: nat, batch2: seq<nat>)
    requires forall i :: i in eligible ==> i < |created|
    requires OldestFirst(created, eligible, limit1, batch1)
    requires OldestFirst(created, eligible - Elements(batch1), limit2, batch2)
    ensures OldestFirst(created, eligible, limit1 + limit2, batch1 + batch2)
  {
    var both, later := batch1 + batch2, eligible - Elements(batch1);
    BatchRemainder(eligible, batch1);
    forall k | 0 <= k < |batch2|
      ensures batch2[k] in eligible && batch2[k] !in batch1
    {
      assert batch2[k] in later;
    }
    forall k, l | 0 <= k < l < |both|
      ensures both[k] != both[l] && created[both[k]] <= created[both[l]]
    {
      if k < |batch1| <= l {
        assert both[k] == batch1[k] && both[l] == batch2[l - |batch1|];
      } else if l < |batch1| {
        assert both[k] == batch1[k] && both[l] == batch1[l];
      } else {
        assert both[k] == batch2[k - |batch1|] && both[l] == batch2[l - |batch1|];
      }
    }
    forall k, j | 0 <= k < |both| && j in eligible && j !in both
      ensures created[both[k]] <= created[j]
    {
      assert j !in batch1 && j !in batch2;
      assert j in later;
    }
  }

  function Concat(batches: seq<seq<nat>>): seq<nat> {
    if batches == [] then [] else batches[0] + Concat(batches[1..])
  }

  lemma EmptyBatch(created: seq<int>, eligible: set<nat>)
    requires forall i :: i in eligible ==> i < |created|
    ensures OldestFirst(created, eligible, 0, [])
  {
  }

  lemma NextMultiple(n: nat, limit: nat)
    ensures (n + 1) * limit == limit + n * limit
  {
  }

  /** Every query has an answer, so a dispatcher can always take its next step. */
  lemma {:induction false} BatchExists(created: seq<int>, eligible: set<nat>, limit: nat) returns (batch: seq<nat>)
    requires forall i :: i in eligible ==> i < |created|
    ensures OldestFirst(created, eligible, limit, batch)
    decreases limit
  {
    if limit == 0 || eligible == {} {
      batch := [];
    } else {
      var i := PickOldest(created, eligible);
      assert |eligible| >= 1 by {
        SubsetSize({i}, eligible);
      }
      assert OldestFirst(created, eligible, 1, [i]);
      var rest := BatchExists(created, eligible - Elements([i]), limit - 1);
      BatchesCompose(created, eligible, 1, [i], limit - 1, rest);
      batch := [i] + rest;
    }
  }

  /** A batch that leaves an eligible row out is full, and holds only rows created no later than it. */
  lemma {:induction false} SkippedMeansFull(created: seq<int>, eligible: set<nat>, limit: nat, batch: seq<nat>, row: nat)
    requires forall i :: i in eligible ==> i < |created|
    requires OldestFirst(created, eligible, limit, batch)
    requires row in eligible && row !in batch
    ensures |batch| == limit
    ensures forall i :: i in batch ==> i in eligible && i != row && created[i] <= created[row]
  {
    BatchRemainder(eligible, batch);
    assert row in eligible - Elements(batch);
  }
}
