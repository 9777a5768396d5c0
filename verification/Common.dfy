/** Datatypes and sequence facts shared by the models of the individual services. */
module Common {

  datatype Option<+T> = None | Some(value: T)

  datatype Result<+T, +E> = Ok(value: T) | Err(error: E)

  newtype byte = x: int | 0 <= x < 256

  newtype int32 = x: int | -0x8000_0000 <= x < 0x8000_0000

  /** A Go string is an arbitrary sequence of bytes. */
  type GoString = seq<byte>

  function Min(a: nat, b: nat): nat {
    if a <= b then a else b
  }

  ghost predicate NoDup<T>(s: seq<T>) {
    forall i, j :: 0 <= i < j < |s| ==> s[i] != s[j]
  }

  ghost function Elements<T>(s: seq<T>): set<T> {
    set x | x in s
  }

  lemma {:induction false} NoDupSize<T>(s: seq<T>)
    requires NoDup(s)
    ensures |Elements(s)| == |s|
  {
    if s != [] {
      var n := |s| - 1;
      NoDupSize(s[..n]);
      assert Elements(s) == Elements(s[..n]) + {s[n]};
    }
  }

  lemma {:induction false} SubsetSize<T>(small: set<T>, big: set<T>)
    requires small <= big
    ensures |small| <= |big|
    ensures |small| == |big| ==> small == big
  {
    assert big == small + (big - small);
    assert |big| == |small| + |big - small|;
  }

  function Sum(s: seq<nat>): nat {
    if s == [] then 0 else Sum(s[..|s| - 1]) + s[|s| - 1]
  }

  lemma SumAppend(s: seq<nat>, x: nat)
    ensures Sum(s + [x]) == Sum(s) + x
  {
    assert (s + [x])[..|s|] == s;
  }

  lemma {:induction false} SumUpdate(s: seq<nat>, i: nat, x: nat)
    requires i < |s|
    ensures Sum(s[i := x]) == Sum(s) - s[i] + x
  {
    var n := |s| - 1;
    if i == n {
      assert s[i := x][..n] == s[..n];
    } else {
      assert s[i := x][..n] == s[..n][i := x];
      SumUpdate(s[..n], i, x);
    }
  }

  lemma {:induction false} SumMonotone(low: seq<nat>, high: seq<nat>)
    requires |low| == |high|
    requires forall i :: 0 <= i < |low| ==> low[i] <= high[i]
    ensures Sum(low) <= Sum(high)
  {
    if low != [] {
      SumMonotone(low[..|low| - 1], high[..|high| - 1]);
    }
  }

  /** If no entry grows and every picked entry loses at least one, the sum loses one per pick. */
  lemma {:induction false} SumDrop(before: seq<nat>, after: seq<nat>, picked: seq<nat>)
    requires |before| == |after|
    requires NoDup(picked) && forall i :: i in picked ==> i < |before|
    requires forall i :: 0 <= i < |before| ==> after[i] <= before[i]
    requires forall i :: i in picked ==> after[i] < before[i]
    ensures Sum(after) + |picked| <= Sum(before)
    decreases |picked|
  {
    if picked == [] {
      SumMonotone(after, before);
    } else {
      var n := |picked| - 1;
      var i := picked[n];
      assert i in picked;
      var lower := before[i := before[i] - 1];
      SumUpdate(before, i, before[i] - 1);
      forall j | j in picked[..n] ensures j in picked && j != i { }
      SumDrop(lower, after, picked[..n]);
    }
  }
}
