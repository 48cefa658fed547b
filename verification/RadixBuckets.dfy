/**
  Bucketing a sequence of bytes in place: the counting arguments behind the radix sort
  (tl2/ska_sort.h). Bucket b's region runs from starts[b] to starts[b + 1]; off[b] is the
  first slot of the region not yet known to hold the byte b.
 */
module RadixBuckets {
  const BUCKETS: nat := 256

  predicate AllBytes(w: seq<int>) {
    forall i :: 0 <= i < |w| ==> 0 <= w[i] < BUCKETS
  }

  function CountBelow(w: seq<int>, b: int): nat {
    if w == [] then 0 else CountBelow(w[1..], b) + if w[0] < b then 1 else 0
  }

  /** Regions are as long as the bytes that belong there are many. */
  ghost predicate Layout(w: seq<int>, starts: seq<nat>) {
    |starts| == BUCKETS + 1 && starts[0] == 0 && starts[BUCKETS] == |w| && AllBytes(w) &&
    (forall b {:trigger Sized(w, starts, b)} :: Sized(w, starts, b)) &&
    (forall b, c {:trigger Ordered(starts, b, c)} :: Ordered(starts, b, c))
  }

  predicate Sized(w: seq<int>, starts: seq<nat>, b: int)
    requires |starts| == BUCKETS + 1
  {
    0 <= b < BUCKETS ==> starts[b + 1] == starts[b] + multiset(w)[b]
  }

  predicate Ordered(starts: seq<nat>, b: int, c: int)
    requires |starts| == BUCKETS + 1
  {
    0 <= b <= c <= BUCKETS ==> starts[b] <= starts[c]
  }

  predicate NonEmpty(starts: seq<nat>, b: int)
    requires |starts| == BUCKETS + 1
  {
    0 <= b < BUCKETS && starts[b] < starts[b + 1]
  }

  predicate InRegion(starts: seq<nat>, b: int, i: int)
    requires |starts| == BUCKETS + 1
  {
    0 <= b < BUCKETS && starts[b] <= i < starts[b + 1]
  }

  /** No offset has passed the end of its bucket. */
  ghost predicate Offsets(starts: seq<nat>, off: seq<nat>)
    requires |starts| == BUCKETS + 1
  {
    |off| == BUCKETS && forall b {:trigger NonEmpty(starts, b)} :: NonEmpty(starts, b) ==> starts[b] <= off[b] <= starts[b + 1]
  }

  /** Slot i lies before its bucket's offset. */
  predicate Done(starts: seq<nat>, off: seq<nat>, b: int, i: int)
    requires |starts| == BUCKETS + 1 && |off| == BUCKETS
  {
    0 <= b < BUCKETS && starts[b] <= i < off[b]
  }

  ghost predicate Filled(w: seq<int>, starts: seq<nat>, off: seq<nat>)
    requires |starts| == BUCKETS + 1 && |off| == BUCKETS
  {
    forall b, i {:trigger Done(starts, off, b, i)} :: Done(starts, off, b, i) && NonEmpty(starts, b) && i < |w| ==> w[i] == b
  }

  /** The state between two swaps. */
  ghost predicate Sorting(w: seq<int>, starts: seq<nat>, off: seq<nat>) {
    Layout(w, starts) && Offsets(starts, off) && Filled(w, starts, off)
  }

  /** Every byte lies in its bucket's region. */
  ghost predicate Bucketed(w: seq<int>, starts: seq<nat>) {
    Layout(w, starts) && forall i :: 0 <= i < |w| ==> InRegion(starts, w[i], i)
  }

  lemma RegionFits(w: seq<int>, starts: seq<nat>, b: int)
    requires Layout(w, starts) && 0 <= b < BUCKETS
    ensures starts[b] <= starts[b + 1] <= |w|
  {
    assert Sized(w, starts, b) && Ordered(starts, b + 1, BUCKETS);
  }

  lemma RegionOrder(w: seq<int>, starts: seq<nat>, b: int, c: int)
    requires Layout(w, starts) && 0 <= b < BUCKETS && 0 <= c < BUCKETS
    ensures b < c ==> starts[b + 1] <= starts[c]
  {
    assert Ordered(starts, b + 1, c);
  }

  lemma LayoutKept(w: seq<int>, w': seq<int>, starts: seq<nat>)
    requires Layout(w, starts) && multiset(w') == multiset(w) && AllBytes(w')
    ensures Layout(w', starts)
  {
    assert |multiset(w')| == |w'| && |multiset(w)| == |w|;
    forall b
      ensures Sized(w', starts, b)
    {
      assert Sized(w, starts, b);
    }
  }

  function Swap<T>(s: seq<T>, i: nat, j: nat): seq<T>
    requires i < |s| && j < |s|
  {
    s[i := s[j]][j := s[i]]
  }

  lemma SwapPermutes<T>(s: seq<T>, i: nat, j: nat)
    requires i < |s| && j < |s|
    ensures multiset(Swap(s, i, j)) == multiset(s)
  {
  }

  // ---------------------------------------------------------------- counting

  lemma {:induction false} CountBelowAll(w: seq<int>)
    requires AllBytes(w)
    ensures CountBelow(w, 0) == 0 && CountBelow(w, BUCKETS) == |w|
  {
    if w != [] {
      assert forall i :: 0 <= i < |w[1..]| ==> w[1..][i] == w[i + 1];
      CountBelowAll(w[1..]);
    }
  }

  lemma {:induction false} CountBelowNext(w: seq<int>, b: int)
    ensures CountBelow(w, b + 1) == CountBelow(w, b) + multiset(w)[b]
  {
    if w != [] {
      CountBelowNext(w[1..], b);
      assert w == [w[0]] + w[1..];
    }
  }

  lemma {:induction false} CountBelowRises(w: seq<int>, b: int, c: int)
    requires b <= c
    ensures CountBelow(w, b) <= CountBelow(w, c)
  {
    if w != [] {
      CountBelowRises(w[1..], b, c);
    }
  }

  ghost function Starts(w: seq<int>): (starts: seq<nat>)
    requires AllBytes(w)
    ensures Layout(w, starts)
  {
    var starts := seq(BUCKETS + 1, b => CountBelow(w, b));
    CountBelowAll(w);
    assert forall b {:trigger Sized(w, starts, b)} :: Sized(w, starts, b) by {
      forall b
        ensures Sized(w, starts, b)
      {
        CountBelowNext(w, b);
      }
    }
    assert forall b, c {:trigger Ordered(starts, b, c)} :: Ordered(starts, b, c) by {
      forall b, c
        ensures Ordered(starts, b, c)
      {
        if b <= c {
          CountBelowRises(w, b, c);
        }
      }
    }
    starts
  }

  lemma {:induction false} CountUniform(w: seq<int>, b: int)
    requires forall i :: 0 <= i < |w| ==> w[i] == b
    ensures multiset(w)[b] == |w|
  {
    if w != [] {
      CountUniform(w[1..], b);
      assert w == [w[0]] + w[1..];
    }
  }

  /** A run of b's, and one more b elsewhere. */
  lemma CountRunAndOne(w: seq<int>, b: int, from: nat, to: nat, i: nat)
    requires from <= to <= |w| && i < |w| && w[i] == b && !(from <= i < to)
    requires forall j :: from <= j < to ==> w[j] == b
    ensures multiset(w)[b] > to - from
  {
    assert w == w[..from] + w[from..to] + w[to..];
    CountUniform(w[from..to], b);
    if i < from {
      assert w[..from][i] == b;
      assert b in w[..from];
    } else {
      assert w[to..][i - to] == b;
      assert b in w[to..];
    }
  }

  /** A byte outside the filled part of its bucket leaves a free slot there. */
  lemma SlotFree(w: seq<int>, starts: seq<nat>, off: seq<nat>, i: nat)
    requires Sorting(w, starts, off) && i < |w| && !Done(starts, off, w[i], i)
    ensures NonEmpty(starts, w[i]) && off[w[i]] < starts[w[i] + 1]
  {
    var b := w[i];
    assert b in w && multiset(w)[b] > 0;
    assert Sized(w, starts, b) && NonEmpty(starts, b);
    RegionFits(w, starts, b);
    forall j | starts[b] <= j < off[b]
      ensures w[j] == b
    {
      assert Done(starts, off, b, j);
    }
    CountRunAndOne(w, b, starts[b], off[b], i);
  }

  lemma {:induction false} RegionOf(w: seq<int>, starts: seq<nat>, i: nat, c: nat) returns (b: nat)
    requires Layout(w, starts) && c <= BUCKETS && i < starts[c]
    ensures InRegion(starts, b, i)
  {
    if starts[c - 1] <= i {
      b := c - 1;
    } else {
      b := RegionOf(w, starts, i, c - 1);
    }
  }

  lemma RegionUnique(w: seq<int>, starts: seq<nat>, b: int, c: int, i: int)
    requires Layout(w, starts) && InRegion(starts, b, i)
    ensures InRegion(starts, c, i) ==> b == c
  {
    assert Ordered(starts, b + 1, c) && Ordered(starts, c + 1, b);
  }

  // ---------------------------------------------------------------- one swap

  /** The byte at an unfilled slot moves to the next free slot of its bucket, whose offset
      alone advances. */
  lemma SwapAdvances(w: seq<int>, starts: seq<nat>, off: seq<nat>, p: int, i: nat)
    requires Sorting(w, starts, off) && InRegion(starts, p, i) && off[p] <= i
    ensures i < |w| && NonEmpty(starts, w[i]) && off[w[i]] < starts[w[i] + 1] <= |w|
    ensures Sorting(Swap(w, i, off[w[i]]), starts, off[w[i] := off[w[i]] + 1])
    ensures Unplaced(starts, off[w[i] := off[w[i]] + 1], BUCKETS) == Unplaced(starts, off, BUCKETS) - 1
  {
    RegionFits(w, starts, p);
    var b := w[i];
    NotYetDone(w, starts, off, p, i);
    SlotFree(w, starts, off, i);
    RegionFits(w, starts, b);
    SwapPermutes(w, i, off[b]);
    LayoutKept(w, Swap(w, i, off[b]), starts);
    SwapFills(w, starts, off, p, i);
    UnplacedFalls(starts, off, b, BUCKETS);
  }

  lemma NotYetDone(w: seq<int>, starts: seq<nat>, off: seq<nat>, p: int, i: nat)
    requires Layout(w, starts) && Offsets(starts, off) && InRegion(starts, p, i) && off[p] <= i < |w|
    ensures !Done(starts, off, w[i], i)
  {
    assert w[i] in w && multiset(w)[w[i]] > 0;
    assert Sized(w, starts, w[i]);
    assert NonEmpty(starts, w[i]);
    RegionUnique(w, starts, p, w[i], i);
  }

  lemma SwapFills(w: seq<int>, starts: seq<nat>, off: seq<nat>, p: int, i: nat)
    requires Sorting(w, starts, off) && InRegion(starts, p, i) && off[p] <= i < |w|
    requires NonEmpty(starts, w[i]) && off[w[i]] < starts[w[i] + 1] <= |w|
    ensures Filled(Swap(w, i, off[w[i]]), starts, off[w[i] := off[w[i]] + 1])
  {
    var b := w[i];
    var w', off' := Swap(w, i, off[b]), off[b := off[b] + 1];
    forall c, j | Done(starts, off', c, j) && NonEmpty(starts, c) && j < |w'|
      ensures w'[j] == c
    {
      if j != off[b] {
        if c == b {
          assert j < off[b];
        }
        assert Done(starts, off, c, j);
        assert InRegion(starts, c, j);
        if j == i {
          RegionUnique(w, starts, c, p, i);
        }
      } else {
        assert InRegion(starts, b, j) && InRegion(starts, c, j);
        RegionUnique(w, starts, c, b, j);
      }
    }
  }

  /** The slots of the first b buckets that are not yet filled. */
  function Unplaced(starts: seq<nat>, off: seq<nat>, b: nat): int
    requires |starts| == BUCKETS + 1 && |off| == BUCKETS && b <= BUCKETS
  {
    if b == 0 then 0
    else if NonEmpty(starts, b - 1) then Unplaced(starts, off, b - 1) + starts[b] - off[b - 1]
    else Unplaced(starts, off, b - 1)
  }

  lemma {:induction false} UnplacedFalls(starts: seq<nat>, off: seq<nat>, c: nat, b: nat)
    requires |starts| == BUCKETS + 1 && |off| == BUCKETS && b <= BUCKETS && NonEmpty(starts, c)
    ensures Unplaced(starts, off[c := off[c] + 1], b) == Unplaced(starts, off, b) - if c < b then 1 else 0
  {
    if b > 0 {
      UnplacedFalls(starts, off, c, b - 1);
    }
  }

  lemma {:induction false} UnplacedIsNat(starts: seq<nat>, off: seq<nat>, b: nat)
    requires |starts| == BUCKETS + 1 && Offsets(starts, off) && b <= BUCKETS
    ensures Unplaced(starts, off, b) >= 0
  {
    if b > 0 {
      UnplacedIsNat(starts, off, b - 1);
    }
  }

  // ---------------------------------------------------------------- stopping early

  /** When every bucket but one is full, so is the last, unvisited. */
  lemma LastBucketIsRight(w: seq<int>, starts: seq<nat>, off: seq<nat>, last: int)
    requires Sorting(w, starts, off)
    requires forall b :: NonEmpty(starts, b) && b != last ==> off[b] == starts[b + 1]
    ensures Bucketed(w, starts)
  {
    forall i | 0 <= i < |w|
      ensures InRegion(starts, w[i], i)
    {
      var c := RegionOf(w, starts, i, BUCKETS);
      assert NonEmpty(starts, c);
      RegionFits(w, starts, c);
      if c != last {
        assert Done(starts, off, c, i);
      } else if w[i] != last {
        StrayByte(w, starts, off, i, last);
      }
    }
  }

  lemma StrayByte(w: seq<int>, starts: seq<nat>, off: seq<nat>, i: nat, last: int)
    requires Sorting(w, starts, off) && InRegion(starts, last, i) && i < |w|
    requires forall b :: NonEmpty(starts, b) && b != last ==> off[b] == starts[b + 1]
    ensures w[i] == last
  {
    var b := w[i];
    assert b in w && multiset(w)[b] > 0;
    assert Sized(w, starts, b) && NonEmpty(starts, b);
    RegionUnique(w, starts, last, b, i);
    if b != last {
      SlotFree(w, starts, off, i);
    }
  }
}
