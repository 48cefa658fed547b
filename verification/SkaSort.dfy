/**
  The in-place radix sort (tl2/ska_sort.h) on arrays. A range is given by the array and its
  bounds lo and hi; positions and bucket offsets inside it are relative to lo, as the
  source's are to `begin`. `offset` and `next` are the two fields of PartitionInfo.
 */
module SkaSort {
  import opened RadixBuckets
  import opened RadixKeys

  const STD_SORT_THRESHOLD: int := 128
  const AMERICAN_FLAG_THRESHOLD: int := 1024

  type Bounds = array<nat>

  ghost predicate Range(a: array<Item>, lo: nat, hi: nat) {
    lo <= hi <= a.Length
  }

  /** The bytes of the range at the given level. */
  ghost function At(a: array<Item>, lo: nat, hi: nat, level: nat): (w: seq<int>)
    requires Range(a, lo, hi) && level < NUM_BYTES
    reads a
    ensures |w| == hi - lo && AllBytes(w)
  {
    Bytes(a[..][lo..hi], level)
  }

  // ---------------------------------------------------------------- small ranges

  ghost predicate SortedFrom(v: seq<Item>, lo: nat, hi: nat) {
    hi <= |v| && forall p, q :: lo <= p < q < hi ==> v[p].key <= v[q].key
  }

  /** Sorted but for the item at position j, which is below everything after it. */
  ghost predicate SortedBut(v: seq<Item>, lo: nat, j: nat, hi: nat) {
    hi <= |v| && forall p, q :: lo <= p < q < hi && q != j ==> v[p].key <= v[q].key
  }

  lemma SwapDown(v: seq<Item>, lo: nat, j: nat, hi: nat)
    requires SortedBut(v, lo, j, hi) && lo < j < hi && v[j - 1].key > v[j].key
    ensures SortedBut(Swap(v, j - 1, j), lo, j - 1, hi)
  {
  }

  /** Stands in for std::sort. */
  method StdSort(a: array<Item>, lo: nat, hi: nat)
    requires Range(a, lo, hi)
    modifies a
    ensures Rearranged(old(a[..]), a[..], lo, hi) && Sorted(a[lo..hi])
  {
    var i := lo;
    while i < hi
      invariant lo <= i <= hi && Rearranged(old(a[..]), a[..], lo, hi) && SortedFrom(a[..], lo, i)
    {
      ghost var before := a[..];
      StdInsert(a, lo, i, hi);
      RearrangedTwice(old(a[..]), before, a[..], lo, hi);
      i := i + 1;
    }
  }

  method StdInsert(a: array<Item>, lo: nat, i: nat, hi: nat)
    requires Range(a, lo, hi) && lo <= i < hi && SortedFrom(a[..], lo, i)
    modifies a
    ensures Rearranged(old(a[..]), a[..], lo, hi) && SortedFrom(a[..], lo, i + 1)
  {
    var j := i;
    while j > lo && a[j - 1].key > a[j].key
      invariant lo <= j <= i && Rearranged(old(a[..]), a[..], lo, hi) && SortedBut(a[..], lo, j, i + 1)
    {
      ghost var before := a[..];
      a[j - 1], a[j] := a[j], a[j - 1];
      assert a[..] == Swap(before, j - 1, j);
      SwapDown(before, lo, j, i + 1);
      SwapInRange(before, a[..], lo, hi, j - 1 - lo, j - lo);
      RearrangedTwice(old(a[..]), before, a[..], lo, hi);
      j := j - 1;
    }
    InPlace(a[..], lo, j, i + 1);
  }

  lemma InPlace(v: seq<Item>, lo: nat, j: nat, hi: nat)
    requires SortedBut(v, lo, j, hi) && lo <= j < hi && (j == lo || v[j - 1].key <= v[j].key)
    ensures SortedFrom(v, lo, hi)
  {
    forall p, q | lo <= p < q < hi
      ensures v[p].key <= v[q].key
    {
      if q == j {
        assert p < j - 1 ==> v[p].key <= v[j - 1].key;
      }
    }
  }

  method StdSortIfLessThanThreshold(a: array<Item>, lo: nat, hi: nat) returns (done: bool)
    requires Range(a, lo, hi)
    modifies a
    ensures done == (hi - lo < STD_SORT_THRESHOLD)
    ensures Rearranged(old(a[..]), a[..], lo, hi)
    ensures if done then Sorted(a[lo..hi]) else a[..] == old(a[..])
  {
    if hi - lo <= 1 {
      return true;
    }
    if hi - lo >= STD_SORT_THRESHOLD {
      return false;
    }
    StdSort(a, lo, hi);
    return true;
  }

  // ---------------------------------------------------------------- counting and laying out

  method CountBytes(a: array<Item>, lo: nat, hi: nat, level: nat) returns (count: Bounds)
    requires Range(a, lo, hi) && level < NUM_BYTES
    ensures fresh(count) && count.Length == BUCKETS
    ensures forall b :: 0 <= b < BUCKETS ==> count[b] == multiset(At(a, lo, hi, level))[b]
  {
    count := new nat[BUCKETS](_ => 0);
    ghost var w := At(a, lo, hi, level);
    var i := 0;
    while i < hi - lo
      invariant i <= hi - lo
      invariant forall b :: 0 <= b < BUCKETS ==> count[b] == multiset(w[..i])[b]
    {
      var b := Byte(a[lo + i].key, level);
      assert w[..i + 1] == w[..i] + [b];
      count[b] := count[b] + 1;
      i := i + 1;
    }
    assert w[..i] == w;
  }

  /** The list names every non-empty bucket exactly once. */
  ghost predicate Lists(remaining: seq<nat>, starts: seq<nat>) {
    |starts| == BUCKETS + 1 &&
    (forall b: nat :: NonEmpty(starts, b) ==> multiset(remaining)[b] == 1) &&
    (forall i :: 0 <= i < |remaining| ==> NonEmpty(starts, remaining[i]))
  }

  ghost predicate Ends(next: seq<nat>, starts: seq<nat>) {
    |starts| == BUCKETS + 1 && |next| == BUCKETS && forall b :: 0 <= b < BUCKETS ==> next[b] == starts[b + 1]
  }

  /** Turns counts into offsets. (The American flag sort leaves the end of an empty bucket
      unset, and never reads it.) */
  method LayOut(offset: Bounds, ghost w: seq<int>) returns (next: Bounds, remaining: Bounds, num: nat, ghost starts: seq<nat>)
    requires offset.Length == BUCKETS && AllBytes(w)
    requires forall b :: 0 <= b < BUCKETS ==> offset[b] == multiset(w)[b]
    modifies offset
    ensures fresh(next) && fresh(remaining) && next != remaining && remaining.Length == BUCKETS && num <= BUCKETS
    ensures Sorting(w, starts, offset[..]) && Ends(next[..], starts)
    ensures forall b :: NonEmpty(starts, b) ==> offset[b] == starts[b]
    ensures Lists(remaining[..num], starts) && Ascending(remaining[..num])
  {
    next := new nat[BUCKETS](_ => 0);
    remaining := new nat[BUCKETS](_ => 0);
    starts := Starts(w);
    num := 0;
    var total, i := 0, 0;
    while i < BUCKETS
      invariant i <= BUCKETS && total == starts[i] && num <= i
      invariant LaidTo(w, starts, offset[..], next[..], i) && ListsTo(remaining[..num], starts, i)
    {
      num, total := LayOutBucket(offset, next, remaining, num, total, i, w, starts);
      i := i + 1;
    }
    LaidOut(w, starts, offset[..], next[..]);
    ListsAll(remaining[..num], starts);
  }

  /** One step of the loop over the buckets. */
  method LayOutBucket(offset: Bounds, next: Bounds, remaining: Bounds, num: nat, total: nat, i: nat,
      ghost w: seq<int>, ghost starts: seq<nat>) returns (num': nat, total': nat)
    requires offset != next && offset != remaining && next != remaining && remaining.Length == BUCKETS
    requires Layout(w, starts) && num <= i < BUCKETS && total == starts[i]
    requires LaidTo(w, starts, offset[..], next[..], i) && ListsTo(remaining[..num], starts, i)
    modifies offset, next, remaining
    ensures num' <= i + 1 && total' == starts[i + 1]
    ensures LaidTo(w, starts, offset[..], next[..], i + 1) && ListsTo(remaining[..num'], starts, i + 1)
  {
    LayMore(w, starts, offset[..], next[..], i);
    num' := ListBucket(remaining, num, i, offset[i] != 0, starts);
    total' := LaySlot(offset, next, i, total);
  }

  /** The bucket's count becomes its offset, if it has any items; its end follows. */
  method LaySlot(offset: Bounds, next: Bounds, i: nat, total: nat) returns (total': nat)
    requires offset != next && i < offset.Length && i < next.Length
    modifies offset, next
    ensures total' == total + old(offset[i])
    ensures offset[..] == if old(offset[i]) != 0 then old(offset[..])[i := total] else old(offset[..])
    ensures next[..] == old(next[..])[i := total']
  {
    total' := total;
    var count := offset[i];
    if count != 0 {
      Store(offset, i, total);
      total' := total + count;
    }
    Store(next, i, total');
  }

  method ListBucket(remaining: Bounds, num: nat, i: nat, nonEmpty: bool, ghost starts: seq<nat>) returns (num': nat)
    requires num <= i && num < remaining.Length && ListsTo(remaining[..num], starts, i) && nonEmpty == NonEmpty(starts, i)
    modifies remaining
    ensures num' == (if nonEmpty then num + 1 else num) && ListsTo(remaining[..num'], starts, i + 1)
  {
    num' := num;
    ghost var listed := remaining[..num];
    if !nonEmpty {
      ListSkip(listed, starts, i);
    } else {
      ListPush(listed, starts, i);
      Store(remaining, num, i);
      num' := num + 1;
      assert remaining[..num'] == listed + [i];
    }
  }

  method Store(s: Bounds, i: nat, x: nat)
    requires i < s.Length
    modifies s
    ensures s[..] == old(s[..])[i := x]
  {
    s[i] := x;
  }

  /** The first i counts have become offsets, the others are still counts. */
  ghost predicate LaidTo(w: seq<int>, starts: seq<nat>, off: seq<nat>, next: seq<nat>, i: nat) {
    |starts| == BUCKETS + 1 && |off| == BUCKETS && |next| == BUCKETS &&
    forall b: nat {:trigger LaidBucket(w, starts, off, next, i, b)} :: b < BUCKETS ==> LaidBucket(w, starts, off, next, i, b)
  }

  predicate LaidBucket(w: seq<int>, starts: seq<nat>, off: seq<nat>, next: seq<nat>, i: nat, b: nat)
    requires |starts| == BUCKETS + 1 && |off| == BUCKETS && |next| == BUCKETS && b < BUCKETS
  {
    if i <= b then off[b] == multiset(w)[b] else next[b] == starts[b + 1] && off[b] == LaidOffset(starts, b)
  }

  lemma LayMore(w: seq<int>, starts: seq<nat>, off: seq<nat>, next: seq<nat>, i: nat)
    requires Layout(w, starts) && LaidTo(w, starts, off, next, i) && i < BUCKETS
    ensures off[i] != 0 <==> NonEmpty(starts, i)
    ensures starts[i + 1] == starts[i] + off[i]
    ensures LaidTo(w, starts, if off[i] != 0 then off[i := starts[i]] else off, next[i := starts[i + 1]], i + 1)
  {
    assert Sized(w, starts, i) && LaidBucket(w, starts, off, next, i, i);
    var off', next' := if off[i] != 0 then off[i := starts[i]] else off, next[i := starts[i + 1]];
    var j := i + 1;
    forall b: nat | b < BUCKETS
      ensures LaidBucket(w, starts, off', next', j, b)
    {
      assert LaidBucket(w, starts, off, next, i, b);
    }
  }

  ghost predicate Ascending(s: seq<nat>) {
    forall k, l :: 0 <= k < l < |s| ==> s[k] < s[l]
  }

  /** Lists the non-empty buckets below i in order. */
  ghost predicate ListsTo(s: seq<nat>, starts: seq<nat>, i: nat) {
    |starts| == BUCKETS + 1 && Ascending(s) &&
    (forall k :: 0 <= k < |s| ==> s[k] < i && NonEmpty(starts, s[k])) &&
    (forall b: nat {:trigger Listed(s, starts, i, b)} :: Listed(s, starts, i, b))
  }

  predicate Listed(s: seq<nat>, starts: seq<nat>, i: nat, b: nat)
    requires |starts| == BUCKETS + 1
  {
    b < i && NonEmpty(starts, b) ==> b in s
  }

  lemma ListSkip(s: seq<nat>, starts: seq<nat>, i: nat)
    requires ListsTo(s, starts, i) && !NonEmpty(starts, i)
    ensures ListsTo(s, starts, i + 1)
  {
    var j := i + 1;
    forall b: nat
      ensures Listed(s, starts, j, b)
    {
      assert Listed(s, starts, i, b);
    }
  }

  lemma ListPush(s: seq<nat>, starts: seq<nat>, i: nat)
    requires ListsTo(s, starts, i) && NonEmpty(starts, i)
    ensures ListsTo(s + [i], starts, i + 1)
  {
    var t, j := s + [i], i + 1;
    forall b: nat
      ensures Listed(t, starts, j, b)
    {
      assert Listed(s, starts, i, b);
    }
  }

  lemma {:induction false} AscendingOnce(s: seq<nat>, b: nat)
    requires Ascending(s) && b in s
    ensures multiset(s)[b] == 1
  {
    var k :| 0 <= k < |s| && s[k] == b;
    assert s == s[..k] + [b] + s[k + 1..];
    assert b !in s[..k] && b !in s[k + 1..];
  }

  lemma ListsAll(s: seq<nat>, starts: seq<nat>)
    requires ListsTo(s, starts, BUCKETS)
    ensures Lists(s, starts)
  {
    forall b: nat | NonEmpty(starts, b)
      ensures multiset(s)[b] == 1
    {
      assert Listed(s, starts, BUCKETS, b);
      AscendingOnce(s, b);
    }
  }

  function LaidOffset(starts: seq<nat>, b: nat): nat
    requires |starts| == BUCKETS + 1
  {
    if NonEmpty(starts, b) then starts[b] else 0
  }

  lemma LaidOut(w: seq<int>, starts: seq<nat>, off: seq<nat>, next: seq<nat>)
    requires Layout(w, starts) && LaidTo(w, starts, off, next, BUCKETS)
    ensures Sorting(w, starts, off) && Ends(next, starts) && forall b :: NonEmpty(starts, b) ==> off[b] == starts[b]
  {
    forall b: nat | b < BUCKETS
      ensures next[b] == starts[b + 1] && off[b] == LaidOffset(starts, b)
    {
      assert LaidBucket(w, starts, off, next, BUCKETS, b);
    }
  }

  lemma ListedOnce(remaining: seq<nat>, starts: seq<nat>, i: nat, j: nat)
    requires Lists(remaining, starts) && i < j < |remaining|
    ensures remaining[i] != remaining[j]
  {
    var b := remaining[i];
    assert remaining == remaining[..j] + [remaining[j]] + remaining[j + 1..];
    assert b == remaining[..j][i];
    assert multiset(remaining[..j])[b] >= 1;
    assert NonEmpty(starts, b);
  }

  // ---------------------------------------------------------------- one swap

  /** The item at position i has gone to the next free slot of its bucket b. */
  ghost predicate Placed(v: seq<Item>, v': seq<Item>, lo: nat, hi: nat, level: nat, starts: seq<nat>, fill: seq<nat>, b: nat)
    requires level < NUM_BYTES
  {
    Rearranged(v, v', lo, hi) && |starts| == BUCKETS + 1 && |fill| == BUCKETS && b < BUCKETS &&
    Sorting(Bytes(v'[lo..hi], level), starts, fill[b := fill[b] + 1]) &&
    Unplaced(starts, fill[b := fill[b] + 1], BUCKETS) == Unplaced(starts, fill, BUCKETS) - 1
  }

  /** Moves the item at position i to the next free slot of its bucket. `fill` is the extent
      to which buckets are known to be filled. */
  method Place(a: array<Item>, lo: nat, hi: nat, level: nat, offset: Bounds, i: nat,
      ghost p: int, ghost starts: seq<nat>, ghost fill: seq<nat>)
      returns (b: nat)
    requires Range(a, lo, hi) && level < NUM_BYTES && offset.Length == BUCKETS
    requires Sorting(Bytes(a[..][lo..hi], level), starts, fill) && InRegion(starts, p, i) && fill[p] <= i < hi - lo
    requires offset[Byte(a[lo + i].key, level)] == fill[Byte(a[lo + i].key, level)]
    modifies a, offset
    ensures b == old(Byte(a[lo + i].key, level)) && offset[..] == old(offset[..])[b := fill[b] + 1]
    ensures Placed(old(a[..]), a[..], lo, hi, level, starts, fill, b)
  {
    ghost var v := a[..];
    b := Byte(a[lo + i].key, level);
    SlotOf(v, lo, hi, level, i, p, starts, fill);
    var o := offset[b];
    Store(offset, b, o + 1);
    SwapItems(a, lo + i, lo + o);
    PlaceKeeps(v, a[..], lo, hi, level, i, p, starts, fill, b);
  }

  method SwapItems(a: array<Item>, i: nat, j: nat)
    requires i < a.Length && j < a.Length
    modifies a
    ensures a[..] == Swap(old(a[..]), i, j)
  {
    a[i], a[j] := a[j], a[i];
  }

  lemma SlotOf(v: seq<Item>, lo: nat, hi: nat, level: nat, i: nat, p: int, starts: seq<nat>, fill: seq<nat>)
    requires lo <= hi <= |v| && level < NUM_BYTES && Sorting(Bytes(v[lo..hi], level), starts, fill)
    requires InRegion(starts, p, i) && fill[p] <= i
    ensures i < hi - lo && NonEmpty(starts, Byte(v[lo + i].key, level))
    ensures fill[Byte(v[lo + i].key, level)] < starts[Byte(v[lo + i].key, level) + 1] <= hi - lo
  {
    SwapAdvances(Bytes(v[lo..hi], level), starts, fill, p, i);
  }

  lemma PlaceKeeps(v: seq<Item>, v': seq<Item>, lo: nat, hi: nat, level: nat, i: nat, p: int, starts: seq<nat>, fill: seq<nat>, b: nat)
    requires lo <= hi <= |v| && level < NUM_BYTES && Sorting(Bytes(v[lo..hi], level), starts, fill)
    requires InRegion(starts, p, i) && fill[p] <= i < hi - lo && b == Byte(v[lo + i].key, level) && fill[b] < hi - lo
    requires v' == Swap(v, lo + i, lo + fill[b])
    ensures Placed(v, v', lo, hi, level, starts, fill, b)
  {
    var w := Bytes(v[lo..hi], level);
    assert w[i] == b;
    SwapAdvances(w, starts, fill, p, i);
    SwapInRange(v, v', lo, hi, i, fill[b]);
    assert Bytes(v'[lo..hi], level) == Swap(w, i, fill[b]);
  }

  // ---------------------------------------------------------------- ska_byte_sort's partitions

  /** Offsets only advance, and only as far as slots get filled. */
  ghost predicate Advanced(off: seq<nat>, off': seq<nat>) {
    |off| == |off'| && forall b :: 0 <= b < |off| ==> off[b] <= off'[b]
  }

  /** What a pass over bucket p from slot `begin` has done when it stands at slot `it`. */
  ghost predicate Pass(v0: seq<Item>, v: seq<Item>, lo: nat, hi: nat, level: nat, starts: seq<nat>,
      off0: seq<nat>, off: seq<nat>, p: int, begin: nat, it: nat)
    requires level < NUM_BYTES
  {
    Rearranged(v0, v, lo, hi) && |starts| == BUCKETS + 1 && |off0| == BUCKETS && NonEmpty(starts, p) &&
    Sorting(Bytes(v[lo..hi], level), starts, off) && Advanced(off0, off) &&
    starts[p] <= begin <= it <= starts[p + 1] && off[p] <= it &&
    Unplaced(starts, off, BUCKETS) == Unplaced(starts, off0, BUCKETS) - (it - begin)
  }

  /** Places every item from slot `begin` on, `count` of them, four at a time. */
  method UnrollLoopFourTimes(a: array<Item>, lo: nat, hi: nat, level: nat, offset: Bounds, begin: nat, count: nat,
      ghost p: int, ghost starts: seq<nat>)
    requires level < NUM_BYTES && offset.Length == BUCKETS && |starts| == BUCKETS + 1 && NonEmpty(starts, p)
    requires Pass(a[..], a[..], lo, hi, level, starts, offset[..], offset[..], p, begin, begin)
    requires begin + count == starts[p + 1]
    modifies a, offset
    ensures Pass(old(a[..]), a[..], lo, hi, level, starts, old(offset[..]), offset[..], p, begin, begin + count)
  {
    ghost var v0, off0 := a[..], offset[..];
    var loops := count / 4;
    var remainder := count - loops * 4;
    var it := begin;
    while loops > 0
      invariant it + 4 * loops + remainder == starts[p + 1]
      invariant Pass(v0, a[..], lo, hi, level, starts, off0, offset[..], p, begin, it)
    {
      it := PlaceAt(a, lo, hi, level, offset, it, p, starts, v0, off0, begin);
      it := PlaceAt(a, lo, hi, level, offset, it, p, starts, v0, off0, begin);
      it := PlaceAt(a, lo, hi, level, offset, it, p, starts, v0, off0, begin);
      it := PlaceAt(a, lo, hi, level, offset, it, p, starts, v0, off0, begin);
      loops := loops - 1;
    }
    if remainder == 3 {
      it := PlaceAt(a, lo, hi, level, offset, it, p, starts, v0, off0, begin);
    }
    if remainder >= 2 {
      it := PlaceAt(a, lo, hi, level, offset, it, p, starts, v0, off0, begin);
    }
    if remainder >= 1 {
      it := PlaceAt(a, lo, hi, level, offset, it, p, starts, v0, off0, begin);
    }
  }

  /** One call of the loop body, and one step. */
  method PlaceAt(a: array<Item>, lo: nat, hi: nat, level: nat, offset: Bounds, it: nat, ghost p: int, ghost starts: seq<nat>,
      ghost v0: seq<Item>, ghost off0: seq<nat>, ghost begin: nat) returns (it': nat)
    requires level < NUM_BYTES && offset.Length == BUCKETS && |starts| == BUCKETS + 1
    requires Pass(v0, a[..], lo, hi, level, starts, off0, offset[..], p, begin, it) && it < starts[p + 1]
    modifies a, offset
    ensures it' == it + 1 && Pass(v0, a[..], lo, hi, level, starts, off0, offset[..], p, begin, it')
  {
    ghost var v := a[..];
    SlotOf(v, lo, hi, level, it, p, starts, offset[..]);
    ghost var off := offset[..];
    var b := Place(a, lo, hi, level, offset, it, p, starts, off);
    assert offset[..] == off[b := off[b] + 1];
    RearrangedTwice(v0, v, a[..], lo, hi);
    it' := it + 1;
  }

  /** The partition predicate: true when the bucket needs another pass. */
  method PlacePartition(a: array<Item>, lo: nat, hi: nat, level: nat, offset: Bounds, next: Bounds, p: nat, ghost starts: seq<nat>)
      returns (more: bool)
    requires Range(a, lo, hi) && level < NUM_BYTES && offset.Length == BUCKETS && offset != next && Ends(next[..], starts)
    requires Sorting(At(a, lo, hi, level), starts, offset[..]) && NonEmpty(starts, p)
    modifies a, offset
    ensures Rearranged(old(a[..]), a[..], lo, hi)
    ensures Sorting(At(a, lo, hi, level), starts, offset[..]) && Advanced(old(offset[..]), offset[..])
    ensures more == (offset[p] != starts[p + 1])
    ensures Unplaced(starts, offset[..], BUCKETS) == old(Unplaced(starts, offset[..], BUCKETS) - (starts[p + 1] - offset[p]))
  {
    if offset[p] == next[p] {
      return false;
    }
    assert Pass(a[..], a[..], lo, hi, level, starts, offset[..], offset[..], p, offset[p], offset[p]);
    UnrollLoopFourTimes(a, lo, hi, level, offset, offset[p], next[p] - offset[p], p, starts);
    return offset[p] != next[p];
  }

  // ---------------------------------------------------------------- std_partition over the buckets

  /** What one traversal of the remaining buckets has done, `kept` of them needing another. */
  ghost predicate Turn(v0: seq<Item>, v: seq<Item>, lo: nat, hi: nat, level: nat, starts: seq<nat>,
      off0: seq<nat>, off: seq<nat>, kept: nat)
    requires level < NUM_BYTES
  {
    Rearranged(v0, v, lo, hi) && |starts| == BUCKETS + 1 && |off0| == BUCKETS &&
    Sorting(Bytes(v[lo..hi], level), starts, off) && Advanced(off0, off) &&
    Unplaced(starts, off, BUCKETS) <= Unplaced(starts, off0, BUCKETS) &&
    (kept > 0 ==> Unplaced(starts, off, BUCKETS) < Unplaced(starts, off0, BUCKETS))
  }

  /** The first n listed buckets are non-empty. */
  ghost predicate AllNonEmpty(remaining: seq<nat>, n: nat, starts: seq<nat>) {
    n <= |remaining| && |starts| == BUCKETS + 1 && forall k :: 0 <= k < n ==> NonEmpty(starts, remaining[k])
  }

  /** The buckets in this part of the list are full. */
  ghost predicate Finished(remaining: seq<nat>, from: nat, to: nat, starts: seq<nat>, off: seq<nat>)
  {
    AllNonEmpty(remaining, to, starts) && |off| == BUCKETS &&
    forall k :: from <= k < to ==> off[remaining[k]] == starts[remaining[k] + 1]
  }

  lemma FinishedKept(remaining: seq<nat>, from: nat, to: nat, starts: seq<nat>, off: seq<nat>, off': seq<nat>)
    requires |starts| == BUCKETS + 1 && Offsets(starts, off) && Offsets(starts, off') && Advanced(off, off')
    requires Finished(remaining, from, to, starts, off)
    ensures Finished(remaining, from, to, starts, off')
  {
    forall k | from <= k < to
      ensures off'[remaining[k]] == starts[remaining[k] + 1]
    {
      assert NonEmpty(starts, remaining[k]);
    }
  }

  lemma FinishedSwap(remaining: seq<nat>, last: nat, begin: nat, it: nat, starts: seq<nat>, off: seq<nat>)
    requires AllNonEmpty(remaining, last, starts) && begin < it < last && Finished(remaining, begin, it, starts, off)
    ensures AllNonEmpty(Swap(remaining, begin, it), last, starts)
    ensures Finished(Swap(remaining, begin, it), begin + 1, it + 1, starts, off)
    ensures Rearranged(remaining, Swap(remaining, begin, it), 0, last)
  {
    SwapInRange(remaining, Swap(remaining, begin, it), 0, last, begin, it);
  }

  method PartitionCall(a: array<Item>, lo: nat, hi: nat, level: nat, offset: Bounds, next: Bounds, remaining: Bounds, last: nat,
      from: nat, k: nat, ghost starts: seq<nat>, ghost v0: seq<Item>, ghost off0: seq<nat>) returns (more: bool)
    requires level < NUM_BYTES && offset.Length == BUCKETS && offset != next && offset != remaining && Ends(next[..], starts)
    requires from <= k < last && AllNonEmpty(remaining[..], last, starts)
    requires Turn(v0, a[..], lo, hi, level, starts, off0, offset[..], from) && Finished(remaining[..], from, k, starts, offset[..])
    modifies a, offset
    ensures Turn(v0, a[..], lo, hi, level, starts, off0, offset[..], if more then from + 1 else from)
    ensures Finished(remaining[..], from, if more then k else k + 1, starts, offset[..])
  {
    ghost var v, off := a[..], offset[..];
    var p := remaining[k];
    assert NonEmpty(starts, p);
    more := PlacePartition(a, lo, hi, level, offset, next, p, starts);
    RearrangedTwice(v0, v, a[..], lo, hi);
    FinishedKept(remaining[..], from, k, starts, off, offset[..]);
  }

  /** Partitions the remaining buckets by a predicate that moves items: the buckets that need
      another pass come first. */
  method CustomStdPartition(a: array<Item>, lo: nat, hi: nat, level: nat, offset: Bounds, next: Bounds, remaining: Bounds, last: nat,
      ghost starts: seq<nat>) returns (kept: nat)
    requires level < NUM_BYTES && offset.Length == BUCKETS && Ends(next[..], starts)
    requires offset != next && offset != remaining && next != remaining && AllNonEmpty(remaining[..], last, starts)
    requires Range(a, lo, hi) && Sorting(At(a, lo, hi, level), starts, offset[..])
    modifies a, offset, remaining
    ensures kept <= last && Turn(old(a[..]), a[..], lo, hi, level, starts, old(offset[..]), offset[..], kept)
    ensures Rearranged(old(remaining[..]), remaining[..], 0, last)
    ensures Finished(remaining[..], kept, last, starts, offset[..])
  {
    ghost var v0, off0 := a[..], offset[..];
    var begin := 0;
    var more := true;
    while more && begin < last
      invariant begin <= last && (!more ==> begin < last)
      invariant Turn(v0, a[..], lo, hi, level, starts, off0, offset[..], begin)
      invariant remaining[..] == old(remaining[..]) && next[..] == old(next[..])
      invariant Finished(remaining[..], begin, if more then begin else begin + 1, starts, offset[..])
      decreases last - begin, more
    {
      more := PartitionCall(a, lo, hi, level, offset, next, remaining, last, begin, begin, starts, v0, off0);
      if more {
        begin := begin + 1;
      }
    }
    if more {
      return last;
    }
    kept := PartitionRest(a, lo, hi, level, offset, next, remaining, last, begin, starts, v0, off0);
  }

  /** Swaps an unfinished bucket with the first finished one. */
  method KeepInFront(remaining: Bounds, last: nat, begin: nat, it: nat, ghost starts: seq<nat>, ghost off: seq<nat>)
    requires AllNonEmpty(remaining[..], last, starts) && begin < it < last && Finished(remaining[..], begin, it, starts, off)
    modifies remaining
    ensures AllNonEmpty(remaining[..], last, starts) && Finished(remaining[..], begin + 1, it + 1, starts, off)
    ensures Rearranged(old(remaining[..]), remaining[..], 0, last)
  {
    ghost var rem := remaining[..];
    FinishedSwap(rem, last, begin, it, starts, off);
    remaining[begin], remaining[it] := remaining[it], remaining[begin];
    assert remaining[..] == Swap(rem, begin, it);
  }

  /** The second loop of the partition, after the first bucket that is finished. */
  method PartitionRest(a: array<Item>, lo: nat, hi: nat, level: nat, offset: Bounds, next: Bounds, remaining: Bounds, last: nat,
      first: nat, ghost starts: seq<nat>, ghost v0: seq<Item>, ghost off0: seq<nat>) returns (begin: nat)
    requires level < NUM_BYTES && offset.Length == BUCKETS && Ends(next[..], starts)
    requires offset != next && offset != remaining && next != remaining && AllNonEmpty(remaining[..], last, starts)
    requires first < last && Turn(v0, a[..], lo, hi, level, starts, off0, offset[..], first)
    requires Finished(remaining[..], first, first + 1, starts, offset[..])
    modifies a, offset, remaining
    ensures begin <= last && Turn(v0, a[..], lo, hi, level, starts, off0, offset[..], begin)
    ensures Rearranged(old(remaining[..]), remaining[..], 0, last)
    ensures Finished(remaining[..], begin, last, starts, offset[..])
  {
    begin := first;
    var it := begin + 1;
    while it < last
      invariant begin < it <= last && Ends(next[..], starts) && AllNonEmpty(remaining[..], last, starts)
      invariant Turn(v0, a[..], lo, hi, level, starts, off0, offset[..], begin)
      invariant Rearranged(old(remaining[..]), remaining[..], 0, last)
      invariant Finished(remaining[..], begin, it, starts, offset[..])
    {
      var more := PartitionCall(a, lo, hi, level, offset, next, remaining, last, begin, it, starts, v0, off0);
      if more {
        ghost var rem := remaining[..];
        KeepInFront(remaining, last, begin, it, starts, offset[..]);
        RearrangedTwice(old(remaining[..]), rem, remaining[..], 0, last);
        begin := begin + 1;
      }
      it := it + 1;
    }
  }

  // ---------------------------------------------------------------- bucketing by one byte

  /** Every bucket that may still have free slots is among the first n listed. */
  ghost predicate OthersFull(remaining: seq<nat>, n: nat, starts: seq<nat>, off: seq<nat>) {
    |starts| == BUCKETS + 1 && |off| == BUCKETS && n <= |remaining| &&
    forall b: nat {:trigger NonEmpty(starts, b)} :: NonEmpty(starts, b) && off[b] != starts[b + 1] ==> b in remaining[..n]
  }

  lemma OthersFullNext(rem: seq<nat>, rem': seq<nat>, last: nat, kept: nat, starts: seq<nat>, off: seq<nat>, off': seq<nat>)
    requires OthersFull(rem, last, starts, off) && Rearranged(rem, rem', 0, last) && kept <= last
    requires Offsets(starts, off) && Offsets(starts, off') && Advanced(off, off') && Finished(rem', kept, last, starts, off')
    ensures OthersFull(rem', kept, starts, off')
  {
    forall b: nat | NonEmpty(starts, b) && off'[b] != starts[b + 1]
      ensures b in rem'[..kept]
    {
      assert b in rem[..last];
      assert rem[0..last] == rem[..last] && rem'[0..last] == rem'[..last];
      assert b in multiset(rem'[..last]);
      var k :| 0 <= k < last && rem'[..last][k] == b;
      assert rem'[..kept][k] == b;
    }
  }

  lemma AtMostOneLeft(w: seq<int>, remaining: seq<nat>, n: nat, starts: seq<nat>, off: seq<nat>)
    requires Sorting(w, starts, off) && OthersFull(remaining, n, starts, off) && n <= 1
    ensures Bucketed(w, starts)
  {
    LastBucketIsRight(w, starts, off, if n == 1 then remaining[0] else -1);
  }

  lemma ListsKept(rem: seq<nat>, rem': seq<nat>, num: nat, starts: seq<nat>)
    requires num <= |rem| && Lists(rem[..num], starts) && Rearranged(rem, rem', 0, num)
    ensures Lists(rem'[..num], starts)
  {
    assert rem[0..num] == rem[..num] && rem'[0..num] == rem'[..num];
    forall i | 0 <= i < num
      ensures NonEmpty(starts, rem'[..num][i])
    {
      assert rem'[..num][i] in multiset(rem[..num]);
    }
  }

  /** What holds of the list of buckets and the offsets between two traversals. */
  ghost predicate Between(w: seq<int>, rem: seq<nat>, num: nat, last: nat, starts: seq<nat>, off: seq<nat>) {
    last <= num <= |rem| && Lists(rem[..num], starts) && Sorting(w, starts, off) && OthersFull(rem, last, starts, off)
  }

  lemma BetweenNext(w: seq<int>, w': seq<int>, rem: seq<nat>, rem': seq<nat>, num: nat, last: nat, kept: nat,
      starts: seq<nat>, off: seq<nat>, off': seq<nat>)
    requires Between(w, rem, num, last, starts, off) && Rearranged(rem, rem', 0, last) && kept <= last
    requires Sorting(w', starts, off') && Advanced(off, off') && Finished(rem', kept, last, starts, off')
    ensures Between(w', rem', num, kept, starts, off')
  {
    OthersFullNext(rem, rem', last, kept, starts, off, off');
    RearrangedWider(rem, rem', 0, last, 0, num);
    ListsKept(rem, rem', num, starts);
  }

  lemma BetweenLists(w: seq<int>, rem: seq<nat>, num: nat, last: nat, starts: seq<nat>, off: seq<nat>)
    requires Between(w, rem, num, last, starts, off)
    ensures AllNonEmpty(rem, last, starts)
  {
    assert forall k :: 0 <= k < last ==> rem[..num][k] == rem[k];
  }

  /** ska_byte_sort up to the recursion: the bytes are bucketed in order. */
  method SkaPartition(a: array<Item>, lo: nat, hi: nat, level: nat)
      returns (next: Bounds, remaining: Bounds, num: nat, ghost starts: seq<nat>)
    requires Range(a, lo, hi) && level < NUM_BYTES
    modifies a
    ensures fresh(next) && fresh(remaining) && num <= remaining.Length
    ensures Rearranged(old(a[..]), a[..], lo, hi) && Bucketed(At(a, lo, hi, level), starts)
    ensures Ends(next[..], starts) && Lists(remaining[..num], starts)
  {
    var offset := CountBytes(a, lo, hi, level);
    next, remaining, num, starts := LayOut(offset, At(a, lo, hi, level));
    SkaTurns(a, lo, hi, level, offset, next, remaining, num, starts);
  }

  method SkaTurns(a: array<Item>, lo: nat, hi: nat, level: nat, offset: Bounds, next: Bounds, remaining: Bounds, num: nat,
      ghost starts: seq<nat>)
    requires Range(a, lo, hi) && level < NUM_BYTES && offset.Length == BUCKETS && Ends(next[..], starts)
    requires offset != next && offset != remaining && next != remaining
    requires Between(At(a, lo, hi, level), remaining[..], num, num, starts, offset[..])
    modifies a, offset, remaining
    ensures Rearranged(old(a[..]), a[..], lo, hi) && Bucketed(At(a, lo, hi, level), starts)
    ensures num <= remaining.Length && Lists(remaining[..num], starts)
  {
    var last := num;
    while last > 1
      invariant Ends(next[..], starts) && Rearranged(old(a[..]), a[..], lo, hi)
      invariant Between(At(a, lo, hi, level), remaining[..], num, last, starts, offset[..])
      decreases Unplaced(starts, offset[..], BUCKETS), last
    {
      ghost var v, rem, off := a[..], remaining[..], offset[..];
      BetweenLists(At(a, lo, hi, level), rem, num, last, starts, off);
      var kept := CustomStdPartition(a, lo, hi, level, offset, next, remaining, last, starts);
      BetweenNext(Bytes(v[lo..hi], level), At(a, lo, hi, level), rem, remaining[..], num, last, kept, starts, off, offset[..]);
      RearrangedTwice(old(a[..]), v, a[..], lo, hi);
      UnplacedIsNat(starts, offset[..], BUCKETS);
      last := kept;
    }
    AtMostOneLeft(At(a, lo, hi, level), remaining[..], last, starts, offset[..]);
  }

  // ---------------------------------------------------------------- american_flag_sort's blocks

  /** Blocks before `cur` are full; those after it are filled as far as their offsets say. */
  ghost predicate FlagBase(w: seq<int>, rem: seq<nat>, starts: seq<nat>, off: seq<nat>, fill: seq<nat>, cur: nat) {
    Sorting(w, starts, fill) && ListsTo(rem, starts, BUCKETS) && |off| == BUCKETS && cur < |rem| - 1 &&
    (forall k :: 0 <= k < cur ==> fill[rem[k]] == starts[rem[k] + 1]) &&
    (forall k :: cur < k < |rem| ==> fill[rem[k]] == off[rem[k]])
  }

  /** The walk stands at slot `it` of block `cur`, the slots before it being right. */
  ghost predicate Flag(w: seq<int>, rem: seq<nat>, starts: seq<nat>, off: seq<nat>, fill: seq<nat>, cur: nat, it: nat) {
    FlagBase(w, rem, starts, off, fill, cur) && InRegion(starts, rem[cur], it) && fill[rem[cur]] == it
  }

  ghost predicate AllButLast(w: seq<int>, rem: seq<nat>, starts: seq<nat>, fill: seq<nat>) {
    Sorting(w, starts, fill) && ListsTo(rem, starts, BUCKETS) && |rem| > 0 &&
    forall k :: 0 <= k < |rem| - 1 ==> fill[rem[k]] == starts[rem[k] + 1]
  }

  lemma {:induction false} EmptyBetween(w: seq<int>, starts: seq<nat>, b: nat, c: nat)
    requires Layout(w, starts) && b <= c <= BUCKETS
    requires forall d :: b <= d < c ==> !NonEmpty(starts, d)
    ensures starts[b] == starts[c]
    decreases c
  {
    if b < c {
      EmptyBetween(w, starts, b, c - 1);
      assert Ordered(starts, c - 1, c);
      assert !NonEmpty(starts, c - 1);
    }
  }

  lemma ListedOrder(rem: seq<nat>, starts: seq<nat>, k: nat, b: nat)
    requires ListsTo(rem, starts, BUCKETS) && k < |rem| && NonEmpty(starts, b)
    ensures rem[k] <= b || (k > 0 && b <= rem[k - 1])
  {
    assert Listed(rem, starts, BUCKETS, b);
    var l :| 0 <= l < |rem| && rem[l] == b;
    if l < k {
      assert l == k - 1 || rem[l] < rem[k - 1];
    } else {
      assert l == k || rem[k] < rem[l];
    }
  }

  /** The k-th listed bucket starts where the one before it ends. */
  lemma ListedAdjacent(w: seq<int>, rem: seq<nat>, starts: seq<nat>, k: nat)
    requires Layout(w, starts) && ListsTo(rem, starts, BUCKETS) && k < |rem|
    ensures starts[rem[k]] == if k == 0 then 0 else starts[rem[k - 1] + 1]
  {
    var from := if k == 0 then 0 else rem[k - 1] + 1;
    forall b | from <= b < rem[k]
      ensures !NonEmpty(starts, b)
    {
      if NonEmpty(starts, b) {
        ListedOrder(rem, starts, k, b);
      }
    }
    EmptyBetween(w, starts, from, rem[k]);
  }

  /** The item at the walk's slot belongs there: step over it. */
  lemma FlagAdvance(w: seq<int>, rem: seq<nat>, starts: seq<nat>, off: seq<nat>, fill: seq<nat>, cur: nat, it: nat)
    requires Flag(w, rem, starts, off, fill, cur, it)
    requires it < |w| && w[it] == rem[cur]
    ensures var fill' := fill[rem[cur] := it + 1];
      FlagBase(w, rem, starts, off, fill', cur) && Unplaced(starts, fill', BUCKETS) == Unplaced(starts, fill, BUCKETS) - 1
  {
    SwapAdvances(w, starts, fill, rem[cur], it);
    assert Swap(w, it, it) == w;
  }

  /** The item belongs in a block after this one, whose offset is up to date. */
  lemma FlagOther(w: seq<int>, rem: seq<nat>, starts: seq<nat>, off: seq<nat>, fill: seq<nat>, cur: nat, it: nat) returns (k: nat)
    requires Flag(w, rem, starts, off, fill, cur, it)
    requires it < |w| && w[it] != rem[cur]
    ensures cur < k < |rem| && rem[k] == w[it] && off[w[it]] == fill[w[it]]
  {
    SwapAdvances(w, starts, fill, rem[cur], it);
    assert Listed(rem, starts, BUCKETS, w[it]);
    k :| 0 <= k < |rem| && rem[k] == w[it];
  }

  lemma FlagPlaced(w: seq<int>, w': seq<int>, rem: seq<nat>, starts: seq<nat>, off: seq<nat>, fill: seq<nat>, cur: nat, it: nat, k: nat)
    requires Flag(w, rem, starts, off, fill, cur, it) && cur < k < |rem| && off[rem[k]] == fill[rem[k]]
    requires Sorting(w', starts, fill[rem[k] := fill[rem[k]] + 1])
    ensures Flag(w', rem, starts, off[rem[k] := fill[rem[k]] + 1], fill[rem[k] := fill[rem[k]] + 1], cur, it)
  {
  }

  /** With another block before the last, the walk stays clear of the last element. */
  lemma FlagBetween(w: seq<int>, rem: seq<nat>, starts: seq<nat>, off: seq<nat>, fill: seq<nat>, cur: nat, k: nat)
    requires FlagBase(w, rem, starts, off, fill, cur) && cur < k < |rem| - 1
    ensures fill[rem[cur]] < |w| - 1
  {
    var n := |rem| - 1;
    assert NonEmpty(starts, rem[n]) && NonEmpty(starts, rem[k]) && NonEmpty(starts, rem[cur]);
    RegionFits(w, starts, rem[n]);
    RegionOrder(w, starts, rem[cur], rem[k]);
    RegionOrder(w, starts, rem[k], rem[n]);
  }

  /** Nothing but the last block's one item is left when the walk reaches the last element. */
  lemma FlagLastElement(w: seq<int>, rem: seq<nat>, starts: seq<nat>, off: seq<nat>, fill: seq<nat>, cur: nat)
    requires FlagBase(w, rem, starts, off, fill, cur) && fill[rem[cur]] == |w| - 1
    ensures AllButLast(w, rem, starts, fill)
  {
    var n := |rem| - 1;
    assert NonEmpty(starts, rem[n]) && NonEmpty(starts, rem[cur]);
    RegionFits(w, starts, rem[n]);
    RegionOrder(w, starts, rem[cur], rem[n]);
    if cur + 1 < n {
      FlagBetween(w, rem, starts, off, fill, cur, cur + 1);
    }
  }

  /** The block is done; the full blocks that follow are passed over. */
  lemma FlagMove(w: seq<int>, rem: seq<nat>, starts: seq<nat>, off: seq<nat>, fill: seq<nat>, cur: nat, cur': nat)
    requires FlagBase(w, rem, starts, off, fill, cur) && fill[rem[cur]] == starts[rem[cur] + 1] && cur < cur' < |rem|
    requires forall k :: cur < k < cur' ==> off[rem[k]] == starts[rem[k] + 1]
    requires cur' < |rem| - 1 ==> off[rem[cur']] != starts[rem[cur'] + 1]
    ensures if cur' == |rem| - 1 then AllButLast(w, rem, starts, fill)
      else Flag(w, rem, starts, off, fill, cur', off[rem[cur']])
  {
    assert NonEmpty(starts, rem[cur']);
  }

  lemma FlagDone(w: seq<int>, rem: seq<nat>, starts: seq<nat>, fill: seq<nat>)
    requires AllButLast(w, rem, starts, fill)
    ensures Bucketed(w, starts)
  {
    forall b | NonEmpty(starts, b) && b != rem[|rem| - 1]
      ensures fill[b] == starts[b + 1]
    {
      assert Listed(rem, starts, BUCKETS, b);
      var k :| 0 <= k < |rem| && rem[k] == b;
    }
    LastBucketIsRight(w, starts, fill, rem[|rem| - 1]);
  }

  /** Skips to the next block with a free slot, or to the last block. */
  method NextBlock(offset: Bounds, next: Bounds, remaining: Bounds, cur: nat, num: nat, ghost starts: seq<nat>) returns (cur': nat)
    requires offset.Length == BUCKETS && Ends(next[..], starts) && num <= remaining.Length && cur < num - 1
    requires ListsTo(remaining[..num], starts, BUCKETS)
    ensures cur < cur' < num
    ensures forall k :: cur < k < cur' ==> offset[remaining[k]] == starts[remaining[k] + 1]
    ensures cur' < num - 1 ==> offset[remaining[cur']] != starts[remaining[cur'] + 1]
  {
    assert forall k :: 0 <= k < num ==> remaining[..num][k] == remaining[k];
    assert forall b :: 0 <= b < BUCKETS ==> next[..][b] == next[b];
    cur' := cur + 1;
    while cur' != num - 1 && offset[remaining[cur']] == next[remaining[cur']]
      invariant cur < cur' < num
      invariant forall k :: cur < k < cur' ==> offset[remaining[k]] == starts[remaining[k] + 1]
    {
      cur' := cur' + 1;
    }
  }

  /** One turn of the cycling loop. */
  method FlagStep(a: array<Item>, lo: nat, hi: nat, level: nat, offset: Bounds, next: Bounds, remaining: Bounds, num: nat,
      cur: nat, it: nat, ghost starts: seq<nat>, ghost fill: seq<nat>)
      returns (cur': nat, it': nat, done: bool, ghost fill': seq<nat>)
    requires Range(a, lo, hi) && level < NUM_BYTES && offset.Length == BUCKETS && Ends(next[..], starts)
    requires offset != next && offset != remaining && next != remaining && num <= remaining.Length
    requires Flag(At(a, lo, hi, level), remaining[..num], starts, offset[..], fill, cur, it)
    modifies a, offset
    ensures Rearranged(old(a[..]), a[..], lo, hi)
    ensures if done then AllButLast(At(a, lo, hi, level), remaining[..num], starts, fill')
      else Flag(At(a, lo, hi, level), remaining[..num], starts, offset[..], fill', cur', it')
    ensures |starts| == BUCKETS + 1 && |fill| == |fill'| == BUCKETS
    ensures 0 <= Unplaced(starts, fill', BUCKETS) < Unplaced(starts, fill, BUCKETS)
  {
    ghost var w, rem, off := At(a, lo, hi, level), remaining[..num], offset[..];
    cur', it', done := cur, it, false;
    var block := remaining[cur];
    assert block == rem[cur];
    RegionFits(w, starts, block);
    var b := Byte(a[lo + it].key, level);
    assert w[it] == b;
    if b == block {
      FlagAdvance(w, rem, starts, off, fill, cur, it);
      fill' := fill[block := it + 1];
      it' := it + 1;
      if it' == hi - lo - 1 {
        FlagLastElement(w, rem, starts, off, fill', cur);
        done := true;
      } else if it' == next[block] {
        cur' := NextBlock(offset, next, remaining, cur, num, starts);
        FlagMove(w, rem, starts, off, fill', cur, cur');
        done := cur' == num - 1;
        it' := offset[remaining[cur']];
      }
    } else {
      ghost var k := FlagOther(w, rem, starts, off, fill, cur, it);
      var moved := Place(a, lo, hi, level, offset, it, block, starts, fill);
      fill' := fill[moved := fill[moved] + 1];
      FlagPlaced(w, At(a, lo, hi, level), rem, starts, off, fill, cur, it, k);
    }
    UnplacedIsNat(starts, fill', BUCKETS);
  }

  /** american_flag_sort up to the recursion: the bytes are bucketed in order. */
  method FlagPartition(a: array<Item>, lo: nat, hi: nat, level: nat)
      returns (next: Bounds, remaining: Bounds, num: nat, ghost starts: seq<nat>)
    requires Range(a, lo, hi) && level < NUM_BYTES
    modifies a
    ensures fresh(next) && fresh(remaining) && num <= remaining.Length
    ensures Rearranged(old(a[..]), a[..], lo, hi) && Bucketed(At(a, lo, hi, level), starts)
    ensures Ends(next[..], starts) && ListsTo(remaining[..num], starts, BUCKETS)
  {
    var offset := CountBytes(a, lo, hi, level);
    next, remaining, num, starts := LayOut(offset, At(a, lo, hi, level));
    if num > 1 {
      FlagWalk(a, lo, hi, level, offset, next, remaining, num, starts);
    } else {
      OneBlock(At(a, lo, hi, level), remaining[..num], starts, offset[..]);
    }
  }

  lemma OneBlock(w: seq<int>, rem: seq<nat>, starts: seq<nat>, off: seq<nat>)
    requires Sorting(w, starts, off) && ListsTo(rem, starts, BUCKETS) && |rem| <= 1
    ensures Bucketed(w, starts)
  {
    forall b | NonEmpty(starts, b)
      ensures b in rem
    {
      assert Listed(rem, starts, BUCKETS, b);
    }
    LastBucketIsRight(w, starts, off, if |rem| == 1 then rem[0] else -1);
  }

  method FlagWalk(a: array<Item>, lo: nat, hi: nat, level: nat, offset: Bounds, next: Bounds, remaining: Bounds, num: nat,
      ghost starts: seq<nat>)
    requires Range(a, lo, hi) && level < NUM_BYTES && offset.Length == BUCKETS && Ends(next[..], starts)
    requires offset != next && offset != remaining && next != remaining && 1 < num <= remaining.Length
    requires Sorting(At(a, lo, hi, level), starts, offset[..]) && ListsTo(remaining[..num], starts, BUCKETS)
    requires forall b :: NonEmpty(starts, b) ==> offset[b] == starts[b]
    modifies a, offset
    ensures Rearranged(old(a[..]), a[..], lo, hi) && Bucketed(At(a, lo, hi, level), starts)
  {
    ghost var rem := remaining[..num];
    ghost var fill := offset[..];
    var cur, it, done := 0, 0, false;
    ListedAdjacent(At(a, lo, hi, level), rem, starts, 0);
    assert NonEmpty(starts, rem[0]);
    while !done
      invariant remaining[..num] == rem && Ends(next[..], starts) && Rearranged(old(a[..]), a[..], lo, hi)
      invariant |fill| == BUCKETS
      invariant if done then AllButLast(At(a, lo, hi, level), rem, starts, fill)
        else Flag(At(a, lo, hi, level), rem, starts, offset[..], fill, cur, it)
      decreases Unplaced(starts, fill, BUCKETS)
    {
      ghost var v := a[..];
      cur, it, done, fill := FlagStep(a, lo, hi, level, offset, next, remaining, num, cur, it, starts, fill);
      RearrangedTwice(old(a[..]), v, a[..], lo, hi);
    }
    FlagDone(At(a, lo, hi, level), rem, starts, fill);
  }

  // ---------------------------------------------------------------- recursion over the bytes

  /** The sorted result: what every sorter below establishes. */
  ghost predicate SortedRange(v: seq<Item>, v': seq<Item>, lo: nat, hi: nat) {
    Rearranged(v, v', lo, hi) && Sorted(v'[lo..hi])
  }

  /** A range bucketed at one level, with some of its buckets sorted. */
  ghost predicate BucketsSorted(v: seq<Item>, level: nat, starts: seq<nat>, rem: seq<nat>, from: nat, to: nat)
    requires level < NUM_BYTES
  {
    ByByte(v, level, starts) && Lists(rem, starts) && to <= |rem| &&
    forall k :: from <= k < to ==> RegionSorted(v, starts, rem[k])
  }

  /** Between two buckets: those listed from `first` to `beyond` are sorted. */
  ghost predicate Recursing(v0: seq<Item>, v: seq<Item>, lo: nat, hi: nat, level: nat, starts: seq<nat>, rem: seq<nat>,
      first: nat, beyond: nat)
    requires level < NUM_BYTES
  {
    Rearranged(v0, v, lo, hi) && BucketsSorted(v[lo..hi], level, starts, rem, first, beyond)
  }

  lemma RegionSlice(v: seq<Item>, lo: nat, hi: nat, starts: seq<nat>, b: nat)
    requires lo <= hi <= |v| && |starts| == BUCKETS + 1 && b < BUCKETS && starts[b] <= starts[b + 1] <= hi - lo
    ensures Region(v[lo..hi], starts, b) == v[lo + starts[b]..lo + starts[b + 1]]
  {
    var r, s := Region(v[lo..hi], starts, b), v[lo + starts[b]..lo + starts[b + 1]];
    assert |r| == |s|;
    forall i | 0 <= i < |r|
      ensures r[i] == s[i]
    {
      assert r[i] == v[lo..hi][starts[b] + i];
    }
  }

  /** The next bucket can be sorted by the bytes below. */
  lemma BucketReady(v0: seq<Item>, v: seq<Item>, lo: nat, hi: nat, level: nat, starts: seq<nat>, rem: seq<nat>,
      first: nat, beyond: nat, k: nat)
    requires level < NUM_BYTES && Recursing(v0, v, lo, hi, level, starts, rem, first, beyond) && k < |rem|
    ensures NonEmpty(starts, rem[k]) && starts[rem[k]] <= starts[rem[k] + 1] <= hi - lo
    ensures SamePrefix(v[lo + starts[rem[k]]..lo + starts[rem[k] + 1]], level + 1)
  {
    var b := rem[k];
    RegionPrefix(v[lo..hi], level, starts, b);
    RegionSlice(v, lo, hi, starts, b);
  }

  lemma BucketKeeps(v: seq<Item>, v': seq<Item>, lo: nat, hi: nat, level: nat, starts: seq<nat>, b: nat)
    requires level < NUM_BYTES && lo <= hi <= |v| && ByByte(v[lo..hi], level, starts) && b < BUCKETS
    requires starts[b] <= starts[b + 1] <= hi - lo
    requires SortedRange(v, v', lo + starts[b], lo + starts[b + 1])
    ensures Rearranged(v, v', lo, hi) && ByByte(v'[lo..hi], level, starts) && RegionSorted(v'[lo..hi], starts, b)
    ensures forall c :: c != b && RegionSorted(v[lo..hi], starts, c) ==> RegionSorted(v'[lo..hi], starts, c)
  {
    RearrangedWider(v, v', lo + starts[b], lo + starts[b + 1], lo, hi);
    RegionRearranged(v[lo..hi], v'[lo..hi], level, starts, b);
    RegionSlice(v', lo, hi, starts, b);
  }

  /** One more bucket is sorted, before or after those that are. */
  lemma BucketSorted(v0: seq<Item>, v: seq<Item>, v': seq<Item>, lo: nat, hi: nat, level: nat, starts: seq<nat>, rem: seq<nat>,
      first: nat, beyond: nat, k: nat)
    requires level < NUM_BYTES && Recursing(v0, v, lo, hi, level, starts, rem, first, beyond)
    requires k < |rem| && (k + 1 == first || (k == beyond && first == 0))
    requires NonEmpty(starts, rem[k]) && starts[rem[k]] <= starts[rem[k] + 1] <= hi - lo
    requires SortedRange(v, v', lo + starts[rem[k]], lo + starts[rem[k] + 1])
    ensures if k + 1 == first then Recursing(v0, v', lo, hi, level, starts, rem, k, beyond)
      else Recursing(v0, v', lo, hi, level, starts, rem, first, k + 1)
  {
    BucketKeeps(v, v', lo, hi, level, starts, rem[k]);
    RearrangedTwice(v0, v, v', lo, hi);
    forall j | first <= j < beyond
      ensures RegionSorted(v'[lo..hi], starts, rem[j])
    {
      ListedOnce(rem, starts, if j < k then j else k, if j < k then k else j);
    }
  }

  lemma AllBucketsSorted(v: seq<Item>, level: nat, starts: seq<nat>, rem: seq<nat>)
    requires level < NUM_BYTES && BucketsSorted(v, level, starts, rem, 0, |rem|)
    ensures Sorted(v)
  {
    forall b | NonEmpty(starts, b)
      ensures RegionSorted(v, starts, b)
    {
      assert b in multiset(rem);
      var k :| 0 <= k < |rem| && rem[k] == b;
    }
    BucketsSort(v, level, starts);
  }

  lemma LastLevel(v: seq<Item>, starts: seq<nat>)
    requires ByByte(v, NUM_BYTES - 1, starts)
    ensures Sorted(v)
  {
    forall b | NonEmpty(starts, b)
      ensures RegionSorted(v, starts, b)
    {
      LastByteSorts(v, starts, b);
    }
    BucketsSort(v, NUM_BYTES - 1, starts);
  }

  lemma PartitionedByByte(v: seq<Item>, v': seq<Item>, lo: nat, hi: nat, level: nat, starts: seq<nat>)
    requires level < NUM_BYTES && Rearranged(v, v', lo, hi) && SamePrefix(v[lo..hi], level)
    requires Bucketed(Bytes(v'[lo..hi], level), starts)
    ensures ByByte(v'[lo..hi], level, starts)
  {
    SamePrefixKept(v[lo..hi], v'[lo..hi], level);
  }

  /** Sorts one bucket by the bytes below. */
  method SortBucket(a: array<Item>, lo: nat, hi: nat, level: nat)
    requires Range(a, lo, hi) && level < NUM_BYTES - 1 && SamePrefix(a[lo..hi], level + 1)
    modifies a
    ensures SortedRange(old(a[..]), a[..], lo, hi)
    decreases NUM_BYTES - level, 0
  {
    var done := StdSortIfLessThanThreshold(a, lo, hi);
    if !done {
      Sort(a, lo, hi, level + 1);
    }
  }

  /** One turn of either recursion loop: sorts the k-th listed bucket. */
  method RecurseInto(a: array<Item>, lo: nat, hi: nat, level: nat, startOffset: nat, endOffset: nat,
      ghost v0: seq<Item>, ghost starts: seq<nat>, ghost rem: seq<nat>, ghost first: nat, ghost beyond: nat, ghost k: nat)
    requires level < NUM_BYTES - 1 && Recursing(v0, a[..], lo, hi, level, starts, rem, first, beyond)
    requires k < |rem| && (k + 1 == first || (k == beyond && first == 0))
    requires rem[k] < BUCKETS && |starts| == BUCKETS + 1 && startOffset == starts[rem[k]] && endOffset == starts[rem[k] + 1]
    modifies a
    ensures if k + 1 == first then Recursing(v0, a[..], lo, hi, level, starts, rem, k, beyond)
      else Recursing(v0, a[..], lo, hi, level, starts, rem, first, k + 1)
    decreases NUM_BYTES - level, 1
  {
    ghost var v := a[..];
    BucketReady(v0, v, lo, hi, level, starts, rem, first, beyond, k);
    assert a[lo + startOffset..lo + endOffset] == v[lo + startOffset..lo + endOffset];
    SortBucket(a, lo + startOffset, lo + endOffset, level);
    BucketSorted(v0, v, a[..], lo, hi, level, starts, rem, first, beyond, k);
  }

  method Sort(a: array<Item>, lo: nat, hi: nat, level: nat)
    requires Range(a, lo, hi) && level < NUM_BYTES && SamePrefix(a[lo..hi], level)
    modifies a
    ensures SortedRange(old(a[..]), a[..], lo, hi)
    decreases NUM_BYTES - level, 4
  {
    if hi - lo < AMERICAN_FLAG_THRESHOLD {
      AmericanFlagSort(a, lo, hi, level);
    } else {
      SkaByteSort(a, lo, hi, level);
    }
  }

  /** Recurses bucket by bucket upwards. */
  method AmericanFlagSort(a: array<Item>, lo: nat, hi: nat, level: nat)
    requires Range(a, lo, hi) && level < NUM_BYTES && SamePrefix(a[lo..hi], level)
    modifies a
    ensures SortedRange(old(a[..]), a[..], lo, hi)
    decreases NUM_BYTES - level, 3
  {
    ghost var v0 := a[..];
    var next, remaining, num, starts := FlagPartition(a, lo, hi, level);
    PartitionedByByte(v0, a[..], lo, hi, level, starts);
    if level + 1 == NUM_BYTES {
      LastLevel(a[lo..hi], starts);
      return;
    }
    AmericanRecurse(a, lo, hi, level, next, remaining, num, v0, starts);
  }

  method AmericanRecurse(a: array<Item>, lo: nat, hi: nat, level: nat, next: Bounds, remaining: Bounds, num: nat,
      ghost v0: seq<Item>, ghost starts: seq<nat>)
    requires level < NUM_BYTES - 1 && Rearranged(v0, a[..], lo, hi) && ByByte(a[lo..hi], level, starts)
    requires Ends(next[..], starts) && num <= remaining.Length && ListsTo(remaining[..num], starts, BUCKETS)
    modifies a
    ensures SortedRange(v0, a[..], lo, hi)
    decreases NUM_BYTES - level, 2
  {
    ghost var rem := remaining[..num];
    ListsAll(rem, starts);
    var startOffset, k := 0, 0;
    while k < num
      invariant k <= num && remaining[..num] == rem && Ends(next[..], starts)
      invariant Recursing(v0, a[..], lo, hi, level, starts, rem, 0, k)
      invariant startOffset == if k == 0 then 0 else starts[rem[k - 1] + 1]
    {
      ListedAdjacent(At(a, lo, hi, level), rem, starts, k);
      assert remaining[k] == rem[k] && NonEmpty(starts, rem[k]);
      var endOffset := next[remaining[k]];
      RecurseInto(a, lo, hi, level, startOffset, endOffset, v0, starts, rem, 0, k, k);
      startOffset := endOffset;
      k := k + 1;
    }
    AllBucketsSorted(a[lo..hi], level, starts, rem);
  }

  /** Recurses through the buckets in the order that the partitioning left, from the back. */
  method SkaByteSort(a: array<Item>, lo: nat, hi: nat, level: nat)
    requires Range(a, lo, hi) && level < NUM_BYTES && SamePrefix(a[lo..hi], level)
    modifies a
    ensures SortedRange(old(a[..]), a[..], lo, hi)
    decreases NUM_BYTES - level, 3
  {
    ghost var v0 := a[..];
    var next, remaining, num, starts := SkaPartition(a, lo, hi, level);
    PartitionedByByte(v0, a[..], lo, hi, level, starts);
    if level + 1 == NUM_BYTES {
      LastLevel(a[lo..hi], starts);
      return;
    }
    SkaRecurse(a, lo, hi, level, next, remaining, num, v0, starts);
  }

  method SkaRecurse(a: array<Item>, lo: nat, hi: nat, level: nat, next: Bounds, remaining: Bounds, num: nat,
      ghost v0: seq<Item>, ghost starts: seq<nat>)
    requires level < NUM_BYTES - 1 && Rearranged(v0, a[..], lo, hi) && ByByte(a[lo..hi], level, starts)
    requires Ends(next[..], starts) && num <= remaining.Length && Lists(remaining[..num], starts)
    modifies a
    ensures SortedRange(v0, a[..], lo, hi)
    decreases NUM_BYTES - level, 2
  {
    ghost var rem := remaining[..num];
    var k := num;
    while k > 0
      invariant k <= num && remaining[..num] == rem && Ends(next[..], starts)
      invariant Recursing(v0, a[..], lo, hi, level, starts, rem, k, num)
    {
      k := k - 1;
      assert remaining[k] == rem[k] && NonEmpty(starts, rem[k]);
      var partition := remaining[k];
      var startOffset := if partition == 0 then 0 else next[partition - 1];
      RecurseInto(a, lo, hi, level, startOffset, next[partition], v0, starts, rem, k + 1, num, k);
    }
    AllBucketsSorted(a[lo..hi], level, starts, rem);
  }

  /** Sorts the range by the whole key, whatever its length. */
  method SkaSort(a: array<Item>, lo: nat, hi: nat)
    requires Range(a, lo, hi)
    modifies a
    ensures Rearranged(old(a[..]), a[..], lo, hi)
    ensures forall i, j :: lo <= i < j < hi ==> a[i].key <= a[j].key
  {
    var done := StdSortIfLessThanThreshold(a, lo, hi);
    if !done {
      TopPrefix(a[lo..hi]);
      Sort(a, lo, hi, 0);
    }
    forall i, j | lo <= i < j < hi
      ensures a[i].key <= a[j].key
    {
      assert a[lo..hi][i - lo] == a[i] && a[lo..hi][j - lo] == a[j];
    }
  }
}
