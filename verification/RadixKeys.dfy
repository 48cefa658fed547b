/** Sixty-four-bit keys read byte by byte, most significant first, and what bucketing by one
    byte and then sorting each bucket achieves. */
module RadixKeys {
  import opened RadixBuckets
  import Protocol

  const NUM_BYTES: nat := 8

  type Key = k: int | 0 <= k < 0x1_0000_0000_0000_0000

  /** A location of a transaction's log: its address is the key. */
  datatype Item = Item(key: Key, entry: Protocol.Entry)

  /** The key shifted right by n bytes. */
  function Shr(k: nat, n: nat): nat {
    if n == 0 then k else Shr(k, n - 1) / 256
  }

  /** The byte at the given level, level 0 being the most significant byte. */
  function Byte(k: Key, level: nat): (b: nat)
    requires level < NUM_BYTES
    ensures b < BUCKETS
  {
    Shr(k, NUM_BYTES - 1 - level) % 256
  }

  /** The bytes above the given level. */
  function Prefix(k: Key, level: nat): nat
    requires level <= NUM_BYTES
  {
    Shr(k, NUM_BYTES - level)
  }

  function Bytes(v: seq<Item>, level: nat): (w: seq<int>)
    requires level < NUM_BYTES
    ensures |w| == |v| && AllBytes(w)
  {
    seq(|v|, i requires 0 <= i < |v| => Byte(v[i].key, level))
  }

  ghost predicate Sorted(v: seq<Item>) {
    forall i, j :: 0 <= i < j < |v| ==> v[i].key <= v[j].key
  }

  ghost predicate SamePrefix(v: seq<Item>, level: nat)
    requires level <= NUM_BYTES
  {
    forall i, j {:trigger Agree(v, level, i, j)} :: 0 <= i < |v| && 0 <= j < |v| ==> Agree(v, level, i, j)
  }

  predicate Agree(v: seq<Item>, level: nat, i: nat, j: nat)
    requires level <= NUM_BYTES && i < |v| && j < |v|
  {
    Prefix(v[i].key, level) == Prefix(v[j].key, level)
  }

  // ---------------------------------------------------------------- arithmetic

  /** Nothing is above the most significant byte. */
  lemma TopPrefix(v: seq<Item>)
    ensures SamePrefix(v, 0)
  {
    forall i | 0 <= i < |v|
      ensures Prefix(v[i].key, 0) == 0
    {
      var k := v[i].key;
      assert Shr(k, 1) < 0x100_0000_0000_0000 && Shr(k, 2) < 0x1_0000_0000_0000;
      assert Shr(k, 3) < 0x100_0000_0000 && Shr(k, 4) < 0x1_0000_0000;
      assert Shr(k, 5) < 0x100_0000 && Shr(k, 6) < 0x1_0000 && Shr(k, 7) < 0x100;
    }
  }

  lemma ShrOrder(x: nat, y: nat, n: nat)
    requires x <= y
    ensures Shr(x, n) <= Shr(y, n)
  {
    if n > 0 {
      ShrOrder(x, y, n - 1);
    }
  }

  /** Where the bytes above agree, the byte decides the order, or the bytes down to it agree. */
  lemma ByteOrders(x: Key, y: Key, level: nat)
    requires level < NUM_BYTES && Prefix(x, level) == Prefix(y, level)
    ensures Byte(x, level) < Byte(y, level) ==> x < y
    ensures Byte(x, level) == Byte(y, level) ==> Prefix(x, level + 1) == Prefix(y, level + 1)
  {
    if y <= x {
      ShrOrder(y, x, NUM_BYTES - 1 - level);
    }
  }

  // ---------------------------------------------------------------- regions

  function Region(v: seq<Item>, starts: seq<nat>, b: nat): seq<Item>
    requires |starts| == BUCKETS + 1 && b < BUCKETS && starts[b] <= starts[b + 1] <= |v|
  {
    v[starts[b]..starts[b + 1]]
  }

  ghost predicate ByByte(v: seq<Item>, level: nat, starts: seq<nat>)
    requires level < NUM_BYTES
  {
    SamePrefix(v, level) && Bucketed(Bytes(v, level), starts)
  }

  /** In a bucketed sequence the region of a byte holds nothing else. */
  lemma RegionByte(v: seq<Item>, level: nat, starts: seq<nat>, b: nat, i: nat)
    requires level < NUM_BYTES && ByByte(v, level, starts) && i < |v| && InRegion(starts, b, i)
    ensures Byte(v[i].key, level) == b
  {
    var w := Bytes(v, level);
    assert InRegion(starts, w[i], i);
    RegionUnique(w, starts, w[i], b, i);
  }

  lemma RegionPrefix(v: seq<Item>, level: nat, starts: seq<nat>, b: nat)
    requires level < NUM_BYTES && ByByte(v, level, starts) && b < BUCKETS
    ensures starts[b] <= starts[b + 1] <= |v| && SamePrefix(Region(v, starts, b), level + 1)
  {
    RegionFits(Bytes(v, level), starts, b);
    var r := Region(v, starts, b);
    forall i, j {:trigger Agree(r, level + 1, i, j)} | 0 <= i < |r| && 0 <= j < |r|
      ensures Agree(r, level + 1, i, j)
    {
      var p, q := starts[b] + i, starts[b] + j;
      assert r[i] == v[p] && r[j] == v[q];
      assert Agree(v, level, p, q);
      RegionByte(v, level, starts, b, p);
      RegionByte(v, level, starts, b, q);
      ByteOrders(r[i].key, r[j].key, level);
    }
  }

  ghost predicate RegionSorted(v: seq<Item>, starts: seq<nat>, b: nat) {
    |starts| == BUCKETS + 1 && b < BUCKETS && starts[b] <= starts[b + 1] <= |v| && Sorted(Region(v, starts, b))
  }

  /** After the last byte every region holds one key. */
  lemma LastByteSorts(v: seq<Item>, starts: seq<nat>, b: nat)
    requires ByByte(v, NUM_BYTES - 1, starts) && b < BUCKETS
    ensures RegionSorted(v, starts, b)
  {
    RegionPrefix(v, NUM_BYTES - 1, starts, b);
    var r := Region(v, starts, b);
    forall i, j | 0 <= i < j < |r|
      ensures r[i].key <= r[j].key
    {
      assert Agree(r, NUM_BYTES, i, j);
    }
  }

  lemma RegionsAscend(w: seq<int>, starts: seq<nat>, i: nat, j: nat)
    requires Bucketed(w, starts) && i < j < |w|
    ensures w[i] <= w[j]
  {
    assert InRegion(starts, w[i], i) && InRegion(starts, w[j], j);
    RegionOrder(w, starts, w[j], w[i]);
  }

  lemma SortedInRegion(v: seq<Item>, starts: seq<nat>, b: nat, i: nat, j: nat)
    requires RegionSorted(v, starts, b) && starts[b] <= i < j < starts[b + 1]
    ensures v[i].key <= v[j].key
  {
    var r := Region(v, starts, b);
    assert r[i - starts[b]] == v[i] && r[j - starts[b]] == v[j];
  }

  /** Buckets in order, each sorted, make a sorted sequence. */
  lemma BucketsSort(v: seq<Item>, level: nat, starts: seq<nat>)
    requires level < NUM_BYTES && ByByte(v, level, starts)
    requires forall b :: NonEmpty(starts, b) ==> RegionSorted(v, starts, b)
    ensures Sorted(v)
  {
    var w := Bytes(v, level);
    forall i, j | 0 <= i < j < |v|
      ensures v[i].key <= v[j].key
    {
      assert InRegion(starts, w[i], i) && InRegion(starts, w[j], j);
      if w[i] == w[j] {
        assert NonEmpty(starts, w[i]);
        SortedInRegion(v, starts, w[i], i, j);
      } else {
        RegionsAscend(w, starts, i, j);
        assert Agree(v, level, i, j);
        ByteOrders(v[i].key, v[j].key, level);
      }
    }
  }

  // ---------------------------------------------------------------- rearranging a range

  /** Only the range from lo to hi changes, and keeps its elements. */
  ghost predicate Rearranged<T>(v: seq<T>, v': seq<T>, lo: nat, hi: nat) {
    lo <= hi <= |v| && |v'| == |v| && v'[..lo] == v[..lo] && v'[hi..] == v[hi..] && multiset(v'[lo..hi]) == multiset(v[lo..hi])
  }

  lemma RearrangedWhole<T>(v: seq<T>, v': seq<T>, lo: nat, hi: nat)
    requires Rearranged(v, v', lo, hi)
    ensures multiset(v') == multiset(v)
    ensures forall i :: 0 <= i < lo || hi <= i < |v| ==> v'[i] == v[i]
  {
    assert v == v[..lo] + v[lo..hi] + v[hi..] && v' == v'[..lo] + v'[lo..hi] + v'[hi..];
    forall i | 0 <= i < lo
      ensures v'[i] == v[i]
    {
      assert v'[i] == v'[..lo][i] && v[i] == v[..lo][i];
    }
    forall i | hi <= i < |v|
      ensures v'[i] == v[i]
    {
      assert v'[i] == v'[hi..][i - hi] && v[i] == v[hi..][i - hi];
    }
  }

  lemma RearrangedTwice<T>(v: seq<T>, v': seq<T>, v'': seq<T>, lo: nat, hi: nat)
    requires Rearranged(v, v', lo, hi) && Rearranged(v', v'', lo, hi)
    ensures Rearranged(v, v'', lo, hi)
  {
  }

  lemma SwapInRange<T>(v: seq<T>, v': seq<T>, lo: nat, hi: nat, i: nat, j: nat)
    requires lo <= hi <= |v| && lo + i < hi && lo + j < hi && v' == Swap(v, lo + i, lo + j)
    ensures Rearranged(v, v', lo, hi) && v'[lo..hi] == Swap(v[lo..hi], i, j)
  {
    assert v'[lo..hi] == Swap(v[lo..hi], i, j);
    SwapPermutes(v[lo..hi], i, j);
  }

  /** A rearranged part is part of a rearranged whole. */
  lemma RearrangedWider<T>(v: seq<T>, v': seq<T>, lo: nat, hi: nat, from: nat, to: nat)
    requires from <= lo && hi <= to <= |v| && Rearranged(v, v', lo, hi)
    ensures Rearranged(v, v', from, to) && Rearranged(v[from..to], v'[from..to], lo - from, hi - from)
  {
    RearrangedWhole(v, v', lo, hi);
    assert v[from..to] == v[from..lo] + v[lo..hi] + v[hi..to] && v'[from..to] == v'[from..lo] + v'[lo..hi] + v'[hi..to];
    assert v'[from..lo] == v[from..lo] && v'[hi..to] == v[hi..to];
    assert v[from..to][lo - from..hi - from] == v[lo..hi] && v'[from..to][lo - from..hi - from] == v'[lo..hi];
  }

  /** An item of the range was in the range before. */
  lemma RearrangedFrom(v: seq<Item>, v': seq<Item>, lo: nat, hi: nat, i: nat) returns (j: nat)
    requires Rearranged(v, v', lo, hi) && lo <= i < hi
    ensures lo <= j < hi && v[j] == v'[i]
  {
    assert v'[lo..hi][i - lo] == v'[i];
    assert v'[i] in multiset(v[lo..hi]);
    var k :| 0 <= k < |v[lo..hi]| && v[lo..hi][k] == v'[i];
    j := lo + k;
  }

  lemma SamePrefixKept(v: seq<Item>, v': seq<Item>, level: nat)
    requires level <= NUM_BYTES && SamePrefix(v, level) && multiset(v') == multiset(v)
    ensures SamePrefix(v', level)
  {
    forall i, j | 0 <= i < |v'| && 0 <= j < |v'|
      ensures Agree(v', level, i, j)
    {
      assert v'[i] in multiset(v) && v'[j] in multiset(v);
      var k, l :| 0 <= k < |v| && 0 <= l < |v| && v[k] == v'[i] && v[l] == v'[j];
      assert Agree(v, level, k, l);
    }
  }

  lemma BytesRemove(v: seq<Item>, level: nat, i: nat)
    requires level < NUM_BYTES && i < |v|
    ensures multiset(v) == multiset(v[..i] + v[i + 1..]) + multiset{v[i]}
    ensures multiset(Bytes(v, level)) == multiset(Bytes(v[..i] + v[i + 1..], level)) + multiset{Byte(v[i].key, level) as int}
  {
    var w, rest := Bytes(v, level), Bytes(v[..i] + v[i + 1..], level);
    assert v == v[..i] + [v[i]] + v[i + 1..];
    assert w == w[..i] + [w[i]] + w[i + 1..];
    assert rest == w[..i] + w[i + 1..];
  }

  lemma {:induction false} BytesCount(v: seq<Item>, v': seq<Item>, level: nat)
    requires level < NUM_BYTES && multiset(v') == multiset(v)
    ensures multiset(Bytes(v', level)) == multiset(Bytes(v, level))
    decreases |v|
  {
    assert |multiset(v)| == |v| && |multiset(v')| == |v'|;
    if |v| > 0 {
      assert v[0] in multiset(v');
      var i :| 0 <= i < |v'| && v'[i] == v[0];
      BytesRemove(v, level, 0);
      BytesRemove(v', level, i);
      var rest, rest' := v[..0] + v[1..], v'[..i] + v'[i + 1..];
      assert multiset(rest) == multiset(v) - multiset{v[0]};
      assert multiset(rest') == multiset(v') - multiset{v[0]};
      BytesCount(rest, rest', level);
    }
  }

  /** Rearranging inside one region keeps the bucketing and the other regions. */
  lemma RegionRearranged(v: seq<Item>, v': seq<Item>, level: nat, starts: seq<nat>, b: nat)
    requires level < NUM_BYTES && ByByte(v, level, starts) && b < BUCKETS && Rearranged(v, v', starts[b], starts[b + 1])
    ensures ByByte(v', level, starts) && multiset(v') == multiset(v)
    ensures forall c :: c != b && RegionSorted(v, starts, c) ==> RegionSorted(v', starts, c)
  {
    RearrangedWhole(v, v', starts[b], starts[b + 1]);
    SamePrefixKept(v, v', level);
    BytesCount(v, v', level);
    var w, w' := Bytes(v, level), Bytes(v', level);
    LayoutKept(w, w', starts);
    forall i | 0 <= i < |v'|
      ensures InRegion(starts, w'[i], i)
    {
      if InRegion(starts, b, i) {
        var j := RearrangedFrom(v, v', starts[b], starts[b + 1], i);
        RegionByte(v, level, starts, b, j);
      } else {
        assert v'[i] == v[i];
        assert InRegion(starts, w[i], i);
      }
    }
    forall c | c != b && RegionSorted(v, starts, c)
      ensures RegionSorted(v', starts, c)
    {
      OtherRegion(v, v', w, starts, b, c);
    }
  }

  lemma OtherRegion(v: seq<Item>, v': seq<Item>, w: seq<int>, starts: seq<nat>, b: nat, c: nat)
    requires Layout(w, starts) && |v| == |v'| == |w| && b < BUCKETS && c < BUCKETS && c != b && starts[b] <= starts[b + 1]
    requires forall i :: 0 <= i < |v| && (i < starts[b] || starts[b + 1] <= i) ==> v'[i] == v[i]
    ensures starts[c] <= starts[c + 1] <= |v| && Region(v', starts, c) == Region(v, starts, c)
  {
    RegionFits(w, starts, c);
    RegionFits(w, starts, b);
    RegionOrder(w, starts, b, c);
    RegionOrder(w, starts, c, b);
  }

  // ---------------------------------------------------------------- what sorting determines

  /** The last item moved aside for an equal one. */
  lemma TakeLast(v: seq<Item>, x: Item) returns (w: seq<Item>)
    requires Sorted(v) && |v| > 0 && x in multiset(v) && v[|v| - 1].key <= x.key
    ensures Sorted(w) && |w| == |v| - 1 && multiset(w) == multiset(v) - multiset{x}
    ensures x.key == v[|v| - 1].key && forall i :: 0 <= i < |w| ==> w[i].key == v[i].key
  {
    var n := |v| - 1;
    assert v == v[..n] + [v[n]];
    var i :| 0 <= i < |v| && v[i] == x;
    w := v[..n];
    if i < n {
      w := w[i := v[n]];
    }
    assert forall j :: 0 <= j < n ==> w[j].key == v[j].key;
  }

  lemma LastIsHighest(v: seq<Item>, x: Item)
    requires Sorted(v) && x in multiset(v)
    ensures |v| > 0 && x.key <= v[|v| - 1].key
  {
    var i :| 0 <= i < |v| && v[i] == x;
  }

  lemma TakeSameLast(v: seq<Item>, v': seq<Item>) returns (w: seq<Item>)
    requires Sorted(v) && Sorted(v') && multiset(v) == multiset(v') && |v| == |v'| > 0
    ensures Sorted(w) && |w| == |v| - 1 && multiset(w) == multiset(v[..|v| - 1])
    ensures v[|v| - 1].key == v'[|v| - 1].key && forall i :: 0 <= i < |w| ==> w[i].key == v'[i].key
  {
    var n := |v| - 1;
    assert v[n] in multiset(v) && v'[n] in multiset(v');
    LastIsHighest(v, v'[n]);
    assert v == v[..n] + [v[n]];
    assert multiset(v[..n]) == multiset(v) - multiset{v[n]};
    w := TakeLast(v', v[n]);
  }

  /** Two sorted arrangements of the same items have the same keys in the same places. */
  lemma {:induction false} SortedKeysUnique(v: seq<Item>, v': seq<Item>)
    requires Sorted(v) && Sorted(v') && multiset(v) == multiset(v')
    ensures |v| == |v'| && forall i :: 0 <= i < |v| ==> v[i].key == v'[i].key
    decreases |v|
  {
    assert |multiset(v)| == |v| && |multiset(v')| == |v'|;
    if |v| > 0 {
      var w := TakeSameLast(v, v');
      SortedKeysUnique(v[..|v| - 1], w);
    }
  }
}
