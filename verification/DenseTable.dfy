/**
  The hash table (tl2/ankerl/unordered_dense.h): values packed in a vector, found through the
  bucket array. The hash is any function to sixty-four-bit words, the capacity any number
  below the number of buckets. Proved to be a finite map.
 */
module DenseTable {
  import opened Options
  import opened RobinHood

  type Key(==, 0, !new)
  type Val(==, 0, !new)
  type Word = w: int | 0 <= w < 0x1_0000_0000_0000_0000

  datatype Entry = Entry(key: Key, val: Val)

  const INITIAL_SHIFTS: nat := 62

  /** At this shift the table has as many buckets as an index can number. */
  const LAST_SHIFTS: nat := 32
  const MAX_BUCKETS: nat := 0x1_0000_0000

  /** What an insertion comes to; Overflow stands for the exception overflow_error. */
  datatype Emplaced = Inserted(index: nat) | Present(index: nat) | Overflow

  // ---------------------------------------------------------------- values

  function MapOf(values: seq<Entry>): map<Key, Val> {
    if values == [] then map[]
    else MapOf(values[..|values| - 1])[values[|values| - 1].key := values[|values| - 1].val]
  }

  ghost predicate DistinctKeys(values: seq<Entry>) {
    forall i, j :: 0 <= i < j < |values| ==> values[i].key != values[j].key
  }

  /** Every entry is in the map. */
  lemma {:induction false} MapHas(values: seq<Entry>, i: nat)
    requires DistinctKeys(values) && i < |values|
    ensures values[i].key in MapOf(values) && MapOf(values)[values[i].key] == values[i].val
  {
    if i < |values| - 1 {
      MapHas(values[..|values| - 1], i);
    }
  }

  /** Everything in the map is an entry. */
  lemma {:induction false} MapFrom(values: seq<Entry>, k: Key) returns (i: nat)
    requires k in MapOf(values)
    ensures i < |values| && values[i].key == k
  {
    i := |values| - 1;
    if values[i].key != k {
      i := MapFrom(values[..i], k);
    }
  }

  lemma MapOfPush(values: seq<Entry>, e: Entry)
    ensures MapOf(values + [e]) == MapOf(values)[e.key := e.val]
  {
    assert (values + [e])[..|values|] == values;
  }

  lemma MovedDistinct(values: seq<Entry>, gone: nat)
    requires DistinctKeys(values) && gone < |values|
    ensures DistinctKeys(Moved(values, gone))
  {
  }

  lemma MovedHas(values: seq<Entry>, gone: nat, k: Key)
    requires DistinctKeys(values) && gone < |values| && k in MapOf(Moved(values, gone))
    ensures k in MapOf(values) && k != values[gone].key && MapOf(Moved(values, gone))[k] == MapOf(values)[k]
  {
    MovedDistinct(values, gone);
    var i := MapFrom(Moved(values, gone), k);
    MapHas(Moved(values, gone), i);
    MapHas(values, if i == gone then |values| - 1 else i);
  }

  lemma MovedKeeps(values: seq<Entry>, gone: nat, k: Key)
    requires DistinctKeys(values) && gone < |values| && k in MapOf(values) && k != values[gone].key
    ensures k in MapOf(Moved(values, gone))
  {
    MovedDistinct(values, gone);
    var i := MapFrom(values, k);
    MapHas(Moved(values, gone), if i == |values| - 1 then gone else i);
  }

  /** Taking out an entry and putting the last in its place takes its key out of the map. */
  lemma MapOfMoved(values: seq<Entry>, gone: nat)
    requires DistinctKeys(values) && gone < |values|
    ensures DistinctKeys(Moved(values, gone)) && MapOf(Moved(values, gone)) == MapOf(values) - {values[gone].key}
  {
    MovedDistinct(values, gone);
    forall k | k in MapOf(Moved(values, gone))
      ensures k in MapOf(values) && k != values[gone].key && MapOf(Moved(values, gone))[k] == MapOf(values)[k]
    {
      MovedHas(values, gone, k);
    }
    forall k | k in MapOf(values) && k != values[gone].key
      ensures k in MapOf(Moved(values, gone))
    {
      MovedKeeps(values, gone, k);
    }
  }

  // ---------------------------------------------------------------- hashes

  function Pow2(n: nat): (p: nat)
    ensures p > 0
  {
    if n == 0 then 1 else 2 * Pow2(n - 1)
  }

  function ShiftRight(h: nat, n: nat): nat {
    if n == 0 then h else ShiftRight(h, n - 1) / 2
  }

  /** The top bits of the hash say where home is, the low byte is the fingerprint. */
  function SlotOf(hash: Word, shifts: nat): Slot {
    Slot(ShiftRight(hash, shifts), hash % DIST_INC)
  }

  lemma {:induction false} ShiftFits(h: nat, n: nat, shifts: nat)
    requires h < Pow2(n) && shifts <= n
    ensures ShiftRight(h, shifts) < Pow2(n - shifts)
  {
    if shifts > 0 {
      ShiftFits(h, n, shifts - 1);
      assert Pow2(n - shifts + 1) == 2 * Pow2(n - shifts);
    }
  }

  lemma Pow2Plus8(n: nat)
    ensures Pow2(n + 8) == 256 * Pow2(n)
  {
    assert Pow2(n + 2) == 4 * Pow2(n);
    assert Pow2(n + 4) == 4 * Pow2(n + 2);
    assert Pow2(n + 6) == 4 * Pow2(n + 4);
    assert Pow2(n + 8) == 4 * Pow2(n + 6);
  }

  lemma Pow2Of32()
    ensures Pow2(32) == 0x1_0000_0000
  {
    Pow2Plus8(0);
    Pow2Plus8(8);
    Pow2Plus8(16);
    Pow2Plus8(24);
  }

  lemma Pow2Of64()
    ensures Pow2(64) == 0x1_0000_0000_0000_0000
  {
    Pow2Of32();
    Pow2Plus8(32);
    Pow2Plus8(40);
    Pow2Plus8(48);
    Pow2Plus8(56);
  }

  lemma SlotFits(hash: Word, shifts: nat)
    requires shifts <= 64
    ensures SlotOk(Pow2(64 - shifts), SlotOf(hash, shifts))
  {
    Pow2Of64();
    ShiftFits(hash, 64, shifts);
  }

  function Slots(values: seq<Entry>, hash: Key -> Word, shifts: nat): seq<Slot> {
    seq(|values|, i requires 0 <= i < |values| => SlotOf(hash(values[i].key), shifts))
  }

  lemma SlotsPush(values: seq<Entry>, e: Entry, hash: Key -> Word, shifts: nat)
    ensures Slots(values + [e], hash, shifts) == Slots(values, hash, shifts) + [SlotOf(hash(e.key), shifts)]
  {
  }

  lemma SlotsMoved(values: seq<Entry>, gone: nat, hash: Key -> Word, shifts: nat)
    requires gone < |values|
    ensures Slots(Moved(values, gone), hash, shifts) == Moved(Slots(values, hash, shifts), gone)
  {
  }

  lemma SlotsTake(values: seq<Entry>, v: nat, hash: Key -> Word, shifts: nat)
    requires v < |values|
    ensures Slots(values[..v + 1], hash, shifts) == Slots(values[..v], hash, shifts) + [SlotOf(hash(values[v].key), shifts)]
  {
  }

  // ---------------------------------------------------------------- probing for a key

  /** No entry with the key is nearer to its home than distance d. */
  ghost predicate KeyNotBefore(b: seq<Bucket>, pos: seq<nat>, values: seq<Entry>, s: Slot, key: Key, d: nat) {
    forall v {:trigger NotBefore(b, pos, s, v, d)} :: 0 <= v < |values| && values[v].key == key ==> NotBefore(b, pos, s, v, d)
  }

  predicate Hit(b: seq<Bucket>, values: seq<Entry>, i: nat, df: nat, key: Key)
    requires i < |b|
  {
    df == b[i].df && b[i].idx < |values| && values[b[i].idx].key == key
  }

  lemma KeyStart(b: seq<Bucket>, values: seq<Entry>, hash: Key -> Word, shifts: nat, pos: seq<nat>, key: Key)
    requires IndexOk(b, Slots(values, hash, shifts), pos) && shifts <= 64 && |b| == Pow2(64 - shifts)
    ensures Probing(b, SlotOf(hash(key), shifts), 1) && KeyNotBefore(b, pos, values, SlotOf(hash(key), shifts), key, 1)
  {
    SlotFits(hash(key), shifts);
    forall v | 0 <= v < |values| && values[v].key == key
      ensures NotBefore(b, pos, SlotOf(hash(key), shifts), v, 1)
    {
      NotBeforeOne(b, Slots(values, hash, shifts), pos, v);
    }
  }

  /** The bucket that matches holds a value. */
  lemma MatchHolds(b: seq<Bucket>, hs: seq<Slot>, pos: seq<nat>, i: nat)
    requires IndexOk(b, hs, pos) && i < |b| && b[i].df > 0
    ensures b[i].idx < |hs|
  {
    assert Good(b, hs, i);
  }

  /** The probe stands at distance d, in its first turn. */
  ghost predicate ProbeAt(b: seq<Bucket>, s: Slot, d: nat, i: nat, df: nat) {
    SlotOk(|b|, s) && 1 <= d <= |b| + 1 && i < |b| && df == Packed(d, s.fp) && (d <= |b| ==> i == AtDist(|b|, s.home, d))
  }

  lemma ProbeAtNext(b: seq<Bucket>, s: Slot, d: nat, i: nat, df: nat)
    requires ProbeAt(b, s, d, i, df) && d <= |b|
    ensures ProbeAt(b, s, d + 1, Next(|b|, i), df + DIST_INC)
  {
    AtDistDist(|b|, s.home, d);
  }

  lemma KeyMiss(b: seq<Bucket>, values: seq<Entry>, hash: Key -> Word, shifts: nat, pos: seq<nat>, key: Key, d: nat, i: nat, df: nat)
    requires IndexOk(b, Slots(values, hash, shifts), pos) && d <= |b|
    requires ProbeAt(b, SlotOf(hash(key), shifts), d, i, df) && !Hit(b, values, i, df, key)
    requires KeyNotBefore(b, pos, values, SlotOf(hash(key), shifts), key, d)
    ensures KeyNotBefore(b, pos, values, SlotOf(hash(key), shifts), key, d + 1)
  {
    var hs, s := Slots(values, hash, shifts), SlotOf(hash(key), shifts);
    forall v | 0 <= v < |values| && values[v].key == key
      ensures NotBefore(b, pos, s, v, d + 1)
    {
      assert NotBefore(b, pos, hs[v], v, d);
      NotHere(b, hs, pos, v, d);
    }
  }

  /** A richer bucket ends the search. */
  lemma KeyAbsent(b: seq<Bucket>, values: seq<Entry>, hash: Key -> Word, shifts: nat, pos: seq<nat>, key: Key, d: nat, i: nat, df: nat)
    requires IndexOk(b, Slots(values, hash, shifts), pos)
    requires ProbeAt(b, SlotOf(hash(key), shifts), d, i, df) && b[i].df < df
    requires KeyNotBefore(b, pos, values, SlotOf(hash(key), shifts), key, d)
    ensures forall v :: 0 <= v < |values| ==> values[v].key != key
  {
    var hs, s := Slots(values, hash, shifts), SlotOf(hash(key), shifts);
    forall v | 0 <= v < |values|
      ensures values[v].key != key
    {
      if values[v].key == key {
        KeyNotFurther(b, hs, pos, v, d, i);
      }
    }
  }

  lemma KeyNotFurther(b: seq<Bucket>, hs: seq<Slot>, pos: seq<nat>, v: nat, d: nat, i: nat)
    requires IndexOk(b, hs, pos) && v < |hs| && ProbeAt(b, hs[v], d, i, Packed(d, hs[v].fp)) && b[i].df < Packed(d, hs[v].fp)
    ensures !NotBefore(b, pos, hs[v], v, d)
  {
    if d <= |b| {
      NotFurther(b, hs, pos, v, d);
    } else {
      OneTurn(b, hs, pos, hs[v], v, i);
    }
  }

  // ---------------------------------------------------------------- moving buckets

  method PlaceAndShiftUp(buckets: array<Bucket>, bucket: Bucket, start: nat, ghost hs: seq<Slot>, ghost pos0: seq<nat>)
      returns (ghost pos: seq<nat>)
    requires Carrying(buckets[..], hs, pos0, bucket, start) && |hs| <= buckets.Length
    modifies buckets
    ensures IndexOk(buckets[..], hs, pos)
  {
    var c, place := bucket, start;
    pos := pos0;
    ghost var empty := SomeEmpty(buckets[..], pos, c.idx);
    while buckets[place].df != 0
      invariant Carrying(buckets[..], hs, pos, c, place) && empty < buckets.Length && buckets[empty].df == 0
      decreases Dist(buckets.Length, place, empty)
    {
      SwapOn(buckets[..], hs, pos, c, place, empty);
      pos := pos[c.idx := place];
      ghost var was := buckets[..];
      buckets[place], c := c, buckets[place];
      assert buckets[..] == was[place := buckets[place]];
      c := c.(df := c.df + DIST_INC);
      place := Next(buckets.Length, place);
    }
    DropIn(buckets[..], hs, pos, c, place);
    DropInStops(buckets[..], hs, pos, c, place);
    pos := pos[c.idx := place];
    ghost var was := buckets[..];
    buckets[place] := c;
    assert buckets[..] == was[place := c];
  }

  method EraseAndShiftDown(buckets: array<Bucket>, start: nat, ghost hs: seq<Slot>, ghost pos0: seq<nat>)
      returns (ghost pos: seq<nat>)
    requires IndexOk(buckets[..], hs, pos0) && start < buckets.Length && buckets[start].df != 0
    modifies buckets
    ensures IndexBut(buckets[..], hs, pos, old(buckets[start].idx))
  {
    ghost var gone := buckets[start].idx;
    pos := pos0;
    StartClosing(buckets[..], hs, pos, start);
    ghost var stop :| Stop(buckets[..], stop);
    var hole, next := start, Next(buckets.Length, start);
    while buckets[next].df >= 2 * DIST_INC
      invariant Closing(buckets[..], hs, pos, gone, hole) && next == Next(buckets.Length, hole)
      invariant Stop(buckets[..], stop)
      decreases Dist(buckets.Length, next, stop)
    {
      CloseOn(buckets[..], hs, pos, gone, hole, stop);
      pos := pos[buckets[next].idx := hole];
      ghost var was := buckets[..];
      buckets[hole] := Bucket(buckets[next].df - DIST_INC, buckets[next].idx);
      assert buckets[..] == was[hole := Lowered(was[next])];
      hole, next := next, Next(buckets.Length, next);
    }
    CloseUp(buckets[..], hs, pos, gone, hole);
    ghost var was := buckets[..];
    buckets[hole] := EMPTY;
    assert buckets[..] == was[hole := EMPTY];
  }

  /** Probes past all richer buckets. If some bucket is empty the probe does not come round. */
  method NextWhileLess(buckets: array<Bucket>, s: Slot, ghost hs: seq<Slot>, ghost pos: seq<nat>, ghost skip: int, ghost empty: int)
      returns (df: nat, i: nat, ghost d: nat)
    requires IndexBut(buckets[..], hs, pos, skip) && SlotOk(buckets.Length, s)
    requires 0 <= empty < buckets.Length ==> buckets[empty].df == 0
    ensures ProbeAt(buckets[..], s, d, i, df) && buckets[i].df <= df
    ensures forall e :: 1 <= e < d ==> buckets[AtDist(buckets.Length, s.home, e)].df > Packed(e, s.fp)
    ensures 0 <= empty < buckets.Length ==> Probing(buckets[..], s, d)
  {
    df, i, d := DIST_INC + s.fp, s.home, 1;
    while df < buckets[i].df
      invariant ProbeAt(buckets[..], s, d, i, df)
      invariant forall e :: 1 <= e < d ==> buckets[AtDist(buckets.Length, s.home, e)].df > Packed(e, s.fp)
      invariant 0 <= empty < buckets.Length ==> Probing(buckets[..], s, d)
      decreases buckets.Length + 1 - d
    {
      OneTurn(buckets[..], hs, pos, s, 0, i);
      ProbeAtNext(buckets[..], s, d, i, df);
      if 0 <= empty < buckets.Length {
        ProbeStops(buckets[..], s, d, empty);
        ProbeOn(buckets[..], s, d);
      }
      df := df + DIST_INC;
      i := Next(buckets.Length, i);
      d := d + 1;
    }
  }

  /** Puts a value that has no bucket yet where a probe stopped. */
  method PlaceValue(buckets: array<Bucket>, v: nat, df: nat, i: nat, ghost d: nat, ghost hs: seq<Slot>, ghost pos0: seq<nat>)
      returns (ghost pos: seq<nat>)
    requires v < |hs| <= buckets.Length && IndexBut(buckets[..], hs, pos0, v)
    requires Probing(buckets[..], hs[v], d) && ProbeAt(buckets[..], hs[v], d, i, df) && buckets[i].df <= df
    modifies buckets
    ensures IndexOk(buckets[..], hs, pos)
  {
    StartCarrying(buckets[..], hs, pos0, v, d);
    pos := PlaceAndShiftUp(buckets, Bucket(df, v), i, hs, pos0);
  }

  /** Builds the index of all values in an empty bucket array. */
  method FillBucketsFromValues(buckets: array<Bucket>, values: seq<Entry>, hash: Key -> Word, shifts: nat)
      returns (ghost pos: seq<nat>)
    requires shifts <= 64 && buckets.Length == Pow2(64 - shifts) && |values| <= buckets.Length
    requires forall i :: 0 <= i < buckets.Length ==> buckets[i] == EMPTY
    modifies buckets
    ensures IndexOk(buckets[..], Slots(values, hash, shifts), pos)
  {
    pos := [];
    EmptyIndex(buckets[..]);
    var v := 0;
    while v < |values|
      invariant v <= |values| && IndexOk(buckets[..], Slots(values[..v], hash, shifts), pos)
    {
      var s := SlotOf(hash(values[v].key), shifts);
      SlotFits(hash(values[v].key), shifts);
      ghost var hs := Slots(values[..v], hash, shifts);
      SlotsTake(values, v, hash, shifts);
      ghost var empty := SomeEmpty(buckets[..], pos, -1);
      var df, i, d := NextWhileLess(buckets, s, hs, pos, -1, empty);
      Join(buckets[..], hs, pos, s);
      pos := PlaceValue(buckets, v, df, i, d, hs + [s], pos + [0]);
      v := v + 1;
    }
    assert values[..v] == values;
  }

  lemma EmptyIndex(b: seq<Bucket>)
    requires |b| > 0 && forall i :: 0 <= i < |b| ==> b[i] == EMPTY
    ensures IndexOk(b, [], [])
  {
    assert Stop(b, 0);
  }

  /** A probe past richer buckets only has not passed the key. */
  lemma RicherPassed(b: seq<Bucket>, values: seq<Entry>, hash: Key -> Word, shifts: nat, pos: seq<nat>, key: Key, d: nat)
    requires IndexOk(b, Slots(values, hash, shifts), pos) && shifts <= 64 && |b| == Pow2(64 - shifts)
    requires 1 <= d <= |b| + 1
    requires SlotOk(|b|, SlotOf(hash(key), shifts))
    requires forall e :: 1 <= e < d ==> b[AtDist(|b|, SlotOf(hash(key), shifts).home, e)].df > Packed(e, SlotOf(hash(key), shifts).fp)
    ensures KeyNotBefore(b, pos, values, SlotOf(hash(key), shifts), key, d)
  {
    var hs, s := Slots(values, hash, shifts), SlotOf(hash(key), shifts);
    forall v | 0 <= v < |values| && values[v].key == key
      ensures NotBefore(b, pos, s, v, d)
    {
      assert hs[v] == s;
      RicherNotHere(b, hs, pos, v, d);
    }
  }

  lemma {:induction false} RicherNotHere(b: seq<Bucket>, hs: seq<Slot>, pos: seq<nat>, v: nat, d: nat)
    requires IndexOk(b, hs, pos) && v < |hs| && SlotOk(|b|, hs[v]) && 1 <= d <= |b| + 1
    requires forall e :: 1 <= e < d ==> b[AtDist(|b|, hs[v].home, e)].df > Packed(e, hs[v].fp)
    ensures NotBefore(b, pos, hs[v], v, d)
    decreases d
  {
    if d == 1 {
      NotBeforeOne(b, hs, pos, v);
    } else {
      RicherNotHere(b, hs, pos, v, d - 1);
      NotHere(b, hs, pos, v, d - 1);
    }
  }

  // ---------------------------------------------------------------- the table

  /** Any capacity below the number of buckets, but at the largest number all of them. */
  predicate CapacityOk(capacity: nat, buckets: nat) {
    if buckets == MAX_BUCKETS then capacity == MAX_BUCKETS else capacity < buckets
  }

  lemma BucketsBelowMax(shifts: nat)
    requires LAST_SHIFTS <= shifts <= 64
    ensures Pow2(64 - shifts) <= MAX_BUCKETS && (Pow2(64 - shifts) == MAX_BUCKETS <==> shifts == LAST_SHIFTS)
  {
    Pow2Of32();
    Pow2Rises(64 - shifts, 32);
    if LAST_SHIFTS < shifts {
      Pow2Rises(64 - shifts, 31);
      assert Pow2(32) == 2 * Pow2(31);
    }
  }

  lemma {:induction false} Pow2Rises(m: nat, n: nat)
    requires m <= n
    ensures Pow2(m) <= Pow2(n)
    decreases n
  {
    if m < n {
      Pow2Rises(m, n - 1);
    }
  }

  /** The index is that of the values, but for value `skip`, which has no bucket. */
  ghost predicate TableOk(b: seq<Bucket>, values: seq<Entry>, hash: Key -> Word, shifts: nat, pos: seq<nat>, skip: int) {
    LAST_SHIFTS <= shifts <= INITIAL_SHIFTS && |b| == Pow2(64 - shifts) && |values| <= |b| &&
    IndexBut(b, Slots(values, hash, shifts), pos, skip)
  }

  class Table {
    const hash: Key -> Word
    var buckets: array<Bucket>
    var values: seq<Entry>
    var shifts: nat
    var capacity: nat
    /** Where each value's bucket is. */
    ghost var pos: seq<nat>

    ghost predicate Valid()
      reads this, buckets
    {
      TableOk(buckets[..], values, hash, shifts, pos, -1) && Stops(buckets[..]) && DistinctKeys(values) &&
      CapacityOk(capacity, buckets.Length)
    }

    ghost function Contents(): map<Key, Val>
      reads this
    {
      MapOf(values)
    }

    constructor (hash: Key -> Word)
      ensures Valid() && Contents() == map[] && fresh(buckets)
    {
      this.hash := hash;
      values, shifts, capacity := [], INITIAL_SHIFTS, 0;
      pos := [];
      buckets := new Bucket[4](_ => EMPTY);
      new;
      assert Pow2(2) == 4;
      AllocateCapacity();
      EmptyIndex(buckets[..]);
    }

    /** All buckets at the largest number of them, otherwise some number below theirs. */
    method AllocateCapacity()
      requires buckets.Length > 0
      modifies this`capacity
      ensures CapacityOk(capacity, buckets.Length)
    {
      if buckets.Length == MAX_BUCKETS {
        capacity := MAX_BUCKETS;
      } else {
        var n: nat :| n < buckets.Length;
        capacity := n;
      }
    }

    method StartProbe(key: Key) returns (df: nat, i: nat)
      requires Valid()
      ensures ProbeAt(buckets[..], SlotOf(hash(key), shifts), 1, i, df)
      ensures Probing(buckets[..], SlotOf(hash(key), shifts), 1)
      ensures KeyNotBefore(buckets[..], pos, values, SlotOf(hash(key), shifts), key, 1)
    {
      var s := SlotOf(hash(key), shifts);
      KeyStart(buckets[..], values, hash, shifts, pos, key);
      df, i := DIST_INC + s.fp, s.home;
    }

    /** Whether the bucket holds the key. */
    method Matches(df: nat, i: nat, key: Key) returns (hit: bool)
      requires Valid() && i < buckets.Length && df > 0
      ensures hit == Hit(buckets[..], values, i, df, key)
    {
      if df != buckets[i].df {
        return false;
      }
      MatchHolds(buckets[..], Slots(values, hash, shifts), pos, i);
      return values[buckets[i].idx].key == key;
    }

    /** Looks the key up; two probes come before the loop. */
    method Find(key: Key) returns (r: Option<nat>)
      requires Valid()
      ensures match r
        case Some(i) => i < |values| && values[i].key == key && key in Contents() && Contents()[key] == values[i].val
        case None => key !in Contents()
    {
      if |values| == 0 {
        return None;
      }
      var df: nat, i: nat := StartProbe(key);
      ghost var s: Slot, d: nat := SlotOf(hash(key), shifts), 1;
      var unrolled := 0;
      while unrolled < 2
        invariant unrolled <= 2 && d == 1 + unrolled && ProbeAt(buckets[..], s, d, i, df)
        invariant KeyNotBefore(buckets[..], pos, values, s, key, d)
      {
        var hit := Matches(df, i, key);
        if hit {
          MapHas(values, buckets[i].idx);
          return Some(buckets[i].idx);
        }
        AtLeastTwo(buckets[..], shifts);
        KeyMiss(buckets[..], values, hash, shifts, pos, key, d, i, df);
        ProbeAtNext(buckets[..], s, d, i, df);
        df, i, d := df + DIST_INC, Next(buckets.Length, i), d + 1;
        unrolled := unrolled + 1;
      }
      while true
        invariant ProbeAt(buckets[..], s, d, i, df) && KeyNotBefore(buckets[..], pos, values, s, key, d)
        decreases buckets.Length + 1 - d
      {
        var hit := Matches(df, i, key);
        if hit {
          MapHas(values, buckets[i].idx);
          return Some(buckets[i].idx);
        }
        if df > buckets[i].df {
          KeyAbsent(buckets[..], values, hash, shifts, pos, key, d, i, df);
          NotInMap(values, key);
          return None;
        }
        OneTurn(buckets[..], Slots(values, hash, shifts), pos, s, 0, i);
        KeyMiss(buckets[..], values, hash, shifts, pos, key, d, i, df);
        ProbeAtNext(buckets[..], s, d, i, df);
        df, i, d := df + DIST_INC, Next(buckets.Length, i), d + 1;
      }
    }

    /** Halves the shift, doubling the buckets, and indexes all values anew; or drops the last
        value and fails, when there can be no more buckets. */
    method IncreaseSize() returns (ok: bool)
      requires LAST_SHIFTS <= shifts <= INITIAL_SHIFTS && DistinctKeys(values) && buckets.Length == Pow2(64 - shifts)
      requires 0 < |values| <= buckets.Length + 1 && CapacityOk(capacity, buckets.Length)
      modifies this
      ensures ok == (old(shifts) > LAST_SHIFTS)
      ensures ok ==> Valid() && fresh(buckets) && values == old(values)
      ensures ok ==> shifts == old(shifts) - 1 && buckets.Length == 2 * old(buckets.Length)
      ensures !ok ==> values == old(values[..|values| - 1]) && buckets == old(buckets) && pos == old(pos)
      ensures !ok ==> shifts == old(shifts) && capacity == old(capacity)
    {
      BucketsBelowMax(shifts);
      if capacity == MAX_BUCKETS {
        values := values[..|values| - 1];
        return false;
      }
      shifts := shifts - 1;
      assert Pow2(64 - shifts) == 2 * Pow2(64 - shifts - 1);
      buckets := new Bucket[Pow2(64 - shifts)](_ => EMPTY);
      AllocateCapacity();
      pos := FillBucketsFromValues(buckets, values, hash, shifts);
      return true;
    }

    /** Indexes the value just pushed, or grows; fails when the table is as large as it can be. */
    method PlaceLast(df: nat, i: nat, ghost d: nat, ghost before: seq<Entry>) returns (ok: bool)
      requires |values| > 0 && before == values[..|values| - 1] && DistinctKeys(before)
      requires forall v :: 0 <= v < |before| ==> before[v].key != values[|values| - 1].key
      requires TableOk(buckets[..], before, hash, shifts, pos, -1) && Stops(buckets[..]) && CapacityOk(capacity, buckets.Length)
      requires var s := SlotOf(hash(values[|values| - 1].key), shifts);
        ProbeAt(buckets[..], s, d, i, df) && buckets[i].df <= df && (|before| < buckets.Length ==> Probing(buckets[..], s, d))
      modifies this, buckets
      ensures Valid() && (buckets == old(buckets) || fresh(buckets))
      ensures ok == (old(capacity) != MAX_BUCKETS || |before| < MAX_BUCKETS)
      ensures values == if ok then old(values) else before
      ensures var e := old(values[|values| - 1]); Contents() == if ok then MapOf(before)[e.key := e.val] else MapOf(before)
    {
      BucketsBelowMax(shifts);
      MapOfPush(before, values[|values| - 1]);
      assert values == before + [values[|values| - 1]];
      if |values| > capacity {
        ok := IncreaseSize();
      } else {
        var v := |values| - 1;
        ghost var s := SlotOf(hash(values[v].key), shifts);
        ghost var hs := Slots(before, hash, shifts);
        SlotsPush(before, values[v], hash, shifts);
        Join(buckets[..], hs, pos, s);
        pos := PlaceValue(buckets, v, df, i, d, hs + [s], pos + [0]);
        ok := true;
      }
    }

    /** What both ways of inserting find: the key's value, or the place for a new bucket. */
    ghost predicate Sought(before: seq<Entry>, key: Key, found: bool, df: nat, b: nat, d: nat)
      reads this, buckets
    {
      b < buckets.Length &&
      if found then buckets[b].idx < |before| && before[buckets[b].idx].key == key
      else
        var s := SlotOf(hash(key), shifts);
        (forall v :: 0 <= v < |before| ==> before[v].key != key) &&
        ProbeAt(buckets[..], s, d, b, df) && buckets[b].df <= df && (|before| < buckets.Length ==> Probing(buckets[..], s, d))
    }

    /** An empty bucket if there is room. */
    ghost method Room(before: seq<Entry>) returns (empty: int)
      requires TableOk(buckets[..], before, hash, shifts, pos, -1)
      ensures if |before| < buckets.Length then 0 <= empty < buckets.Length && buckets[empty].df == 0 else empty == -1
    {
      empty := -1;
      if |before| < buckets.Length {
        empty := SomeEmpty(buckets[..], pos, -1);
      }
    }

    /** The loop of emplace, which runs with the new value already pushed. */
    method EmplaceProbe(e: Entry, ghost before: seq<Entry>) returns (found: bool, df: nat, b: nat, ghost d: nat)
      requires values == before + [e] && TableOk(buckets[..], before, hash, shifts, pos, -1) && Stops(buckets[..])
      ensures Sought(before, e.key, found, df, b, d)
    {
      ghost var hs := Slots(before, hash, shifts);
      var s := SlotOf(hash(e.key), shifts);
      KeyStart(buckets[..], before, hash, shifts, pos, e.key);
      df, b, d := DIST_INC + s.fp, s.home, 1;
      ghost var empty := Room(before);
      while df <= buckets[b].df
        invariant ProbeAt(buckets[..], s, d, b, df) && (empty >= 0 ==> Probing(buckets[..], s, d))
        invariant KeyNotBefore(buckets[..], pos, before, s, e.key, d)
        decreases buckets.Length + 1 - d
      {
        MatchHolds(buckets[..], hs, pos, b);
        assert values[buckets[b].idx] == before[buckets[b].idx];
        if df == buckets[b].df && values[buckets[b].idx].key == e.key {
          found := true;
          return;
        }
        OneTurn(buckets[..], hs, pos, s, 0, b);
        KeyMiss(buckets[..], before, hash, shifts, pos, e.key, d, b, df);
        ProbeAtNext(buckets[..], s, d, b, df);
        ProbeOnIfRoom(buckets[..], s, d, empty);
        df, b, d := df + DIST_INC, Next(buckets.Length, b), d + 1;
      }
      KeyAbsent(buckets[..], before, hash, shifts, pos, e.key, d, b, df);
      found := false;
    }

    /** Pushes the value before it looks for the key, and drops it again if the key is there. */
    method Emplace(e: Entry) returns (r: Emplaced)
      requires Valid()
      modifies this, buckets
      ensures Valid() && (buckets == old(buckets) || fresh(buckets))
      ensures r.Present? <==> e.key in old(Contents())
      ensures r.Overflow? <==> e.key !in old(Contents()) && old(capacity) == MAX_BUCKETS <= old(|values|)
      ensures !r.Overflow? ==> r.index < |values| && values[r.index].key == e.key
      ensures values == if r.Inserted? then old(values) + [e] else old(values)
      ensures Contents() == if r.Inserted? then old(Contents())[e.key := e.val] else old(Contents())
    {
      ghost var before := values;
      values := values + [e];
      var found, df, b, d := EmplaceProbe(e, before);
      if found {
        values := values[..|values| - 1];
        assert values == before;
        MapHas(before, buckets[b].idx);
        return Present(buckets[b].idx);
      }
      NotInMap(before, e.key);
      var ok := PlaceLast(df, b, d, before);
      return if ok then Inserted(|values| - 1) else Overflow;
    }

    /** The loop of try_emplace. */
    method TryProbe(key: Key) returns (found: bool, df: nat, b: nat, ghost d: nat)
      requires Valid()
      ensures Sought(values, key, found, df, b, d)
    {
      df, b := StartProbe(key);
      d := 1;
      ghost var s, hs := SlotOf(hash(key), shifts), Slots(values, hash, shifts);
      ghost var empty := Room(values);
      while true
        invariant ProbeAt(buckets[..], s, d, b, df) && (empty >= 0 ==> Probing(buckets[..], s, d))
        invariant KeyNotBefore(buckets[..], pos, values, s, key, d)
        decreases buckets.Length + 1 - d
      {
        found := Matches(df, b, key);
        if found {
          return;
        }
        if df > buckets[b].df {
          KeyAbsent(buckets[..], values, hash, shifts, pos, key, d, b, df);
          return;
        }
        OneTurn(buckets[..], hs, pos, s, 0, b);
        KeyMiss(buckets[..], values, hash, shifts, pos, key, d, b, df);
        ProbeAtNext(buckets[..], s, d, b, df);
        ProbeOnIfRoom(buckets[..], s, d, empty);
        df, b, d := df + DIST_INC, Next(buckets.Length, b), d + 1;
      }
    }

    /** Looks for the key first, and pushes the value only if it is absent. */
    method TryEmplace(key: Key, val: Val) returns (r: Emplaced)
      requires Valid()
      modifies this, buckets
      ensures Valid() && (buckets == old(buckets) || fresh(buckets))
      ensures r.Present? <==> key in old(Contents())
      ensures r.Overflow? <==> key !in old(Contents()) && old(capacity) == MAX_BUCKETS <= old(|values|)
      ensures !r.Overflow? ==> r.index < |values| && values[r.index].key == key
      ensures values == if r.Inserted? then old(values) + [Entry(key, val)] else old(values)
      ensures Contents() == if r.Inserted? then old(Contents())[key := val] else old(Contents())
    {
      ghost var before := values;
      var found, df, b, d := TryProbe(key);
      if found {
        MapHas(values, buckets[b].idx);
        return Present(buckets[b].idx);
      }
      NotInMap(before, key);
      values := values + [Entry(key, val)];
      var ok := PlaceLast(df, b, d, before);
      return if ok then Inserted(|values| - 1) else Overflow;
    }

    /** Walks from value v's home to the bucket that carries its number. */
    method BucketOf(v: nat, home: nat, ghost skip: int) returns (i: nat)
      requires TableOk(buckets[..], values, hash, shifts, pos, skip) && v < |values| && v != skip
      requires home == SlotOf(hash(values[v].key), shifts).home
      ensures i < buckets.Length && v < |pos| && i == pos[v] && buckets[i].df != 0 && buckets[i].idx == v
    {
      ghost var hs := Slots(values, hash, shifts);
      ghost var d := 1;
      i := home;
      WalkStart(buckets[..], hs, pos, skip, v);
      while buckets[i].idx != v
        invariant NotBefore(buckets[..], pos, hs[v], v, d) && 1 <= d <= buckets.Length && i == AtDist(buckets.Length, hs[v].home, d)
        decreases buckets.Length - d
      {
        FirstWithNumber(buckets[..], hs, pos, skip, v, d);
        DistAtDist(buckets.Length, hs[v].home, pos[v]);
        AtDistDist(buckets.Length, hs[v].home, d);
        i, d := Next(buckets.Length, i), d + 1;
      }
      FirstWithNumber(buckets[..], hs, pos, skip, v, d);
      DistAtDist(buckets.Length, hs[v].home, pos[v]);
      assert Back(buckets[..], pos, v);
    }

    /** Removes the value of bucket i; the last value takes its place. */
    method DoErase(i: nat)
      requires Valid() && i < buckets.Length && buckets[i].df != 0
      modifies this`values, this`pos, buckets
      ensures old(buckets[i].idx) < old(|values|) && values == Moved(old(values), old(buckets[i].idx))
      ensures Valid() && Contents() == old(Contents()) - {old(values[buckets[i].idx].key)}
    {
      ghost var hs := Slots(values, hash, shifts);
      MatchHolds(buckets[..], hs, pos, i);
      var gone := buckets[i].idx;
      pos := EraseAndShiftDown(buckets, i, hs, pos);
      MapOfMoved(values, gone);
      SlotsMoved(values, gone, hash, shifts);
      if gone != |values| - 1 {
        var back := |values| - 1;
        var j := BucketOf(back, SlotOf(hash(values[back].key), shifts).home, gone);
        Repoint(buckets[..], hs, pos, gone);
        ghost var was := buckets[..];
        buckets[j] := Bucket(buckets[j].df, gone);
        assert buckets[..] == was[j := Bucket(was[j].df, gone)];
        values := values[gone := values[back]];
      } else {
        LastGone(buckets[..], hs, pos);
      }
      pos := Moved(pos, gone);
      values := values[..|values| - 1];
      RoomStops(buckets[..], pos);
    }

    /** The bucket that holds the key, if any. */
    method BucketWith(key: Key) returns (i: nat, found: bool)
      requires Valid()
      ensures found == (key in Contents())
      ensures found ==> i < buckets.Length && buckets[i].df != 0 && buckets[i].idx < |values| && values[buckets[i].idx].key == key
    {
      ghost var hs := Slots(values, hash, shifts);
      var s := SlotOf(hash(key), shifts);
      SlotFits(hash(key), shifts);
      var df: nat;
      ghost var d: nat;
      df, i, d := NextWhileLess(buckets, s, hs, pos, -1, -1);
      RicherPassed(buckets[..], values, hash, shifts, pos, key, d);
      var hit := Matches(df, i, key);
      while df == buckets[i].df && !hit
        invariant ProbeAt(buckets[..], s, d, i, df) && KeyNotBefore(buckets[..], pos, values, s, key, d)
        invariant buckets[i].df <= df && hit == Hit(buckets[..], values, i, df, key)
        decreases buckets.Length + 1 - d
      {
        OneTurn(buckets[..], hs, pos, s, 0, i);
        KeyMiss(buckets[..], values, hash, shifts, pos, key, d, i, df);
        ProbeAtNext(buckets[..], s, d, i, df);
        NextNoPoorer(buckets[..], hs, i, df);
        df, i, d := df + DIST_INC, Next(buckets.Length, i), d + 1;
        hit := Matches(df, i, key);
      }
      found := df == buckets[i].df;
      if !found {
        KeyAbsent(buckets[..], values, hash, shifts, pos, key, d, i, df);
        NotInMap(values, key);
      } else {
        MapHas(values, buckets[i].idx);
      }
    }

    /** Removes the key; tells how many entries went. */
    method EraseKey(key: Key) returns (n: nat)
      requires Valid()
      modifies this`values, this`pos, buckets
      ensures Valid() && n == (if key in old(Contents()) then 1 else 0) && |values| == old(|values|) - n && (n == 0 ==> values == old(values))
      ensures Contents() == old(Contents()) - {key}
    {
      if |values| == 0 {
        return 0;
      }
      var i, found := BucketWith(key);
      if !found {
        return 0;
      }
      DoErase(i);
      return 1;
    }

    /** Gives the value at `it` a new key, unless some value has that key already. */
    method ReplaceKey(it: nat, newKey: Key) returns (i: nat, replaced: bool)
      requires Valid() && it < |values|
      modifies this`values, this`pos, buckets
      ensures Valid() && replaced == (newKey !in old(Contents())) && i < |values| && values[i].key == newKey
      ensures values == if replaced then old(values)[it := Entry(newKey, old(values[it].val))] else old(values)
      ensures Contents() == if replaced then (old(Contents()) - {old(values[it].key)})[newKey := old(values[it].val)] else old(Contents())
    {
      var r := Find(newKey);
      if r.Some? {
        return r.value, false;
      }
      ghost var hs := Slots(values, hash, shifts);
      var oldHome := SlotOf(hash(values[it].key), shifts).home;
      var j := BucketOf(it, oldHome, -1);
      pos := EraseAndShiftDown(buckets, j, hs, pos);
      var s := SlotOf(hash(newKey), shifts);
      SlotFits(hash(newKey), shifts);
      MapOfReplaced(values, it, newKey);
      values := values[it := Entry(newKey, values[it].val)];
      assert Slots(values, hash, shifts) == hs[it := s];
      Rehome(buckets[..], hs, pos, it, s);
      ghost var empty := SomeEmpty(buckets[..], pos, it);
      var df, b, d := NextWhileLess(buckets, s, hs[it := s], pos, it, empty);
      pos := PlaceValue(buckets, it, df, b, d, hs[it := s], pos);
      return it, true;
    }
  }

  lemma NotInMap(values: seq<Entry>, key: Key)
    requires forall v :: 0 <= v < |values| ==> values[v].key != key
    ensures key !in MapOf(values)
  {
    if key in MapOf(values) {
      var v := MapFrom(values, key);
    }
  }

  lemma ProbeOnIfRoom(b: seq<Bucket>, s: Slot, d: nat, empty: int)
    requires empty >= 0 ==> empty < |b| && b[empty].df == 0 && Probing(b, s, d) && b[AtDist(|b|, s.home, d)].df >= Packed(d, s.fp)
    ensures empty >= 0 ==> Probing(b, s, d + 1)
  {
    if empty >= 0 {
      ProbeStops(b, s, d, empty);
      ProbeOn(b, s, d);
    }
  }

  lemma AtLeastTwo(b: seq<Bucket>, shifts: nat)
    requires shifts <= INITIAL_SHIFTS && |b| == Pow2(64 - shifts)
    ensures |b| >= 4
  {
    assert Pow2(64 - shifts) == 2 * (2 * Pow2(62 - shifts));
  }

  lemma WalkStart(b: seq<Bucket>, hs: seq<Slot>, pos: seq<nat>, skip: int, v: nat)
    requires IndexBut(b, hs, pos, skip) && v < |hs| && v != skip
    ensures NotBefore(b, pos, hs[v], v, 1)
  {
    assert Back(b, pos, v) && Good(b, hs, pos[v]);
    DistAtDist(|b|, hs[v].home, pos[v]);
  }

  /** After an equally poor bucket, the next is no poorer than the probe. */
  lemma NextNoPoorer(b: seq<Bucket>, hs: seq<Slot>, i: nat, df: nat)
    requires AllGood(b, hs) && i < |b| && b[i].df == df >= DIST_INC
    ensures b[Next(|b|, i)].df <= df + DIST_INC
  {
    assert Good(b, hs, Next(|b|, i));
  }

  lemma MapOfReplaced(values: seq<Entry>, it: nat, newKey: Key)
    requires DistinctKeys(values) && newKey !in MapOf(values) && it < |values|
    ensures var values' := values[it := Entry(newKey, values[it].val)];
      DistinctKeys(values') && MapOf(values') == (MapOf(values) - {values[it].key})[newKey := values[it].val]
  {
    KeyIsNew(values, it, newKey);
    var values' := values[it := Entry(newKey, values[it].val)];
    var expected := (MapOf(values) - {values[it].key})[newKey := values[it].val];
    forall k | k in MapOf(values')
      ensures k in expected && MapOf(values')[k] == expected[k]
    {
      var i := MapFrom(values', k);
      MapHas(values', i);
      MapHas(values, i);
    }
    forall k | k in expected
      ensures k in MapOf(values')
    {
      if k == newKey {
        MapHas(values', it);
      } else {
        var i := MapFrom(values, k);
        MapHas(values', i);
      }
    }
  }

  lemma KeyIsNew(values: seq<Entry>, it: nat, newKey: Key)
    requires DistinctKeys(values) && newKey !in MapOf(values) && it < |values|
    ensures DistinctKeys(values[it := Entry(newKey, values[it].val)])
  {
    forall i | 0 <= i < |values|
      ensures values[i].key != newKey
    {
      MapHas(values, i);
    }
  }
}
