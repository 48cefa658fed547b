/**
  The out-of-place radix sorters (tl2/ska_sort.h): least significant part first, back and
  forth between the range and a buffer, for numbers, Booleans, pairs, tuples and arrays.
  What templates select at compile time is selected here by a description of the key.
 */
module LsdSort {
  import opened StableSort
  import RadixKeys

  const DIGITS: nat := 256

  // ---------------------------------------------------------------- one counting pass

  /** How many elements have a rank below b. */
  ghost function StartOf(s: seq<Elem>, rank: Elem -> nat, b: nat): nat {
    if b == 0 then 0 else StartOf(s, rank, b - 1) + |Ranked(s, rank, b - 1)|
  }

  lemma {:induction false} StartRises(s: seq<Elem>, rank: Elem -> nat, b: nat, c: nat)
    requires b <= c
    ensures StartOf(s, rank, b) <= StartOf(s, rank, c)
    decreases c
  {
    if b < c {
      StartRises(s, rank, b, c - 1);
    }
  }

  lemma {:induction false} StartOfPush(s: seq<Elem>, x: Elem, rank: Elem -> nat, b: nat)
    ensures StartOf(s + [x], rank, b) == StartOf(s, rank, b) + if rank(x) < b then 1 else 0
  {
    if b > 0 {
      StartOfPush(s, x, rank, b - 1);
      FilterPush(s, x, y => rank(y) == b - 1);
    }
  }

  lemma {:induction false} StartOfAll(s: seq<Elem>, rank: Elem -> nat, m: nat)
    requires forall x :: rank(x) < m
    ensures StartOf(s, rank, m) == |s|
  {
    if s == [] {
      StartOfEmpty(rank, m);
    } else {
      var n := |s| - 1;
      StartOfAll(s[..n], rank, m);
      assert s == s[..n] + [s[n]];
      StartOfPush(s[..n], s[n], rank, m);
    }
  }

  lemma {:induction false} StartOfEmpty(rank: Elem -> nat, m: nat)
    ensures StartOf([], rank, m) == 0
  {
    if m > 0 {
      StartOfEmpty(rank, m - 1);
    }
  }

  /** Counts depend on which elements there are, not on their order: a histogram of the
      original stays valid after every pass. */
  lemma {:induction false} StartOfPermuted(s: seq<Elem>, t: seq<Elem>, rank: Elem -> nat, b: nat)
    requires multiset(s) == multiset(t)
    ensures StartOf(s, rank, b) == StartOf(t, rank, b)
  {
    if b > 0 {
      StartOfPermuted(s, t, rank, b - 1);
      RankedLength(s, t, rank, b - 1);
    }
  }

  /** Region b of `dst` starts with the elements of rank b among the first n, in order. */
  ghost predicate RegionIs(dst: seq<Elem>, src: seq<Elem>, rank: Elem -> nat, n: nat, b: nat)
    requires n <= |src|
  {
    var start, part := StartOf(src, rank, b), Ranked(src[..n], rank, b);
    start + |part| <= |dst| && dst[start..start + |part|] == part
  }

  ghost predicate RegionsUpTo(dst: seq<Elem>, src: seq<Elem>, rank: Elem -> nat, m: nat, n: nat) {
    n <= |src| && forall b: nat {:trigger RegionIs(dst, src, rank, n, b)} :: b < m ==> RegionIs(dst, src, rank, n, b)
  }

  /** The next element goes to the first free slot of its region, and disturbs no other. */
  lemma RegionsNext(dst: seq<Elem>, src: seq<Elem>, rank: Elem -> nat, m: nat, n: nat)
    requires RegionsUpTo(dst, src, rank, m, n) && n < |src| == |dst| && forall x :: rank(x) < m
    ensures var o := StartOf(src, rank, rank(src[n])) + |Ranked(src[..n], rank, rank(src[n]))|;
      o < |dst| && RegionsUpTo(dst[o := src[n]], src, rank, m, n + 1)
  {
    var c := rank(src[n]);
    var o := StartOf(src, rank, c) + |Ranked(src[..n], rank, c)|;
    FilterIndex(src, x => rank(x) == c, n);
    StartRises(src, rank, c + 1, m);
    StartOfAll(src, rank, m);
    var dst' := dst[o := src[n]];
    var upTo := src[..n + 1];
    assert upTo == src[..n] + [src[n]];
    forall b: nat {:trigger RegionIs(dst', src, rank, n + 1, b)} | b < m
      ensures RegionIs(dst', src, rank, n + 1, b)
    {
      assert RegionIs(dst, src, rank, n, b);
      FilterPush(src[..n], src[n], x => rank(x) == b);
      if b != c {
        RegionApart(src, rank, n, b, c);
      }
    }
  }

  /** Two regions do not overlap. */
  lemma RegionApart(src: seq<Elem>, rank: Elem -> nat, n: nat, b: nat, c: nat)
    requires n <= |src| && b != c
    ensures var end := StartOf(src, rank, b) + |Ranked(src[..n], rank, b)|;
      if b < c then end <= StartOf(src, rank, c) else StartOf(src, rank, c) + |Ranked(src, rank, c)| <= StartOf(src, rank, b)
  {
    assert src == src[..n] + src[n..];
    FilterConcat(src[..n], src[n..], x => rank(x) == b);
    if b < c {
      StartRises(src, rank, b + 1, c);
    } else {
      StartRises(src, rank, c + 1, b);
    }
  }

  /** With every region complete, the result is a stable sort. */
  lemma RegionsSort(dst: seq<Elem>, src: seq<Elem>, rank: Elem -> nat, m: nat)
    requires RegionsUpTo(dst, src, rank, m, |src|) && |dst| == |src| && forall x :: rank(x) < m
    ensures IsStableSort(dst, src, rank)
  {
    assert src[..|src|] == src;
    StartOfAll(src, rank, m);
    RegionsSortTo(dst, src, rank, m, m);
    assert dst[..StartOf(src, rank, m)] == dst;
    forall b: nat
      ensures Ranked(dst, rank, b) == Ranked(src, rank, b)
    {
      if b >= m {
        FilterNone(src, x => rank(x) == b);
      }
    }
    SameRankedSameElements(dst, src, rank);
  }

  /** `t` is the elements of `src` of ranks below b, grouped by rank. */
  ghost predicate Grouped(t: seq<Elem>, src: seq<Elem>, rank: Elem -> nat, b: nat) {
    RankSorted(t, rank) && (forall i :: 0 <= i < |t| ==> rank(t[i]) < b) &&
    forall c: nat {:trigger Ranked(t, rank, c)} :: Ranked(t, rank, c) == if c < b then Ranked(src, rank, c) else []
  }

  lemma {:induction false} RegionsSortTo(dst: seq<Elem>, src: seq<Elem>, rank: Elem -> nat, m: nat, b: nat)
    requires RegionsUpTo(dst, src, rank, m, |src|) && |dst| == |src| && b <= m && (forall x :: rank(x) < m)
    ensures StartOf(src, rank, b) <= |dst| && Grouped(dst[..StartOf(src, rank, b)], src, rank, b)
  {
    StartRises(src, rank, b, m);
    StartOfAll(src, rank, m);
    if b > 0 {
      RegionsSortTo(dst, src, rank, m, b - 1);
      assert src[..|src|] == src;
      var part := Ranked(src, rank, b - 1);
      assert RegionIs(dst, src, rank, |src|, b - 1);
      var t, t' := dst[..StartOf(src, rank, b - 1)], dst[..StartOf(src, rank, b)];
      assert t' == t + part;
      RegionAppends(t, part, src, rank, b - 1);
    }
  }

  lemma RegionAppends(t: seq<Elem>, part: seq<Elem>, src: seq<Elem>, rank: Elem -> nat, b: nat)
    requires Grouped(t, src, rank, b) && part == Ranked(src, rank, b)
    ensures Grouped(t + part, src, rank, b + 1)
  {
    forall k | 0 <= k < |part|
      ensures rank(part[k]) == b
    {
      FilterMember(src, x => rank(x) == b, k);
    }
    forall c: nat
      ensures Ranked(t + part, rank, c) == if c < b + 1 then Ranked(src, rank, c) else []
    {
      assert Ranked(t, rank, c) == if c < b then Ranked(src, rank, c) else [];
      FilterConcat(t, part, x => rank(x) == c);
      if c == b {
        FilterAll(part, x => rank(x) == c);
      } else {
        FilterNone(part, x => rank(x) == c);
      }
    }
  }

  lemma {:induction false} FilterCount(s: seq<Elem>, p: Elem -> bool, x: Elem)
    requires p(x)
    ensures multiset(Filter(s, p))[x] == multiset(s)[x]
  {
    if s != [] {
      var n := |s| - 1;
      FilterCount(s[..n], p, x);
      assert s == s[..n] + [s[n]];
    }
  }

  lemma SameRankedSameElements(s: seq<Elem>, t: seq<Elem>, rank: Elem -> nat)
    requires forall b: nat {:trigger Ranked(s, rank, b)} :: Ranked(s, rank, b) == Ranked(t, rank, b)
    ensures multiset(s) == multiset(t)
  {
    forall x
      ensures multiset(s)[x] == multiset(t)[x]
    {
      var b := rank(x);
      assert Ranked(s, rank, b) == Ranked(t, rank, b);
      FilterCount(s, y => rank(y) == b, x);
      FilterCount(t, y => rank(y) == b, x);
    }
  }

  /** Counts the digits and turns the counts into starting places. */
  method Histogram(a: array<Elem>, digit: Elem -> nat) returns (counts: array<nat>)
    requires forall x :: digit(x) < DIGITS
    ensures fresh(counts) && counts.Length == DIGITS
    ensures forall b :: 0 <= b < DIGITS ==> counts[b] == StartOf(a[..], digit, b)
  {
    counts := new nat[DIGITS](_ => 0);
    var i: nat := 0;
    while i < a.Length
      invariant i <= a.Length && forall b :: 0 <= b < DIGITS ==> counts[b] == |Ranked(a[..i], digit, b)|
    {
      assert a[..i + 1] == a[..i] + [a[i]];
      forall b: nat
        ensures |Ranked(a[..i + 1], digit, b)| == |Ranked(a[..i], digit, b)| + if digit(a[i]) == b then 1 else 0
      {
        FilterPush(a[..i], a[i], x => digit(x) == b);
      }
      counts[digit(a[i])] := counts[digit(a[i])] + 1;
      i := i + 1;
    }
    assert a[..i] == a[..];
    var total: nat, k: nat := 0, 0;
    while k < DIGITS
      invariant k <= DIGITS && total == StartOf(a[..], digit, k)
      invariant forall b :: 0 <= b < DIGITS ==> counts[b] == if b < k then StartOf(a[..], digit, b) else |Ranked(a[..], digit, b)|
    {
      var count := counts[k];
      counts[k] := total;
      total := total + count;
      k := k + 1;
    }
  }

  /** The next free slot of every digit's region after n elements. */
  ghost predicate CountsAt(counts: seq<nat>, src: seq<Elem>, digit: Elem -> nat, n: nat) {
    |counts| == DIGITS && n <= |src| &&
    forall b :: 0 <= b < DIGITS ==> counts[b] == StartOf(src, digit, b) + |Ranked(src[..n], digit, b)|
  }

  lemma CountsNext(counts: seq<nat>, src: seq<Elem>, digit: Elem -> nat, n: nat)
    requires CountsAt(counts, src, digit, n) && n < |src| && digit(src[n]) < DIGITS
    ensures CountsAt(counts[digit(src[n]) := counts[digit(src[n])] + 1], src, digit, n + 1)
  {
    assert src[..n + 1] == src[..n] + [src[n]];
    var key := digit(src[n]);
    forall b: nat | b < DIGITS
      ensures |Ranked(src[..n + 1], digit, b)| == |Ranked(src[..n], digit, b)| + if key == b then 1 else 0
    {
      FilterPush(src[..n], src[n], x => digit(x) == b);
    }
  }

  lemma PassStart(dst: seq<Elem>, src: seq<Elem>, digit: Elem -> nat, m: nat)
    requires |dst| == |src| && forall x :: digit(x) < m
    ensures RegionsUpTo(dst, src, digit, m, 0)
  {
    forall b: nat | b < m
      ensures RegionIs(dst, src, digit, 0, b)
    {
      StartRises(src, digit, b, m);
      StartOfAll(src, digit, m);
    }
  }

  /** Moves every element to the next place of its digit. */
  method CountingPass(src: array<Elem>, dst: array<Elem>, digit: Elem -> nat, counts: array<nat>)
    requires src != dst && src.Length == dst.Length && counts.Length == DIGITS && forall x :: digit(x) < DIGITS
    requires counts as object != src as object && counts as object != dst as object
    requires forall b :: 0 <= b < DIGITS ==> counts[b] == StartOf(src[..], digit, b)
    modifies dst, counts
    ensures IsStableSort(dst[..], src[..], digit)
  {
    ghost var s := src[..];
    var i: nat := 0;
    PassStart(dst[..], s, digit, DIGITS);
    while i < src.Length
      invariant i <= src.Length && src[..] == s && RegionsUpTo(dst[..], s, digit, DIGITS, i)
      invariant CountsAt(counts[..], s, digit, i)
    {
      ghost var was, before := dst[..], counts[..];
      RegionsNext(was, s, digit, DIGITS, i);
      CountsNext(before, s, digit, i);
      var key := digit(src[i]);
      var o := counts[key];
      dst[o] := src[i];
      counts[key] := o + 1;
      assert dst[..] == was[o := s[i]];
      assert counts[..] == before[key := o + 1];
      i := i + 1;
    }
    RegionsSort(dst[..], s, digit, DIGITS);
  }

  // ---------------------------------------------------------------- numbers

  function Pow256(n: nat): (p: nat)
    ensures p > 0
  {
    if n == 0 then 1 else DIGITS * Pow256(n - 1)
  }

  /** Byte d of the key, byte 0 being the least significant. */
  function DigitAt(k: nat, d: nat): nat {
    RadixKeys.Shr(k, d) % DIGITS
  }

  /** The number that the d least significant bytes make. */
  function Low(k: nat, d: nat): nat {
    if d == 0 then 0 else DigitAt(k, d - 1) * Pow256(d - 1) + Low(k, d - 1)
  }

  lemma Scale(x: nat, y: nat, p: nat)
    requires x <= y
    ensures x * p <= y * p
  {
  }

  lemma {:induction false} LowBound(k: nat, d: nat)
    ensures Low(k, d) < Pow256(d)
  {
    if d > 0 {
      LowBound(k, d - 1);
      Scale(DigitAt(k, d - 1), DIGITS - 1, Pow256(d - 1));
    }
  }

  lemma {:induction false} LowAndHigh(k: nat, d: nat)
    ensures k == RadixKeys.Shr(k, d) * Pow256(d) + Low(k, d)
  {
    if d > 0 {
      LowAndHigh(k, d - 1);
      var h := RadixKeys.Shr(k, d - 1);
      assert h == DIGITS * (h / DIGITS) + h % DIGITS;
      Regroup(h / DIGITS, h % DIGITS, Pow256(d - 1));
    }
  }

  lemma Regroup(q: nat, r: nat, p: nat)
    ensures (DIGITS * q + r) * p == q * (DIGITS * p) + r * p
  {
  }

  /** All the bytes of a key make the key. */
  lemma LowIsAll(k: nat, n: nat)
    requires k < Pow256(n)
    ensures Low(k, n) == k
  {
    LowAndHigh(k, n);
    if RadixKeys.Shr(k, n) > 0 {
      Scale(1, RadixKeys.Shr(k, n), Pow256(n));
    }
  }

  function Digit(key: Elem -> nat, d: nat): Elem -> nat {
    x => DigitAt(key(x), d)
  }

  function LowOf(key: Elem -> nat, d: nat): Elem -> nat {
    x => Low(key(x), d)
  }

  /** A pass by the next byte. */
  lemma DigitStep(s: seq<Elem>, r1: seq<Elem>, r2: seq<Elem>, key: Elem -> nat, d: nat)
    requires IsStableSort(r1, s, LowOf(key, d)) && IsStableSort(r2, r1, Digit(key, d))
    ensures IsStableSort(r2, s, LowOf(key, d + 1))
  {
    forall x
      ensures LowOf(key, d)(x) < Pow256(d)
    {
      LowBound(key(x), d);
    }
    SortsCompose(s, r1, r2, Digit(key, d), LowOf(key, d), Pow256(d));
    SameRank(r2, s, Combined(Digit(key, d), LowOf(key, d), Pow256(d)), LowOf(key, d + 1));
  }

  lemma AllDigits(s: seq<Elem>, r: seq<Elem>, key: Elem -> nat, n: nat)
    requires IsStableSort(r, s, LowOf(key, n)) && forall x :: key(x) < Pow256(n)
    ensures IsStableSort(r, s, key)
  {
    forall x
      ensures LowOf(key, n)(x) == key(x)
    {
      LowIsAll(key(x), n);
    }
    SameRank(r, s, LowOf(key, n), key);
  }

  /** The histograms of the original order, still right for the bytes from d on. */
  ghost predicate HistogramsOk(counts: seq<array<nat>>, s: seq<Elem>, key: Elem -> nat, d: nat)
    reads counts
  {
    (forall e, f :: 0 <= e < f < |counts| ==> counts[e] != counts[f]) &&
    forall e :: d <= e < |counts| ==> counts[e].Length == DIGITS && HistogramOk(counts[e], s, key, e)
  }

  ghost predicate HistogramOk(count: array<nat>, s: seq<Elem>, key: Elem -> nat, e: nat)
    requires count.Length == DIGITS
    reads count
  {
    forall b :: 0 <= b < DIGITS ==> count[b] == StartOf(s, Digit(key, e), b)
  }

  method Histograms(a: array<Elem>, key: Elem -> nat, n: nat) returns (counts: seq<array<nat>>)
    ensures |counts| == n && (forall e :: 0 <= e < n ==> fresh(counts[e])) && HistogramsOk(counts, a[..], key, 0)
  {
    counts := [];
    while |counts| < n
      invariant |counts| <= n && (forall e :: 0 <= e < |counts| ==> fresh(counts[e])) && HistogramsOk(counts, a[..], key, 0)
    {
      var count := Histogram(a, Digit(key, |counts|));
      counts := counts + [count];
    }
  }

  /** The source's constants: true after one pass, false after two, four or eight. */
  predicate Odd(n: nat) {
    n > 0 && !Odd(n - 1)
  }

  /** Sorts by a number of `n` bytes, one byte after another, back and forth. The histograms
      are taken before anything moves. */
  method SizedSort(a: array<Elem>, b: array<Elem>, key: Elem -> nat, n: nat) returns (which: bool)
    requires a != b && a.Length == b.Length && forall x :: key(x) < Pow256(n)
    modifies a, b
    ensures which == Odd(n)
    ensures Result(a, b, which, old(a[..]), key)
  {
    ghost var s := a[..];
    var counts := Histograms(a, key, n);
    which := false;
    var d: nat := 0;
    SortedAlready(s, LowOf(key, 0));
    while d < n
      invariant d <= n && which == Odd(d) && |counts| == n && (forall e :: 0 <= e < n ==> fresh(counts[e]))
      invariant HistogramsOk(counts, s, key, d) && Result(a, b, which, s, LowOf(key, d))
    {
      which := DigitTurn(a, b, which, key, d, counts, s);
      d := d + 1;
    }
    AllDigits(s, if which then b[..] else a[..], key, n);
  }

  /** The Boolean names the array that holds the sorted elements. */
  ghost predicate Result(a: array<Elem>, b: array<Elem>, which: bool, s: seq<Elem>, rank: Elem -> nat)
    reads a, b
  {
    IsStableSort(if which then b[..] else a[..], s, rank)
  }

  method DigitTurn(a: array<Elem>, b: array<Elem>, which: bool, key: Elem -> nat, d: nat, counts: seq<array<nat>>, ghost s: seq<Elem>)
      returns (which': bool)
    requires a != b && a.Length == b.Length && d < |counts|
    requires forall e :: 0 <= e < |counts| ==> counts[e] as object != a as object && counts[e] as object != b as object
    requires HistogramsOk(counts, s, key, d) && Result(a, b, which, s, LowOf(key, d))
    modifies a, b, counts[d]
    ensures which' == !which && HistogramsOk(counts, s, key, d + 1) && Result(a, b, which', s, LowOf(key, d + 1))
  {
    if which {
      DigitPass(b, a, key, d, counts, s);
    } else {
      DigitPass(a, b, key, d, counts, s);
    }
    which' := !which;
  }

  method DigitPass(src: array<Elem>, dst: array<Elem>, key: Elem -> nat, d: nat, counts: seq<array<nat>>, ghost s: seq<Elem>)
    requires src != dst && src.Length == dst.Length && d < |counts|
    requires forall e :: 0 <= e < |counts| ==> counts[e] as object != src as object && counts[e] as object != dst as object
    requires HistogramsOk(counts, s, key, d) && IsStableSort(src[..], s, LowOf(key, d))
    modifies dst, counts[d]
    ensures HistogramsOk(counts, s, key, d + 1) && IsStableSort(dst[..], s, LowOf(key, d + 1))
  {
    ghost var r := src[..];
    forall b | 0 <= b < DIGITS
      ensures counts[d][b] == StartOf(r, Digit(key, d), b)
    {
      StartOfPermuted(s, r, Digit(key, d), b);
    }
    CountingPass(src, dst, Digit(key, d), counts[d]);
    DigitStep(s, r, dst[..], key, d);
  }

  // ---------------------------------------------------------------- Booleans

  method CountFalse(a: array<Elem>, key: Elem -> bool, ghost rank: Elem -> nat) returns (falseCount: nat)
    requires forall x :: rank(x) == if key(x) then 1 else 0
    ensures falseCount == |Ranked(a[..], rank, 0)| == StartOf(a[..], rank, 1)
  {
    ghost var s := a[..];
    falseCount := 0;
    var i: nat := 0;
    while i < a.Length
      invariant i <= a.Length && falseCount == |Ranked(s[..i], rank, 0)|
    {
      assert s[..i + 1] == s[..i] + [s[i]];
      FilterPush(s[..i], s[i], x => rank(x) == 0);
      if !key(a[i]) {
        falseCount := falseCount + 1;
      }
      i := i + 1;
    }
    assert s[..i] == s;
    assert StartOf(s, rank, 0) == 0 && StartOf(s, rank, 1) == falseCount;
  }

  /** The next free slots of the two regions. */
  ghost predicate Positions(s: seq<Elem>, rank: Elem -> nat, n: nat, falsePosition: nat, truePosition: nat) {
    n <= |s| && falsePosition == |Ranked(s[..n], rank, 0)| && truePosition == StartOf(s, rank, 1) + |Ranked(s[..n], rank, 1)|
  }

  lemma PositionsNext(s: seq<Elem>, rank: Elem -> nat, n: nat, falsePosition: nat, truePosition: nat)
    requires n < |s| && Positions(s, rank, n, falsePosition, truePosition) && rank(s[n]) <= 1
    ensures if rank(s[n]) == 1 then Positions(s, rank, n + 1, falsePosition, truePosition + 1)
      else Positions(s, rank, n + 1, falsePosition + 1, truePosition)
    ensures StartOf(s, rank, rank(s[n])) + |Ranked(s[..n], rank, rank(s[n]))| ==
      if rank(s[n]) == 1 then truePosition else falsePosition
  {
    assert s[..n + 1] == s[..n] + [s[n]];
    FilterPush(s[..n], s[n], x => rank(x) == 0);
    FilterPush(s[..n], s[n], x => rank(x) == 1);
    assert StartOf(s, rank, 0) == 0;
  }

  /** False before true. */
  method BoolSort(a: array<Elem>, b: array<Elem>, key: Elem -> bool, ghost rank: Elem -> nat)
    requires a != b && a.Length == b.Length && forall x :: rank(x) == if key(x) then 1 else 0
    modifies b
    ensures IsStableSort(b[..], a[..], rank)
  {
    ghost var s := a[..];
    var truePosition: nat := CountFalse(a, key, rank);
    var falsePosition: nat, i: nat := 0, 0;
    PassStart(b[..], s, rank, 2);
    while i < a.Length
      invariant i <= a.Length && a[..] == s && RegionsUpTo(b[..], s, rank, 2, i)
      invariant Positions(s, rank, i, falsePosition, truePosition)
    {
      ghost var was := b[..];
      RegionsNext(was, s, rank, 2, i);
      PositionsNext(s, rank, i, falsePosition, truePosition);
      if key(a[i]) {
        b[truePosition] := a[i];
        assert b[..] == was[truePosition := s[i]];
        truePosition := truePosition + 1;
      } else {
        b[falsePosition] := a[i];
        assert b[..] == was[falsePosition := s[i]];
        falsePosition := falsePosition + 1;
      }
      i := i + 1;
    }
    RegionsSort(b[..], s, rank, 2);
  }
}
