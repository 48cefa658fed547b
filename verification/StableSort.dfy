/**
  Stable sorting by a numeric rank: what it means, and that sorting by a low rank first and a
  high rank after sorts by both together.
 */
module StableSort {
  type Elem(==, 0, !new)

  function Filter(s: seq<Elem>, p: Elem -> bool): seq<Elem> {
    if s == [] then []
    else Filter(s[..|s| - 1], p) + if p(s[|s| - 1]) then [s[|s| - 1]] else []
  }

  /** The elements of rank b, in their order. */
  function Ranked(s: seq<Elem>, rank: Elem -> nat, b: nat): seq<Elem> {
    Filter(s, x => rank(x) == b)
  }

  ghost predicate RankSorted(s: seq<Elem>, rank: Elem -> nat) {
    forall i, j :: 0 <= i < j < |s| ==> rank(s[i]) <= rank(s[j])
  }

  /** `r` is `s` sorted by rank, equal ranks keeping their order. */
  ghost predicate IsStableSort(r: seq<Elem>, s: seq<Elem>, rank: Elem -> nat) {
    RankSorted(r, rank) && multiset(r) == multiset(s) &&
    forall b: nat {:trigger Ranked(r, rank, b)} :: Ranked(r, rank, b) == Ranked(s, rank, b)
  }

  // ---------------------------------------------------------------- filters

  lemma FilterPush(s: seq<Elem>, x: Elem, p: Elem -> bool)
    ensures Filter(s + [x], p) == Filter(s, p) + if p(x) then [x] else []
  {
    assert (s + [x])[..|s|] == s;
  }

  lemma {:induction false} FilterConcat(s: seq<Elem>, t: seq<Elem>, p: Elem -> bool)
    ensures Filter(s + t, p) == Filter(s, p) + Filter(t, p)
  {
    if t == [] {
      assert s + t == s;
    } else {
      var n := |t| - 1;
      FilterConcat(s, t[..n], p);
      assert s + t == (s + t[..n]) + [t[n]];
      FilterPush(s + t[..n], t[n], p);
    }
  }

  lemma {:induction false} FilterSame(s: seq<Elem>, p: Elem -> bool, q: Elem -> bool)
    requires forall i :: 0 <= i < |s| ==> p(s[i]) == q(s[i])
    ensures Filter(s, p) == Filter(s, q)
  {
    if s != [] {
      FilterSame(s[..|s| - 1], p, q);
    }
  }

  /** Filtering twice is filtering by both. */
  lemma {:induction false} FilterTwice(s: seq<Elem>, p: Elem -> bool, q: Elem -> bool)
    ensures Filter(Filter(s, p), q) == Filter(s, x => p(x) && q(x))
  {
    if s != [] {
      var n := |s| - 1;
      FilterTwice(s[..n], p, q);
      if p(s[n]) {
        FilterPush(Filter(s[..n], p), s[n], q);
      } else {
        assert Filter(s, p) == Filter(s[..n], p);
      }
    }
  }

  lemma {:induction false} FilterAll(s: seq<Elem>, p: Elem -> bool)
    requires forall i :: 0 <= i < |s| ==> p(s[i])
    ensures Filter(s, p) == s
  {
    if s != [] {
      FilterAll(s[..|s| - 1], p);
      assert s == s[..|s| - 1] + [s[|s| - 1]];
    }
  }

  lemma {:induction false} FilterNone(s: seq<Elem>, p: Elem -> bool)
    requires forall i :: 0 <= i < |s| ==> !p(s[i])
    ensures Filter(s, p) == []
  {
    if s != [] {
      FilterNone(s[..|s| - 1], p);
    }
  }

  lemma {:induction false} FilterMember(s: seq<Elem>, p: Elem -> bool, k: nat)
    requires k < |Filter(s, p)|
    ensures p(Filter(s, p)[k]) && Filter(s, p)[k] in s
  {
    if s != [] && k < |Filter(s[..|s| - 1], p)| {
      FilterMember(s[..|s| - 1], p, k);
    }
  }

  /** Where a kept element goes: behind those kept before it. */
  lemma FilterIndex(s: seq<Elem>, p: Elem -> bool, i: nat)
    requires i < |s| && p(s[i])
    ensures |Filter(s[..i], p)| < |Filter(s, p)| && Filter(s, p)[|Filter(s[..i], p)|] == s[i]
  {
    assert s == (s[..i] + [s[i]]) + s[i + 1..];
    FilterConcat(s[..i] + [s[i]], s[i + 1..], p);
    FilterPush(s[..i], s[i], p);
  }

  lemma FilterGrows(s: seq<Elem>, p: Elem -> bool, i: nat, j: nat)
    requires i < j <= |s| && p(s[i])
    ensures |Filter(s[..i], p)| < |Filter(s[..j], p)|
  {
    assert s[..j][..i] == s[..i];
    FilterIndex(s[..j], p, i);
  }

  /** A filtered sequence keeps the order of ranks. */
  lemma {:induction false} FilterSorted(s: seq<Elem>, p: Elem -> bool, rank: Elem -> nat)
    requires RankSorted(s, rank)
    ensures RankSorted(Filter(s, p), rank)
  {
    if s != [] {
      var n := |s| - 1;
      FilterSorted(s[..n], p, rank);
      var f := Filter(s[..n], p);
      forall k | 0 <= k < |f|
        ensures rank(f[k]) <= rank(s[n])
      {
        FilterMember(s[..n], p, k);
        var i :| 0 <= i < n && s[..n][i] == f[k];
        assert s[i] == f[k];
      }
    }
  }

  /** A sequence has as many elements of rank b as its filter is long. */
  lemma {:induction false} RankedLength(s: seq<Elem>, t: seq<Elem>, rank: Elem -> nat, b: nat)
    requires multiset(s) == multiset(t)
    ensures |Ranked(s, rank, b)| == |Ranked(t, rank, b)|
    decreases |s|
  {
    assert |multiset(s)| == |s| && |multiset(t)| == |t|;
    if s != [] {
      var n := |s| - 1;
      assert s[n] in multiset(t);
      var i :| 0 <= i < |t| && t[i] == s[n];
      var rest := t[..i] + t[i + 1..];
      assert t == t[..i] + [t[i]] + t[i + 1..];
      assert s == s[..n] + [s[n]];
      assert multiset(rest) == multiset(t) - multiset{t[i]};
      assert multiset(s[..n]) == multiset(s) - multiset{s[n]};
      RankedLength(s[..n], rest, rank, b);
      RankedWithout(t, rank, b, i);
    }
  }

  lemma RankedWithout(t: seq<Elem>, rank: Elem -> nat, b: nat, i: nat)
    requires i < |t|
    ensures |Ranked(t, rank, b)| == |Ranked(t[..i] + t[i + 1..], rank, b)| + if rank(t[i]) == b then 1 else 0
  {
    var p := x => rank(x) == b;
    assert t == (t[..i] + [t[i]]) + t[i + 1..];
    FilterConcat(t[..i] + [t[i]], t[i + 1..], p);
    FilterPush(t[..i], t[i], p);
    FilterConcat(t[..i], t[i + 1..], p);
  }

  // ---------------------------------------------------------------- composing sorts

  /** Only the values of the rank matter. */
  lemma SameRank(r: seq<Elem>, s: seq<Elem>, rank: Elem -> nat, rank': Elem -> nat)
    requires IsStableSort(r, s, rank) && forall x :: rank(x) == rank'(x)
    ensures IsStableSort(r, s, rank')
  {
    forall b: nat
      ensures Ranked(r, rank', b) == Ranked(s, rank', b)
    {
      assert Ranked(r, rank, b) == Ranked(s, rank, b);
      FilterSame(r, x => rank(x) == b, x => rank'(x) == b);
      FilterSame(s, x => rank(x) == b, x => rank'(x) == b);
    }
  }

  /** Sorting by a constant changes nothing. */
  lemma SortedAlready(s: seq<Elem>, rank: Elem -> nat)
    requires forall x :: rank(x) == 0
    ensures IsStableSort(s, s, rank)
  {
  }

  /** The rank with `high` before `low`, `low` being below `m`. */
  function Combined(high: Elem -> nat, low: Elem -> nat, m: nat): Elem -> nat {
    x => high(x) * m + low(x)
  }

  lemma CombinedParts(h: nat, l: nat, h': nat, l': nat, m: nat)
    requires l < m && l' < m
    ensures h * m + l == h' * m + l' <==> h == h' && l == l'
    ensures h * m + l < h' * m + l' <==> h < h' || (h == h' && l < l')
  {
    if h < h' {
      assert (h + 1) * m <= h' * m;
    } else if h' < h {
      assert (h' + 1) * m <= h * m;
    }
  }

  /** Elements of equal high rank are still in the order of their low ranks. */
  lemma TiesInOrder(r1: seq<Elem>, r2: seq<Elem>, high: Elem -> nat, low: Elem -> nat, i: nat, j: nat)
    requires RankSorted(r1, low) && IsStableSort(r2, r1, high) && i < j < |r2| && high(r2[i]) == high(r2[j])
    ensures low(r2[i]) <= low(r2[j])
  {
    var h := high(r2[i]);
    var p := x => high(x) == h;
    assert Ranked(r2, high, h) == Ranked(r1, high, h);
    FilterSame(r2, p, x => high(x) == h);
    FilterSame(r1, p, x => high(x) == h);
    FilterSorted(r1, p, low);
    FilterIndex(r2, p, i);
    FilterIndex(r2, p, j);
    FilterGrows(r2, p, i, j);
  }

  /** Of one high and one low rank, the elements are where they were. */
  lemma TiesKeepOrder(s: seq<Elem>, r1: seq<Elem>, r2: seq<Elem>, high: Elem -> nat, low: Elem -> nat, h: nat, l: nat)
    requires IsStableSort(r1, s, low) && IsStableSort(r2, r1, high)
    ensures Filter(r2, x => high(x) == h && low(x) == l) == Filter(s, x => high(x) == h && low(x) == l)
  {
    var p, q := x => high(x) == h, x => low(x) == l;
    var both := x => high(x) == h && low(x) == l;
    assert Ranked(r2, high, h) == Ranked(r1, high, h) && Ranked(r1, low, l) == Ranked(s, low, l);
    FilterSame(r2, p, x => high(x) == h);
    FilterSame(r1, p, x => high(x) == h);
    FilterSame(r1, q, x => low(x) == l);
    FilterSame(s, q, x => low(x) == l);
    FilterTwice(r2, p, q);
    FilterTwice(r1, p, q);
    FilterTwice(r1, q, p);
    FilterTwice(s, q, p);
    FilterSame(r2, x => p(x) && q(x), both);
    FilterSame(r1, x => p(x) && q(x), both);
    FilterSame(r1, x => q(x) && p(x), both);
    FilterSame(s, x => q(x) && p(x), both);
  }

  lemma CombinedFilter(s: seq<Elem>, high: Elem -> nat, low: Elem -> nat, m: nat, c: nat)
    requires m > 0 && forall x :: low(x) < m
    ensures Ranked(s, Combined(high, low, m), c) == Filter(s, x => high(x) == c / m && low(x) == c % m)
  {
    forall i | 0 <= i < |s|
      ensures Combined(high, low, m)(s[i]) == c <==> high(s[i]) == c / m && low(s[i]) == c % m
    {
      CombinedParts(high(s[i]), low(s[i]), c / m, c % m, m);
    }
    FilterSame(s, x => Combined(high, low, m)(x) == c, x => high(x) == c / m && low(x) == c % m);
  }

  /** Least significant rank first, most significant last: together a stable sort by both. */
  lemma SortsCompose(s: seq<Elem>, r1: seq<Elem>, r2: seq<Elem>, high: Elem -> nat, low: Elem -> nat, m: nat)
    requires IsStableSort(r1, s, low) && IsStableSort(r2, r1, high) && m > 0 && forall x :: low(x) < m
    ensures IsStableSort(r2, s, Combined(high, low, m))
  {
    var rank := Combined(high, low, m);
    forall i, j | 0 <= i < j < |r2|
      ensures rank(r2[i]) <= rank(r2[j])
    {
      if high(r2[i]) == high(r2[j]) {
        TiesInOrder(r1, r2, high, low, i, j);
      }
      CombinedParts(high(r2[j]), low(r2[j]), high(r2[i]), low(r2[i]), m);
    }
    forall c: nat
      ensures Ranked(r2, rank, c) == Ranked(s, rank, c)
    {
      CombinedFilter(r2, high, low, m, c);
      CombinedFilter(s, high, low, m, c);
      TiesKeepOrder(s, r1, r2, high, low, c / m, c % m);
    }
  }
}
