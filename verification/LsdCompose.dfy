/**
  Radix-sorting composite keys (tl2/ska_sort.h): pairs, tuples and arrays, whose parts are
  sorted last part first, the result moving between the range and the buffer.
 */
module LsdCompose {
  import opened StableSort
  import opened LsdSort

  /** What the key's type is. */
  datatype Shape =
    | BoolKey
    | NumberKey(bytes: nat)
    | PairKey(first: Shape, second: Shape)
    | TupleKey(parts: seq<Shape>)
    | ArrayKey(part: Shape, length: nat)

  datatype Key = Truth(bit: bool) | Number(num: nat) | Two(first: Key, second: Key) | Many(parts: seq<Key>)

  /** The key is of the type. */
  predicate Fits(t: Shape, k: Key)
    decreases t
  {
    match t
    case BoolKey => k.Truth?
    case NumberKey(n) => k.Number? && k.num < Pow256(n)
    case PairKey(t1, t2) => k.Two? && Fits(t1, k.first) && Fits(t2, k.second)
    case TupleKey(ts) => k.Many? && |k.parts| == |ts| && forall i :: 0 <= i < |ts| ==> Fits(ts[i], k.parts[i])
    case ArrayKey(t', n) => k.Many? && |k.parts| == n && forall i :: 0 <= i < n ==> Fits(t', k.parts[i])
  }

  /** How C++ compares two keys: lexicographically. */
  predicate Less(t: Shape, x: Key, y: Key)
    requires Fits(t, x) && Fits(t, y)
    decreases t, 1, 0
  {
    match t
    case BoolKey => !x.bit && y.bit
    case NumberKey(_) => x.num < y.num
    case PairKey(t1, t2) => Less(t1, x.first, y.first) || (x.first == y.first && Less(t2, x.second, y.second))
    case TupleKey(ts) => LessFrom(t, x, y, 0)
    case ArrayKey(_, _) => LessFrom(t, x, y, 0)
  }

  function Parts(t: Shape): nat {
    match t
    case TupleKey(ts) => |ts|
    case ArrayKey(_, n) => n
    case _ => 0
  }

  function PartAt(t: Shape, i: nat): (p: Shape)
    requires i < Parts(t)
    ensures p < t
  {
    if t.TupleKey? then t.parts[i] else t.part
  }

  /** Compares from part i on. */
  predicate LessFrom(t: Shape, x: Key, y: Key, i: nat)
    requires (t.TupleKey? || t.ArrayKey?) && Fits(t, x) && Fits(t, y) && i <= Parts(t)
    decreases t, 0, Parts(t) - i
  {
    i < Parts(t) &&
    (Less(PartAt(t, i), x.parts[i], y.parts[i]) || (x.parts[i] == y.parts[i] && LessFrom(t, x, y, i + 1)))
  }

  // ---------------------------------------------------------------- ranks

  /** How many keys of the type there are. */
  function Size(t: Shape): (n: nat)
    ensures n > 0
    decreases t, 1, 0
  {
    match t
    case BoolKey => 2
    case NumberKey(n) => Pow256(n)
    case PairKey(t1, t2) => Size(t1) * Size(t2)
    case TupleKey(_) => SizeFrom(t, 0)
    case ArrayKey(_, _) => SizeFrom(t, 0)
  }

  function SizeFrom(t: Shape, i: nat): (n: nat)
    requires i <= Parts(t)
    ensures n > 0
    decreases t, 0, Parts(t) - i
  {
    if i == Parts(t) then 1 else Size(PartAt(t, i)) * SizeFrom(t, i + 1)
  }

  /** The key's place among all keys of its type. */
  function Rank(t: Shape, k: Key): nat
    decreases t, 1, 0
  {
    if !Fits(t, k) then 0
    else
      match t
      case BoolKey => if k.bit then 1 else 0
      case NumberKey(_) => k.num
      case PairKey(t1, t2) => Rank(t1, k.first) * Size(t2) + Rank(t2, k.second)
      case TupleKey(_) => RankFrom(t, k, 0)
      case ArrayKey(_, _) => RankFrom(t, k, 0)
  }

  function RankFrom(t: Shape, k: Key, i: nat): nat
    requires i <= Parts(t)
    decreases t, 0, Parts(t) - i
  {
    if i == Parts(t) || !Fits(t, k) then 0
    else Rank(PartAt(t, i), k.parts[i]) * SizeFrom(t, i + 1) + RankFrom(t, k, i + 1)
  }

  lemma {:induction false} RankBelowSize(t: Shape, k: Key)
    ensures Rank(t, k) < Size(t)
    decreases t, 1, 0
  {
    match t
    case PairKey(t1, t2) =>
      if Fits(t, k) {
        RankBelowSize(t1, k.first);
        RankBelowSize(t2, k.second);
        BelowProduct(Rank(t1, k.first), Size(t1), Rank(t2, k.second), Size(t2));
      }
    case TupleKey(_) => RankFromBelow(t, k, 0);
    case ArrayKey(_, _) => RankFromBelow(t, k, 0);
    case _ =>
  }

  lemma {:induction false} RankFromBelow(t: Shape, k: Key, i: nat)
    requires i <= Parts(t)
    ensures RankFrom(t, k, i) < SizeFrom(t, i)
    decreases t, 0, Parts(t) - i
  {
    if i < Parts(t) && Fits(t, k) {
      RankBelowSize(PartAt(t, i), k.parts[i]);
      RankFromBelow(t, k, i + 1);
      BelowProduct(Rank(PartAt(t, i), k.parts[i]), Size(PartAt(t, i)), RankFrom(t, k, i + 1), SizeFrom(t, i + 1));
    }
  }

  lemma BelowProduct(h: nat, m: nat, l: nat, n: nat)
    requires h < m && l < n
    ensures h * n + l < m * n
  {
    Scale(h + 1, m, n);
  }

  /** Ranks are ordered as keys are, and no two keys share one. */
  lemma {:induction false} RankIsOrder(t: Shape, x: Key, y: Key)
    requires Fits(t, x) && Fits(t, y)
    ensures Rank(t, x) < Rank(t, y) <==> Less(t, x, y)
    ensures Rank(t, x) == Rank(t, y) <==> x == y
    decreases t, 1, 0
  {
    match t
    case PairKey(t1, t2) =>
      RankIsOrder(t1, x.first, y.first);
      RankIsOrder(t2, x.second, y.second);
      RankBelowSize(t2, x.second);
      RankBelowSize(t2, y.second);
      CombinedParts(Rank(t1, x.first), Rank(t2, x.second), Rank(t1, y.first), Rank(t2, y.second), Size(t2));
    case TupleKey(_) =>
      RankFromIsOrder(t, x, y, 0);
      assert SameFrom(x.parts, y.parts, 0) <==> x.parts == y.parts;
    case ArrayKey(_, _) =>
      RankFromIsOrder(t, x, y, 0);
      assert SameFrom(x.parts, y.parts, 0) <==> x.parts == y.parts;
    case _ =>
  }

  /** The parts from the i-th on are the same. */
  predicate SameFrom(x: seq<Key>, y: seq<Key>, i: nat) {
    |x| == |y| && forall j :: i <= j < |x| ==> x[j] == y[j]
  }

  lemma {:induction false} RankFromIsOrder(t: Shape, x: Key, y: Key, i: nat)
    requires (t.TupleKey? || t.ArrayKey?) && Fits(t, x) && Fits(t, y) && i <= Parts(t)
    ensures RankFrom(t, x, i) < RankFrom(t, y, i) <==> LessFrom(t, x, y, i)
    ensures RankFrom(t, x, i) == RankFrom(t, y, i) <==> SameFrom(x.parts, y.parts, i)
    decreases t, 0, Parts(t) - i
  {
    if i < Parts(t) {
      var p := PartAt(t, i);
      RankIsOrder(p, x.parts[i], y.parts[i]);
      RankFromIsOrder(t, x, y, i + 1);
      RankFromBelow(t, x, i + 1);
      RankFromBelow(t, y, i + 1);
      CombinedParts(Rank(p, x.parts[i]), RankFrom(t, x, i + 1), Rank(p, y.parts[i]), RankFrom(t, y, i + 1), SizeFrom(t, i + 1));
      assert SameFrom(x.parts, y.parts, i) <==> x.parts[i] == y.parts[i] && SameFrom(x.parts, y.parts, i + 1);
    }
  }

  function RankOf(t: Shape, extract: Elem -> Key): Elem -> nat {
    x => Rank(t, extract(x))
  }

  function RankFromOf(t: Shape, extract: Elem -> Key, i: nat): Elem -> nat
    requires i <= Parts(t)
  {
    x => RankFrom(t, extract(x), i)
  }

  // ---------------------------------------------------------------- sorting part by part

  /** Sorts by the part in front of those already sorted by; the Boolean follows the data. */
  lemma PartStep(s: seq<Elem>, r1: seq<Elem>, r2: seq<Elem>, t: Shape, extract: Elem -> Key, i: nat)
    requires i < Parts(t) && forall x :: Fits(t, extract(x))
    requires IsStableSort(r1, s, RankFromOf(t, extract, i + 1))
    requires IsStableSort(r2, r1, RankOf(PartAt(t, i), PartOf(t, extract, i)))
    ensures IsStableSort(r2, s, RankFromOf(t, extract, i))
  {
    var high, low, m := RankOf(PartAt(t, i), PartOf(t, extract, i)), RankFromOf(t, extract, i + 1), SizeFrom(t, i + 1);
    forall x
      ensures low(x) < m && Combined(high, low, m)(x) == RankFromOf(t, extract, i)(x)
    {
      RankFromBelow(t, extract(x), i + 1);
    }
    SortsCompose(s, r1, r2, high, low, m);
    SameRank(r2, s, Combined(high, low, m), RankFromOf(t, extract, i));
  }

  function PartOf(t: Shape, extract: Elem -> Key, i: nat): Elem -> Key {
    x => if extract(x).Many? && i < |extract(x).parts| then extract(x).parts[i] else Truth(false)
  }

  lemma PartFits(t: Shape, extract: Elem -> Key, i: nat)
    requires i < Parts(t) && forall x :: Fits(t, extract(x))
    ensures forall x :: Fits(PartAt(t, i), PartOf(t, extract, i)(x))
  {
    forall x
      ensures Fits(PartAt(t, i), PartOf(t, extract, i)(x))
    {
      assert Fits(t, extract(x));
    }
  }

  function FirstOf(extract: Elem -> Key): Elem -> Key {
    x => if extract(x).Two? then extract(x).first else Truth(false)
  }

  function SecondOf(extract: Elem -> Key): Elem -> Key {
    x => if extract(x).Two? then extract(x).second else Truth(false)
  }

  lemma PairStep(s: seq<Elem>, r1: seq<Elem>, r2: seq<Elem>, t: Shape, extract: Elem -> Key)
    requires t.PairKey? && forall x :: Fits(t, extract(x))
    requires IsStableSort(r1, s, RankOf(t.second, SecondOf(extract)))
    requires IsStableSort(r2, r1, RankOf(t.first, FirstOf(extract)))
    ensures IsStableSort(r2, s, RankOf(t, extract))
  {
    var high, low, m := RankOf(t.first, FirstOf(extract)), RankOf(t.second, SecondOf(extract)), Size(t.second);
    forall x
      ensures low(x) < m && Combined(high, low, m)(x) == RankOf(t, extract)(x)
    {
      assert Fits(t, extract(x));
      RankBelowSize(t.second, SecondOf(extract)(x));
    }
    SortsCompose(s, r1, r2, high, low, m);
    SameRank(r2, s, Combined(high, low, m), RankOf(t, extract));
  }

  function Weight(t: Shape): nat {
    if t.TupleKey? then |t.parts| + 1 else 1
  }

  /** Sorts by keys of any type: the Boolean says whether the result is in `b`. */
  method RadixSort(t: Shape, extract: Elem -> Key, a: array<Elem>, b: array<Elem>) returns (which: bool)
    requires a != b && a.Length == b.Length && forall x :: Fits(t, extract(x))
    modifies a, b
    ensures Result(a, b, which, old(a[..]), RankOf(t, extract))
    decreases t, Weight(t)
  {
    ghost var s := a[..];
    match t {
      case BoolKey =>
        assert forall x :: Fits(t, extract(x));
        BoolSort(a, b, x => extract(x).Truth? && extract(x).bit, RankOf(t, extract));
        which := true;
      case NumberKey(n) =>
        NumberFits(t, extract);
        which := SizedSort(a, b, NumberOf(extract), n);
        SameRank(if which then b[..] else a[..], s, NumberOf(extract), RankOf(t, extract));
      case PairKey(t1, t2) =>
        which := PairSort(t, extract, a, b);
      case TupleKey(_) =>
        which := TupleSort(t, extract, 0, a, b);
        SameRank(if which then b[..] else a[..], s, RankFromOf(t, extract, 0), RankOf(t, extract));
      case ArrayKey(_, _) =>
        which := ArraySort(t, extract, a, b);
        SameRank(if which then b[..] else a[..], s, RankFromOf(t, extract, 0), RankOf(t, extract));
    }
  }

  function NumberOf(extract: Elem -> Key): Elem -> nat {
    x => if extract(x).Number? then extract(x).num else 0
  }

  lemma NumberFits(t: Shape, extract: Elem -> Key)
    requires t.NumberKey? && forall x :: Fits(t, extract(x))
    ensures forall x :: NumberOf(extract)(x) < Pow256(t.bytes) && NumberOf(extract)(x) == RankOf(t, extract)(x)
  {
    forall x
      ensures NumberOf(extract)(x) < Pow256(t.bytes) && NumberOf(extract)(x) == RankOf(t, extract)(x)
    {
      assert Fits(t, extract(x));
    }
  }

  /** The second part first, then the first part from wherever the elements are. */
  method PairSort(t: Shape, extract: Elem -> Key, a: array<Elem>, b: array<Elem>) returns (which: bool)
    requires t.PairKey? && a != b && a.Length == b.Length && forall x :: Fits(t, extract(x))
    modifies a, b
    ensures Result(a, b, which, old(a[..]), RankOf(t, extract))
    decreases t, 0
  {
    ghost var s := a[..];
    PairFits(t, extract);
    var firstResult := RadixSort(t.second, SecondOf(extract), a, b);
    ghost var r := if firstResult then b[..] else a[..];
    if firstResult {
      var inA := RadixSort(t.first, FirstOf(extract), b, a);
      which := !inA;
    } else {
      which := RadixSort(t.first, FirstOf(extract), a, b);
    }
    PairStep(s, r, if which then b[..] else a[..], t, extract);
  }

  lemma PairFits(t: Shape, extract: Elem -> Key)
    requires t.PairKey? && forall x :: Fits(t, extract(x))
    ensures forall x :: Fits(t.first, FirstOf(extract)(x))
    ensures forall x :: Fits(t.second, SecondOf(extract)(x))
  {
    forall x
      ensures Fits(t.first, FirstOf(extract)(x)) && Fits(t.second, SecondOf(extract)(x))
    {
      assert Fits(t, extract(x));
    }
  }

  /** The parts behind the i-th first, then the i-th from wherever the elements are. */
  method TupleSort(t: Shape, extract: Elem -> Key, i: nat, a: array<Elem>, b: array<Elem>) returns (which: bool)
    requires t.TupleKey? && i <= |t.parts| && a != b && a.Length == b.Length && forall x :: Fits(t, extract(x))
    modifies a, b
    ensures Result(a, b, which, old(a[..]), RankFromOf(t, extract, i))
    decreases t, |t.parts| - i
  {
    ghost var s := a[..];
    if i == |t.parts| {
      SortedAlready(s, RankFromOf(t, extract, i));
      return false;
    }
    which := TupleSort(t, extract, i + 1, a, b);
    PartFits(t, extract, i);
    ghost var r := if which then b[..] else a[..];
    if which {
      var inA := RadixSort(t.parts[i], PartOf(t, extract, i), b, a);
      which := !inA;
    } else {
      which := RadixSort(t.parts[i], PartOf(t, extract, i), a, b);
    }
    PartStep(s, r, if which then b[..] else a[..], t, extract, i);
  }

  /** The parts in a loop, last first. */
  method ArraySort(t: Shape, extract: Elem -> Key, a: array<Elem>, b: array<Elem>) returns (which: bool)
    requires t.ArrayKey? && a != b && a.Length == b.Length && forall x :: Fits(t, extract(x))
    modifies a, b
    ensures Result(a, b, which, old(a[..]), RankFromOf(t, extract, 0))
    decreases t, 0
  {
    ghost var s := a[..];
    which := false;
    var i: nat := t.length;
    SortedAlready(s, RankFromOf(t, extract, i));
    while i > 0
      invariant i <= t.length && Result(a, b, which, s, RankFromOf(t, extract, i))
    {
      i := i - 1;
      PartFits(t, extract, i);
      ghost var r := if which then b[..] else a[..];
      if which {
        var inA := RadixSort(t.part, PartOf(t, extract, i), b, a);
        which := !inA;
      } else {
        which := RadixSort(t.part, PartOf(t, extract, i), a, b);
      }
      PartStep(s, r, if which then b[..] else a[..], t, extract, i);
    }
  }

  /** The sorted elements' keys are in lexicographic order. */
  lemma SortedLexicographically(r: seq<Elem>, s: seq<Elem>, t: Shape, extract: Elem -> Key, i: nat, j: nat)
    requires IsStableSort(r, s, RankOf(t, extract)) && (forall x :: Fits(t, extract(x))) && i < j < |r|
    ensures Less(t, extract(r[i]), extract(r[j])) || extract(r[i]) == extract(r[j])
  {
    RankIsOrder(t, extract(r[i]), extract(r[j]));
    assert RankOf(t, extract)(r[i]) <= RankOf(t, extract)(r[j]);
  }
}
