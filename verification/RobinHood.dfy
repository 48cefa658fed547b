/**
  The bucket array of the Robin Hood hash index (tl2/ankerl/unordered_dense.h): what probing,
  shifting up and shifting down do to it. A bucket packs its distance from home, counted from
  one, and eight bits of hash into one number, and points to a value by index.
 */
module RobinHood {
  const DIST_INC: nat := 256

  datatype Bucket = Bucket(df: nat, idx: nat)

  const EMPTY: Bucket := Bucket(0, 0)

  /** Where a value wants to be, and the low byte of its hash. */
  datatype Slot = Slot(home: nat, fp: nat)

  function Next(n: nat, i: nat): nat {
    if i + 1 == n then 0 else i + 1
  }

  function Prev(n: nat, i: nat): nat
    requires i < n
  {
    if i == 0 then n - 1 else i - 1
  }

  /** The distance of bucket i from home, home itself being at distance one. */
  function Dist(n: nat, home: nat, i: nat): nat
    requires home < n && i < n
  {
    if home <= i then i - home + 1 else i + n - home + 1
  }

  /** The bucket at distance d from home. */
  function AtDist(n: nat, home: nat, d: nat): nat
    requires home < n && 1 <= d <= n
  {
    if home + d - 1 < n then home + d - 1 else home + d - 1 - n
  }

  function Packed(d: nat, fp: nat): nat {
    DIST_INC * d + fp
  }

  predicate SlotOk(n: nat, s: Slot) {
    s.home < n && s.fp < DIST_INC
  }

  /** A bucket is empty, or it holds its value's distance and fingerprint and is no richer
      than its predecessor allows. */
  predicate Good(b: seq<Bucket>, hs: seq<Slot>, i: nat)
    requires i < |b|
  {
    b[i].df != 0 ==> Placed(b, hs, i) && OrderOk(b, i, b[i].df)
  }

  predicate Placed(b: seq<Bucket>, hs: seq<Slot>, i: nat)
    requires i < |b|
  {
    b[i].idx < |hs| && SlotOk(|b|, hs[b[i].idx]) &&
    b[i].df == Packed(Dist(|b|, hs[b[i].idx].home, i), hs[b[i].idx].fp)
  }

  /** A bucket with this packed word may stand at i. */
  predicate OrderOk(b: seq<Bucket>, i: nat, df: nat)
    requires i < |b|
  {
    df < 2 * DIST_INC || df <= b[Prev(|b|, i)].df + DIST_INC
  }

  ghost predicate AllGood(b: seq<Bucket>, hs: seq<Slot>) {
    forall i {:trigger Good(b, hs, i)} :: 0 <= i < |b| ==> Good(b, hs, i)
  }

  /** Value v is in bucket pos[v]. */
  predicate Back(b: seq<Bucket>, pos: seq<nat>, v: nat) {
    v < |pos| && pos[v] < |b| && b[pos[v]].df != 0 && b[pos[v]].idx == v
  }

  /** Bucket i, if occupied, is where its value is said to be. */
  predicate Forth(b: seq<Bucket>, pos: seq<nat>, i: nat) {
    i < |b| && (b[i].df != 0 ==> b[i].idx < |pos| && pos[b[i].idx] == i)
  }

  /** Occupied buckets and values correspond one to one, but for value `skip` and bucket `hole`. */
  ghost predicate Linked(b: seq<Bucket>, pos: seq<nat>, skip: int, hole: int) {
    (forall v {:trigger Back(b, pos, v)} :: 0 <= v < |pos| && v != skip ==> Back(b, pos, v)) &&
    (forall i {:trigger Forth(b, pos, i)} :: 0 <= i < |b| && i != hole ==> Forth(b, pos, i) && (b[i].df != 0 ==> b[i].idx != skip))
  }

  /** The index is in order, but for value `skip`, which has no bucket. */
  ghost predicate IndexBut(b: seq<Bucket>, hs: seq<Slot>, pos: seq<nat>, skip: int) {
    AllGood(b, hs) && |pos| == |hs| && Linked(b, pos, skip, -1)
  }

  /** A bucket that shifting down does not move: empty, or with its value at home. */
  predicate Stop(b: seq<Bucket>, i: nat) {
    i < |b| && b[i].df < 2 * DIST_INC
  }

  ghost predicate Stops(b: seq<Bucket>) {
    exists i {:trigger Stop(b, i)} :: Stop(b, i)
  }

  /** The index is in order. Even a full one has a bucket where shifting down stops. */
  ghost predicate IndexOk(b: seq<Bucket>, hs: seq<Slot>, pos: seq<nat>) {
    IndexBut(b, hs, pos, -1) && |hs| <= |b| && Stops(b)
  }

  // ---------------------------------------------------------------- distances

  lemma DistNext(n: nat, home: nat, i: nat)
    requires home < n && i < n && Dist(n, home, i) < n
    ensures Dist(n, home, Next(n, i)) == Dist(n, home, i) + 1
  {
  }

  lemma DistPrev(n: nat, home: nat, i: nat)
    requires home < n && i < n && Dist(n, home, i) > 1
    ensures Dist(n, home, Prev(n, i)) == Dist(n, home, i) - 1
  {
  }

  lemma AtDistDist(n: nat, home: nat, d: nat)
    requires home < n && 1 <= d <= n
    ensures AtDist(n, home, d) < n && Dist(n, home, AtDist(n, home, d)) == d
    ensures d < n ==> AtDist(n, home, d + 1) == Next(n, AtDist(n, home, d))
    ensures d > 1 ==> AtDist(n, home, d - 1) == Prev(n, AtDist(n, home, d))
  {
  }

  lemma DistAtDist(n: nat, home: nat, i: nat)
    requires home < n && i < n
    ensures 1 <= Dist(n, home, i) <= n && AtDist(n, home, Dist(n, home, i)) == i
  {
  }

  /** A packed word fits thirty-two bits in any table of fewer than 2^24 buckets. */
  lemma WordsFit(b: seq<Bucket>, hs: seq<Slot>, i: nat)
    requires AllGood(b, hs) && i < |b| < 0x100_0000
    ensures b[i].df < 0x1_0000_0000
  {
    assert Good(b, hs, i);
    if b[i].df != 0 {
      DistAtDist(|b|, hs[b[i].idx].home, i);
    }
  }

  // ---------------------------------------------------------------- probing

  /** Up to a value's own bucket, nothing poorer stands in the way. */
  lemma {:induction false} Covers(b: seq<Bucket>, hs: seq<Slot>, p: nat, d: nat)
    requires AllGood(b, hs) && p < |b| && b[p].df != 0
    requires b[p].idx < |hs| && SlotOk(|b|, hs[b[p].idx]) && 1 <= d <= Dist(|b|, hs[b[p].idx].home, p)
    ensures d <= |b| && b[AtDist(|b|, hs[b[p].idx].home, d)].df >= Packed(d, hs[b[p].idx].fp)
    decreases Dist(|b|, hs[b[p].idx].home, p) - d
  {
    var n, s := |b|, hs[b[p].idx];
    DistAtDist(n, s.home, p);
    assert Good(b, hs, p);
    if d < Dist(n, s.home, p) {
      Covers(b, hs, p, d + 1);
      AtDistDist(n, s.home, d);
      AtDistDist(n, s.home, d + 1);
      assert Good(b, hs, AtDist(n, s.home, d + 1));
    }
  }

  /** A probe for slot s that stands at distance d has met only buckets at least as poor. */
  ghost predicate Probing(b: seq<Bucket>, s: Slot, d: nat) {
    SlotOk(|b|, s) && 1 <= d <= |b| &&
    forall e {:trigger AtDist(|b|, s.home, e)} :: 1 <= e < d ==> b[AtDist(|b|, s.home, e)].df >= Packed(e, s.fp)
  }

  /** Before the first empty bucket the probe goes on, and does not wrap around. */
  lemma ProbeStops(b: seq<Bucket>, s: Slot, d: nat, empty: nat)
    requires Probing(b, s, d) && empty < |b| && b[empty].df == 0
    ensures d <= Dist(|b|, s.home, empty)
    ensures b[AtDist(|b|, s.home, d)].df != 0 ==> d < Dist(|b|, s.home, empty) && d < |b|
  {
    DistAtDist(|b|, s.home, empty);
    AtDistDist(|b|, s.home, d);
    var e := Dist(|b|, s.home, empty);
    if e < d {
      ProbePassed(b, s, d, e);
    }
  }

  lemma ProbePassed(b: seq<Bucket>, s: Slot, d: nat, e: nat)
    requires Probing(b, s, d) && 1 <= e < d
    ensures AtDist(|b|, s.home, e) < |b| && b[AtDist(|b|, s.home, e)].df != 0
  {
    AtDistDist(|b|, s.home, e);
  }

  lemma ProbeOn(b: seq<Bucket>, s: Slot, d: nat)
    requires Probing(b, s, d) && d < |b| && b[AtDist(|b|, s.home, d)].df >= Packed(d, s.fp)
    ensures Probing(b, s, d + 1) && AtDist(|b|, s.home, d + 1) == Next(|b|, AtDist(|b|, s.home, d))
  {
    AtDistDist(|b|, s.home, d);
  }

  /** A value whose home is s.home is not nearer than distance d. */
  ghost predicate NotBefore(b: seq<Bucket>, pos: seq<nat>, s: Slot, v: nat, d: nat) {
    v < |pos| && pos[v] < |b| && s.home < |b| && d <= Dist(|b|, s.home, pos[v])
  }

  lemma NotBeforeOne(b: seq<Bucket>, hs: seq<Slot>, pos: seq<nat>, v: nat)
    requires IndexOk(b, hs, pos) && v < |hs|
    ensures NotBefore(b, pos, hs[v], v, 1)
  {
    assert Back(b, pos, v) && Good(b, hs, pos[v]);
    DistAtDist(|b|, hs[v].home, pos[v]);
  }

  /** The value is not in a bucket that differs from what its own would hold there. */
  lemma NotHere(b: seq<Bucket>, hs: seq<Slot>, pos: seq<nat>, v: nat, d: nat)
    requires IndexOk(b, hs, pos) && v < |hs| && NotBefore(b, pos, hs[v], v, d) && 1 <= d <= |b|
    requires b[AtDist(|b|, hs[v].home, d)].df != Packed(d, hs[v].fp) || b[AtDist(|b|, hs[v].home, d)].idx != v
    ensures NotBefore(b, pos, hs[v], v, d + 1)
  {
    assert Back(b, pos, v) && Good(b, hs, pos[v]);
    DistAtDist(|b|, hs[v].home, pos[v]);
  }

  /** A richer bucket than the value's would be there shows that the value is absent. */
  lemma NotFurther(b: seq<Bucket>, hs: seq<Slot>, pos: seq<nat>, v: nat, d: nat)
    requires IndexOk(b, hs, pos) && v < |hs| && SlotOk(|b|, hs[v]) && 1 <= d <= |b|
    requires b[AtDist(|b|, hs[v].home, d)].df < Packed(d, hs[v].fp)
    ensures !NotBefore(b, pos, hs[v], v, d)
  {
    assert Back(b, pos, v) && Good(b, hs, pos[v]);
    if d <= Dist(|b|, hs[v].home, pos[v]) {
      Covers(b, hs, pos[v], d);
    }
  }

  /** A probe never needs more than one turn. */
  lemma OneTurn(b: seq<Bucket>, hs: seq<Slot>, pos: seq<nat>, s: Slot, v: nat, i: nat)
    requires AllGood(b, hs) && i < |b| && SlotOk(|b|, s)
    ensures b[i].df < Packed(|b| + 1, s.fp) && !NotBefore(b, pos, s, v, |b| + 1)
  {
    assert Good(b, hs, i);
    if b[i].df != 0 {
      DistAtDist(|b|, hs[b[i].idx].home, i);
    }
  }

  // ---------------------------------------------------------------- shifting up

  /** Bucket c, homeless so far, stands before `place`. */
  ghost predicate Carrying(b: seq<Bucket>, hs: seq<Slot>, pos: seq<nat>, c: Bucket, place: nat) {
    AllGood(b, hs) && |pos| == |hs| && place < |b| && Linked(b, pos, c.idx, -1) &&
    c.idx < |hs| && SlotOk(|b|, hs[c.idx]) && c.df == Packed(Dist(|b|, hs[c.idx].home, place), hs[c.idx].fp) &&
    OrderOk(b, place, c.df) && b[place].df <= c.df
  }

  /** A value without a bucket joins the values. */
  lemma Join(b: seq<Bucket>, hs: seq<Slot>, pos: seq<nat>, s: Slot)
    requires IndexOk(b, hs, pos)
    ensures IndexBut(b, hs + [s], pos + [0], |hs|)
  {
    var hs', pos' := hs + [s], pos + [0];
    forall i | 0 <= i < |b|
      ensures Good(b, hs', i)
    {
      assert Good(b, hs, i);
    }
    forall v | 0 <= v < |pos'| && v != |hs|
      ensures Back(b, pos', v)
    {
      assert Back(b, pos, v);
    }
    forall i | 0 <= i < |b|
      ensures Forth(b, pos', i) && (b[i].df != 0 ==> b[i].idx != |hs|)
    {
      assert Forth(b, pos, i);
    }
  }

  /** A value without a bucket changes its slot. */
  lemma Rehome(b: seq<Bucket>, hs: seq<Slot>, pos: seq<nat>, v: nat, s: Slot)
    requires IndexBut(b, hs, pos, v) && v < |hs|
    ensures IndexBut(b, hs[v := s], pos, v)
  {
    var hs' := hs[v := s];
    forall i | 0 <= i < |b|
      ensures Good(b, hs', i)
    {
      assert Good(b, hs, i) && Forth(b, pos, i);
    }
  }

  /** The probe's stopping place is where the value may go. */
  lemma StartCarrying(b: seq<Bucket>, hs: seq<Slot>, pos: seq<nat>, v: nat, d: nat)
    requires v < |hs| && IndexBut(b, hs, pos, v)
    requires Probing(b, hs[v], d) && b[AtDist(|b|, hs[v].home, d)].df <= Packed(d, hs[v].fp)
    ensures Carrying(b, hs, pos, Bucket(Packed(d, hs[v].fp), v), AtDist(|b|, hs[v].home, d))
  {
    AtDistDist(|b|, hs[v].home, d);
    assert d > 1 ==> b[AtDist(|b|, hs[v].home, d - 1)].df >= Packed(d - 1, hs[v].fp);
  }

  function Raised(c: Bucket): Bucket {
    Bucket(c.df + DIST_INC, c.idx)
  }

  /** An occupied bucket never is a whole turn away from home while another is empty. */
  lemma NotWrapped(b: seq<Bucket>, hs: seq<Slot>, i: nat, empty: nat)
    requires AllGood(b, hs) && i < |b| && b[i].df != 0 && empty < |b| && b[empty].df == 0
    ensures b[i].idx < |hs| && SlotOk(|b|, hs[b[i].idx]) && Dist(|b|, hs[b[i].idx].home, i) < |b|
  {
    assert Good(b, hs, i);
    var n, home := |b|, hs[b[i].idx].home;
    DistAtDist(n, home, i);
    DistAtDist(n, home, empty);
    if Dist(n, home, i) == n {
      Covers(b, hs, i, Dist(n, home, empty));
    }
  }

  lemma SwapGood(b: seq<Bucket>, hs: seq<Slot>, pos: seq<nat>, c: Bucket, place: nat, i: nat)
    requires Carrying(b, hs, pos, c, place) && b[place].df != 0 && i < |b|
    ensures Good(b[place := c], hs, i)
  {
    assert Good(b, hs, i) && Good(b, hs, place);
  }

  lemma SwapLinks(b: seq<Bucket>, hs: seq<Slot>, pos: seq<nat>, c: Bucket, place: nat)
    requires Carrying(b, hs, pos, c, place) && b[place].df != 0
    ensures Linked(b[place := c], pos[c.idx := place], b[place].idx, -1)
  {
    var b', pos' := b[place := c], pos[c.idx := place];
    assert Forth(b, pos, place);
    forall v | 0 <= v < |pos'| && v != b[place].idx
      ensures Back(b', pos', v)
    {
      assert v != c.idx ==> Back(b, pos, v);
    }
    forall i | 0 <= i < |b'|
      ensures Forth(b', pos', i) && (b'[i].df != 0 ==> b'[i].idx != b[place].idx)
    {
      assert Forth(b, pos, i);
    }
  }

  /** Exchanging the carried bucket for the one at its place, and moving on. */
  lemma SwapOn(b: seq<Bucket>, hs: seq<Slot>, pos: seq<nat>, c: Bucket, place: nat, empty: nat)
    requires Carrying(b, hs, pos, c, place) && b[place].df != 0 && empty < |b| && b[empty].df == 0
    ensures Carrying(b[place := c], hs, pos[c.idx := place], Raised(b[place]), Next(|b|, place))
    ensures b[place := c][empty].df == 0 && Dist(|b|, Next(|b|, place), empty) < Dist(|b|, place, empty)
  {
    var n, b' := |b|, b[place := c];
    NotWrapped(b, hs, place, empty);
    assert Good(b, hs, place) && Good(b, hs, Next(n, place));
    DistNext(n, hs[b[place].idx].home, place);
    SwapLinks(b, hs, pos, c, place);
    forall i | 0 <= i < n
      ensures Good(b', hs, i)
    {
      SwapGood(b, hs, pos, c, place, i);
    }
  }

  /** Dropping the carried bucket into an empty place. */
  lemma DropIn(b: seq<Bucket>, hs: seq<Slot>, pos: seq<nat>, c: Bucket, place: nat)
    requires Carrying(b, hs, pos, c, place) && b[place].df == 0
    ensures IndexBut(b[place := c], hs, pos[c.idx := place], -1)
  {
    var b', pos' := b[place := c], pos[c.idx := place];
    forall i | 0 <= i < |b'|
      ensures Good(b', hs, i)
    {
      assert Good(b, hs, i);
    }
    forall v | 0 <= v < |pos'|
      ensures Back(b', pos', v)
    {
      assert v != c.idx ==> Back(b, pos, v);
    }
    forall i | 0 <= i < |b'|
      ensures Forth(b', pos', i)
    {
      assert Forth(b, pos, i);
    }
  }

  // ---------------------------------------------------------------- shifting down

  /** Bucket `hole` is to be overwritten: the value it held is going, or has moved down. */
  ghost predicate Closing(b: seq<Bucket>, hs: seq<Slot>, pos: seq<nat>, gone: nat, hole: nat) {
    AllGood(b, hs) && |pos| == |hs| && gone < |hs| && hole < |b| && b[hole].df != 0 && Linked(b, pos, gone, hole) &&
    b[hole].idx < |pos| && (b[hole].idx == gone || pos[b[hole].idx] != hole)
  }

  lemma StartClosing(b: seq<Bucket>, hs: seq<Slot>, pos: seq<nat>, hole: nat)
    requires IndexOk(b, hs, pos) && hole < |b| && b[hole].df != 0
    ensures b[hole].idx < |hs| && Closing(b, hs, pos, b[hole].idx, hole)
  {
    assert Good(b, hs, hole) && Forth(b, pos, hole);
    forall i | 0 <= i < |b| && i != hole
      ensures Forth(b, pos, i) && (b[i].df != 0 ==> b[i].idx != b[hole].idx)
    {
      assert Forth(b, pos, i);
    }
  }

  function Lowered(c: Bucket): Bucket
    requires c.df >= DIST_INC
  {
    Bucket(c.df - DIST_INC, c.idx)
  }

  /** Moving the next bucket into the hole, which moves on. */
  lemma CloseOn(b: seq<Bucket>, hs: seq<Slot>, pos: seq<nat>, gone: nat, hole: nat, stop: nat)
    requires Closing(b, hs, pos, gone, hole) && b[Next(|b|, hole)].df >= 2 * DIST_INC && Stop(b, stop)
    ensures var j := Next(|b|, hole);
      j != hole && b[j].idx < |pos| && Closing(b[hole := Lowered(b[j])], hs, pos[b[j].idx := hole], gone, j) &&
      Stop(b[hole := Lowered(b[j])], stop) && Dist(|b|, Next(|b|, j), stop) < Dist(|b|, j, stop)
  {
    var n, j := |b|, Next(|b|, hole);
    assert Good(b, hs, j) && Good(b, hs, hole) && Forth(b, pos, j);
    DistAtDist(n, hs[b[j].idx].home, j);
    DistPrev(n, hs[b[j].idx].home, j);
    var b' := b[hole := Lowered(b[j])];
    forall i | 0 <= i < n
      ensures Good(b', hs, i)
    {
      assert Good(b, hs, i);
    }
    CloseLinked(b, pos, gone, hole, j);
  }

  lemma CloseLinked(b: seq<Bucket>, pos: seq<nat>, gone: nat, hole: nat, j: nat)
    requires hole < |b| && j < |b| && j != hole && Linked(b, pos, gone, hole) && b[j].df >= 2 * DIST_INC
    requires b[j].idx < |pos| && b[hole].idx < |pos| && (b[hole].idx == gone || pos[b[hole].idx] != hole)
    ensures Linked(b[hole := Lowered(b[j])], pos[b[j].idx := hole], gone, j)
  {
    var b', pos' := b[hole := Lowered(b[j])], pos[b[j].idx := hole];
    assert Forth(b, pos, j);
    forall v | 0 <= v < |pos'| && v != gone
      ensures Back(b', pos', v)
    {
      assert Back(b, pos, v);
    }
    forall i | 0 <= i < |b| && i != j
      ensures Forth(b', pos', i) && (b'[i].df != 0 ==> b'[i].idx != gone)
    {
      assert i != hole ==> Forth(b, pos, i);
    }
  }

  /** Emptying the hole when the next bucket is empty or at home. */
  lemma CloseUp(b: seq<Bucket>, hs: seq<Slot>, pos: seq<nat>, gone: nat, hole: nat)
    requires Closing(b, hs, pos, gone, hole) && b[Next(|b|, hole)].df < 2 * DIST_INC
    ensures IndexBut(b[hole := EMPTY], hs, pos, gone)
  {
    var b' := b[hole := EMPTY];
    forall i | 0 <= i < |b'|
      ensures Good(b', hs, i)
    {
      assert Good(b, hs, i);
    }
    forall v | 0 <= v < |pos| && v != gone
      ensures Back(b', pos, v)
    {
      assert Back(b, pos, v);
    }
    forall i | 0 <= i < |b'|
      ensures Forth(b', pos, i) && (b'[i].df != 0 ==> b'[i].idx != gone)
    {
      assert i != hole ==> Forth(b, pos, i);
    }
  }

  // ---------------------------------------------------------------- renumbering

  /** The last value takes the place of the one that has gone. */
  function Moved<T>(s: seq<T>, gone: nat): seq<T>
    requires gone < |s|
  {
    s[gone := s[|s| - 1]][..|s| - 1]
  }

  /** With the last value gone, nothing needs renumbering. */
  lemma LastGone(b: seq<Bucket>, hs: seq<Slot>, pos: seq<nat>)
    requires |hs| > 0 && IndexBut(b, hs, pos, |hs| - 1)
    ensures IndexBut(b, Moved(hs, |hs| - 1), Moved(pos, |hs| - 1), -1)
  {
    var last := |hs| - 1;
    var hs', pos' := Moved(hs, last), Moved(pos, last);
    forall i | 0 <= i < |b|
      ensures Good(b, hs', i)
    {
      assert Good(b, hs, i) && Forth(b, pos, i);
    }
    forall i | 0 <= i < |b|
      ensures Forth(b, pos', i)
    {
      assert Good(b, hs, i) && Forth(b, pos, i);
    }
    forall v | 0 <= v < |pos'|
      ensures Back(b, pos', v)
    {
      assert Back(b, pos, v);
    }
  }

  /** Repointing the last value's bucket. */
  lemma Repoint(b: seq<Bucket>, hs: seq<Slot>, pos: seq<nat>, gone: nat)
    requires gone < |hs| - 1 && IndexBut(b, hs, pos, gone)
    ensures pos[|hs| - 1] < |b| && b[pos[|hs| - 1]].df != 0
    ensures var b' := b[pos[|hs| - 1] := Bucket(b[pos[|hs| - 1]].df, gone)];
      IndexBut(b', Moved(hs, gone), Moved(pos, gone), -1)
  {
    var last := |hs| - 1;
    assert Back(b, pos, last);
    var b', pos', hs' := b[pos[last] := Bucket(b[pos[last]].df, gone)], Moved(pos, gone), Moved(hs, gone);
    forall i | 0 <= i < |b|
      ensures Good(b', hs', i) && Forth(b', pos', i)
    {
      assert Good(b, hs, i) && Forth(b, pos, i) && Good(b, hs, pos[last]);
    }
    forall v | 0 <= v < |pos'|
      ensures Back(b', pos', v)
    {
      assert v != gone ==> Back(b, pos, v);
    }
    assert Linked(b', pos', -1, -1);
  }

  /** On the way from its home to value v, no other bucket carries its number. */
  lemma FirstWithNumber(b: seq<Bucket>, hs: seq<Slot>, pos: seq<nat>, skip: int, v: nat, d: nat)
    requires IndexBut(b, hs, pos, skip) && v < |hs| && v != skip && NotBefore(b, pos, hs[v], v, d) && d > 0
    ensures d <= |b| && SlotOk(|b|, hs[v])
    ensures b[AtDist(|b|, hs[v].home, d)].idx == v <==> d == Dist(|b|, hs[v].home, pos[v])
  {
    assert Back(b, pos, v) && Good(b, hs, pos[v]);
    DistAtDist(|b|, hs[v].home, pos[v]);
    AtDistDist(|b|, hs[v].home, d);
    Covers(b, hs, pos[v], d);
    assert Forth(b, pos, AtDist(|b|, hs[v].home, d));
  }

  // ---------------------------------------------------------------- room

  function Below(n: nat): set<nat> {
    if n == 0 then {} else Below(n - 1) + {n - 1}
  }

  lemma {:induction false} BelowSize(n: nat)
    ensures |Below(n)| == n && forall i: nat :: i in Below(n) <==> i < n
  {
    if n > 0 {
      BelowSize(n - 1);
    }
  }

  lemma {:induction false} ImageSize(pos: seq<nat>)
    ensures |set v | 0 <= v < |pos| :: pos[v]| <= |pos|
  {
    if pos != [] {
      var n := |pos| - 1;
      ImageSize(pos[..n]);
      assert (set v | 0 <= v < |pos| :: pos[v]) == (set v | 0 <= v < n :: pos[..n][v]) + {pos[n]};
    }
  }

  /** With fewer values that have buckets than there are buckets, some bucket is empty. */
  lemma SomeEmpty(b: seq<Bucket>, pos: seq<nat>, skip: int) returns (empty: nat)
    requires Linked(b, pos, skip, -1) && if 0 <= skip < |pos| then |pos| <= |b| else |pos| < |b|
    ensures empty < |b| && b[empty].df == 0
  {
    var used := if 0 <= skip < |pos| then pos[..skip] + pos[skip + 1..] else pos;
    var image := set v | 0 <= v < |used| :: used[v];
    forall v | 0 <= v < |pos| && v != skip
      ensures pos[v] in image
    {
      assert used[if 0 <= skip < v then v - 1 else v] == pos[v];
    }
    BelowSize(|b|);
    ImageSize(used);
    var free := Below(|b|) - image;
    SubsetSize(Below(|b|) * image, image);
    assert |Below(|b|)| == |free| + |Below(|b|) * image|;
    empty :| empty in free;
    assert Forth(b, pos, empty);
  }

  /** An index with room, or one that has just taken in a value, has a place to stop. */
  lemma RoomStops(b: seq<Bucket>, pos: seq<nat>)
    requires Linked(b, pos, -1, -1) && |pos| < |b|
    ensures Stops(b)
  {
    var empty := SomeEmpty(b, pos, -1);
    assert Stop(b, empty);
  }

  lemma DropInStops(b: seq<Bucket>, hs: seq<Slot>, pos: seq<nat>, c: Bucket, place: nat)
    requires Carrying(b, hs, pos, c, place) && b[place].df == 0
    ensures Stops(b[place := c])
  {
    var next := Next(|b|, place);
    assert Good(b, hs, next);
    DistAtDist(|b|, hs[c.idx].home, place);
    assert Stop(b[place := c], next);
  }

  lemma {:induction false} SubsetSize(s: set<nat>, t: set<nat>)
    requires s <= t
    ensures |s| <= |t|
  {
    if s != {} {
      var x :| x in s;
      SubsetSize(s - {x}, t - {x});
    }
  }
}
