/**
  The two location sets a transaction's log can be kept in (tl2/op.h, tl2/log.h), and what
  they have in common: both are a map from addresses to entries, the one that module Protocol
  gives its threads.
 */
module TransactionLog {
  import opened Options
  import opened LockTable
  import opened Protocol
  import opened RadixKeys
  import SkaSort

  // ---------------------------------------------------------------- what a log means

  function StagedIn(log: map<Addr, Entry>, a: Addr): Option<Val> {
    if a in log then log[a].staged else None
  }

  function ReadIn(log: map<Addr, Entry>, a: Addr): bool {
    a in log && log[a].read
  }

  function WithRead(log: map<Addr, Entry>, a: Addr): map<Addr, Entry> {
    log[a := Entry(true, StagedIn(log, a))]
  }

  function WithWrite(log: map<Addr, Entry>, a: Addr, v: Val): map<Addr, Entry> {
    log[a := Entry(ReadIn(log, a), Some(v))]
  }

  function ViewOf(vec: seq<Item>): map<Addr, Entry> {
    if vec == [] then map[] else ViewOf(vec[..|vec| - 1])[vec[|vec| - 1].key := vec[|vec| - 1].entry]
  }

  ghost predicate DistinctAddrs(vec: seq<Item>) {
    forall i, j :: 0 <= i < j < |vec| ==> vec[i].key != vec[j].key
  }

  lemma {:induction false} ViewHas(vec: seq<Item>, i: nat)
    requires DistinctAddrs(vec) && i < |vec|
    ensures vec[i].key in ViewOf(vec) && ViewOf(vec)[vec[i].key] == vec[i].entry
  {
    if i < |vec| - 1 {
      ViewHas(vec[..|vec| - 1], i);
    }
  }

  lemma {:induction false} ViewFrom(vec: seq<Item>, a: Addr) returns (i: nat)
    requires a in ViewOf(vec)
    ensures i < |vec| && vec[i].key == a
  {
    i := |vec| - 1;
    if vec[i].key != a {
      i := ViewFrom(vec[..i], a);
    }
  }

  lemma ViewUpdated(vec: seq<Item>, i: nat, e: Entry)
    requires DistinctAddrs(vec) && i < |vec|
    ensures DistinctAddrs(vec[i := Item(vec[i].key, e)])
    ensures ViewOf(vec[i := Item(vec[i].key, e)]) == ViewOf(vec)[vec[i].key as Addr := e]
  {
    var vec' := vec[i := Item(vec[i].key, e)];
    forall a | a in ViewOf(vec')
      ensures a in ViewOf(vec)[vec[i].key as Addr := e] && ViewOf(vec')[a] == ViewOf(vec)[vec[i].key as Addr := e][a]
    {
      var j := ViewFrom(vec', a);
      ViewHas(vec', j);
      ViewHas(vec, j);
    }
    forall a | a in ViewOf(vec)
      ensures a in ViewOf(vec')
    {
      var j := ViewFrom(vec, a);
      ViewHas(vec', j);
    }
    ViewHas(vec', i);
  }

  lemma ViewPushed(vec: seq<Item>, x: Item)
    ensures ViewOf(vec + [x]) == ViewOf(vec)[x.key as Addr := x.entry]
  {
    assert (vec + [x])[..|vec|] == vec;
  }

  // ---------------------------------------------------------------- sorting the log

  function Addrs(vec: seq<Item>): seq<Addr> {
    seq(|vec|, i requires 0 <= i < |vec| => vec[i].key as Addr)
  }

  ghost predicate AscendingAddrs(vec: seq<Item>) {
    forall i, j :: 0 <= i < j < |vec| ==> vec[i].key < vec[j].key
  }

  /** A rearrangement holds the same locations. */
  lemma ViewRearranged(vec: seq<Item>, vec': seq<Item>)
    requires DistinctAddrs(vec) && multiset(vec') == multiset(vec)
    ensures DistinctAddrs(vec') && ViewOf(vec') == ViewOf(vec)
  {
    RearrangedDistinct(vec, vec');
    forall a | a in ViewOf(vec')
      ensures a in ViewOf(vec) && ViewOf(vec')[a] == ViewOf(vec)[a]
    {
      var i := ViewFrom(vec', a);
      ViewHas(vec', i);
      assert vec'[i] in multiset(vec);
      var j :| 0 <= j < |vec| && vec[j] == vec'[i];
      ViewHas(vec, j);
    }
    forall a | a in ViewOf(vec)
      ensures a in ViewOf(vec')
    {
      var i := ViewFrom(vec, a);
      assert vec[i] in multiset(vec');
      var j :| 0 <= j < |vec'| && vec'[j] == vec[i];
      ViewHas(vec', j);
    }
  }

  lemma OnceInDistinct(vec: seq<Item>, i: nat)
    requires DistinctAddrs(vec) && i < |vec|
    ensures multiset(vec)[vec[i]] == 1
  {
    assert vec == vec[..i] + [vec[i]] + vec[i + 1..];
    assert vec[i] !in vec[..i] && vec[i] !in vec[i + 1..];
  }

  lemma RearrangedDistinct(vec: seq<Item>, vec': seq<Item>)
    requires DistinctAddrs(vec) && multiset(vec') == multiset(vec)
    ensures DistinctAddrs(vec')
  {
    forall i, j | 0 <= i < j < |vec'|
      ensures vec'[i].key != vec'[j].key
    {
      assert vec'[i] in multiset(vec) && vec'[j] in multiset(vec);
      var p :| 0 <= p < |vec| && vec[p] == vec'[i];
      var q :| 0 <= q < |vec| && vec[q] == vec'[j];
      OnceInDistinct(vec, p);
      TwiceIn(vec', i, j);
    }
  }

  lemma TwiceIn(vec: seq<Item>, i: nat, j: nat)
    requires i < j < |vec|
    ensures vec[i] == vec[j] ==> multiset(vec)[vec[i]] >= 2
  {
    assert vec == vec[..j] + [vec[j]] + vec[j + 1..];
    assert vec[i] == vec[..j][i];
    assert multiset(vec[..j])[vec[i]] >= 1;
  }

  /** Sorted by address, the log's locations are in the order module Protocol calls sorted. */
  lemma SortedIsLogOrder(vec: seq<Item>)
    requires DistinctAddrs(vec) && forall i, j :: 0 <= i < j < |vec| ==> vec[i].key <= vec[j].key
    ensures AscendingAddrs(vec) && SortedLog(Addrs(vec), ViewOf(vec))
  {
    forall a
      ensures a in Addrs(vec) <==> a in ViewOf(vec)
    {
      if a in Addrs(vec) {
        var i :| 0 <= i < |vec| && Addrs(vec)[i] == a;
        ViewHas(vec, i);
      }
      if a in ViewOf(vec) {
        var i := ViewFrom(vec, a);
        assert Addrs(vec)[i] == a;
      }
    }
  }

  // ---------------------------------------------------------------- the hash-indexed vector

  /** The index says where each address is. */
  ghost predicate IndexRight(vec: seq<Item>, index: map<Addr, nat>) {
    (forall i {:trigger vec[i]} :: 0 <= i < |vec| ==> vec[i].key in index && index[vec[i].key] == i) &&
    (forall a :: a in index ==> index[a] < |vec| && vec[index[a]].key == a)
  }

  lemma IndexDistinct(vec: seq<Item>, index: map<Addr, nat>)
    requires IndexRight(vec, index)
    ensures DistinctAddrs(vec) && forall a :: a in index <==> a in ViewOf(vec)
  {
    assert DistinctAddrs(vec) by {
      forall i, j | 0 <= i < j < |vec|
        ensures vec[i].key != vec[j].key
      {
        assert index[vec[i].key] == i && index[vec[j].key] == j;
      }
    }
    forall a
      ensures a in index <==> a in ViewOf(vec)
    {
      if a in index {
        ViewHas(vec, index[a]);
      }
      if a in ViewOf(vec) {
        var i := ViewFrom(vec, a);
      }
    }
  }

  /** The index survives sorting exactly if the locations were in address order already. */
  lemma StaleUnlessAscending(vec: seq<Item>, vec': seq<Item>, index: map<Addr, nat>)
    requires IndexRight(vec, index) && multiset(vec') == multiset(vec)
    requires forall i, j :: 0 <= i < j < |vec'| ==> vec'[i].key <= vec'[j].key
    ensures IndexRight(vec', index) <==> AscendingAddrs(vec)
  {
    assert |multiset(vec)| == |vec| && |multiset(vec')| == |vec'|;
    IndexDistinct(vec, index);
    RearrangedDistinct(vec, vec');
    if AscendingAddrs(vec) {
      SortedKeysUnique(vec, vec');
      forall i | 0 <= i < |vec'|
        ensures vec'[i].key in index && index[vec'[i].key] == i
      {
        assert vec[i].key == vec'[i].key;
      }
      forall a | a in index
        ensures index[a] < |vec'| && vec'[index[a]].key == a
      {
        assert vec[index[a]].key == a;
      }
    }
    if IndexRight(vec', index) {
      forall i, j | 0 <= i < j < |vec|
        ensures vec[i].key < vec[j].key
      {
        assert vec'[index[vec[i].key]].key == vec[i].key && vec'[index[vec[j].key]].key == vec[j].key;
      }
    }
  }

  /** The locations, sorted in place by the radix sort. */
  method SortedByAddress(vec: seq<Item>, ghost index: map<Addr, nat>) returns (sorted: seq<Item>)
    requires IndexRight(vec, index)
    ensures SortedLog(Addrs(sorted), ViewOf(sorted)) && ViewOf(sorted) == ViewOf(vec) && DistinctAddrs(sorted)
    ensures IndexRight(sorted, index) <==> AscendingAddrs(vec)
  {
    var a := new Item[|vec|](i requires 0 <= i < |vec| => vec[i]);
    assert a[..] == vec;
    SkaSort.SkaSort(a, 0, a.Length);
    sorted := a[..];
    assert forall i, j :: 0 <= i < j < |sorted| ==> sorted[i].key <= sorted[j].key;
    RearrangedWhole(vec, sorted, 0, a.Length);
    SortingKeeps(vec, sorted, index);
  }

  lemma SortingKeeps(vec: seq<Item>, sorted: seq<Item>, index: map<Addr, nat>)
    requires IndexRight(vec, index) && multiset(sorted) == multiset(vec)
    requires forall i, j :: 0 <= i < j < |sorted| ==> sorted[i].key <= sorted[j].key
    ensures SortedLog(Addrs(sorted), ViewOf(sorted)) && ViewOf(sorted) == ViewOf(vec) && DistinctAddrs(sorted)
    ensures IndexRight(sorted, index) <==> AscendingAddrs(vec)
  {
    IndexDistinct(vec, index);
    StaleUnlessAscending(vec, sorted, index);
    ViewRearranged(vec, sorted);
    SortedIsLogOrder(sorted);
  }

  class LocationHashVectorSet {
    var vec: seq<Item>
    /** The dense hash table from addresses to positions, here a finite map. */
    var index: map<Addr, nat>

    ghost predicate Valid()
      reads this
    {
      IndexRight(vec, index)
    }

    ghost function View(): map<Addr, Entry>
      reads this
    {
      ViewOf(vec)
    }

    constructor ()
      ensures Valid() && View() == map[]
    {
      vec, index := [], map[];
    }

    method FindWrite(addr: Key) returns (r: Option<Val>)
      requires Valid()
      ensures r == StagedIn(View(), addr)
    {
      IndexDistinct(vec, index);
      if addr in index && vec[index[addr]].entry.staged.Some? {
        ViewHas(vec, index[addr]);
        return vec[index[addr]].entry.staged;
      }
      if addr in index {
        ViewHas(vec, index[addr]);
      }
      return None;
    }

    method RegisterWrite(addr: Key, val: Val)
      requires Valid()
      modifies this
      ensures Valid() && View() == WithWrite(old(View()), addr, val)
    {
      IndexDistinct(vec, index);
      if addr in index {
        var i := index[addr];
        ViewHas(vec, i);
        ViewUpdated(vec, i, Entry(vec[i].entry.read, Some(val)));
        vec := vec[i := Item(vec[i].key, Entry(vec[i].entry.read, Some(val)))];
      } else {
        ViewPushed(vec, Item(addr, Entry(false, Some(val))));
        index := index[addr as Addr := |vec|];
        vec := vec + [Item(addr, Entry(false, Some(val)))];
      }
    }

    method RegisterRead(addr: Key)
      requires Valid()
      modifies this
      ensures Valid() && View() == WithRead(old(View()), addr)
    {
      IndexDistinct(vec, index);
      if addr in index {
        var i := index[addr];
        ViewHas(vec, i);
        ViewUpdated(vec, i, Entry(true, vec[i].entry.staged));
        vec := vec[i := Item(vec[i].key, Entry(true, vec[i].entry.staged))];
      } else {
        ViewPushed(vec, Item(addr, Entry(true, None)));
        index := index[addr as Addr := |vec|];
        vec := vec + [Item(addr, Entry(true, None))];
      }
    }

    /** Sorts the locations in place; the index is left as it was, and so is right only if
        nothing moved. */
    method StableSort()
      requires Valid()
      modifies this`vec
      ensures SortedLog(Addrs(vec), View()) && View() == old(View()) && DistinctAddrs(vec)
      ensures Valid() <==> AscendingAddrs(old(vec))
    {
      vec := SortedByAddress(vec, index);
    }

    method Clear()
      modifies this
      ensures Valid() && View() == map[]
    {
      vec, index := [], map[];
    }
  }

  // ---------------------------------------------------------------- the ordered set

  class LocationOrderedSet {
    /** The tree, as the map it holds: one location per address. */
    var tree: map<Addr, Entry>

    constructor ()
      ensures tree == map[]
    {
      tree := map[];
    }

    method FindWrite(addr: Key) returns (r: Option<Val>)
      ensures r == StagedIn(tree, addr)
    {
      if addr in tree && tree[addr].staged.Some? {
        return tree[addr].staged;
      }
      return None;
    }

    /** A location is built only when the address is new. */
    method RegisterWrite(addr: Key, val: Val)
      modifies this
      ensures tree == WithWrite(old(tree), addr, val)
    {
      if addr in tree {
        tree := tree[addr as Addr := Entry(tree[addr].read, Some(val))];
        return;
      }
      var loc := Entry(false, Some(val));
      tree := tree[addr as Addr := loc];
    }

    /** A location is built first, and dropped if the address was there. */
    method RegisterRead(addr: Key)
      modifies this
      ensures tree == WithRead(old(tree), addr)
    {
      var loc := Entry(true, None);
      if addr !in tree {
        tree := tree[addr as Addr := loc];
        return;
      }
      tree := tree[addr as Addr := Entry(true, tree[addr].staged)];
    }

    method Clear()
      modifies this
      ensures tree == map[]
    {
      tree := map[];
    }
  }

  // ---------------------------------------------------------------- the same answers

  datatype LogOp = AppendRead(addr: Key) | AppendWrite(addr: Key, val: Val) | ValueAt(addr: Key) | ClearLog

  /** What a log answers to a list of operations. */
  function Answers(ops: seq<LogOp>): (seq<Option<Val>>, map<Addr, Entry>) {
    if ops == [] then ([], map[])
    else
      var (answers, log) := Answers(ops[..|ops| - 1]);
      match ops[|ops| - 1]
      case AppendRead(a) => (answers, WithRead(log, a))
      case AppendWrite(a, v) => (answers, WithWrite(log, a, v))
      case ValueAt(a) => (answers + [StagedIn(log, a)], log)
      case ClearLog => (answers, map[])
  }

  /** The address was read, and the log not cleared since. */
  ghost predicate ReadSinceClear(ops: seq<LogOp>, a: Key) {
    exists i :: 0 <= i < |ops| && ops[i] == AppendRead(a) && forall j :: i < j < |ops| ==> ops[j] != ClearLog
  }

  /** The value was the last one written to the address, and the log not cleared since. */
  ghost predicate WrittenSinceClear(ops: seq<LogOp>, a: Key, v: Val) {
    exists i :: 0 <= i < |ops| && ops[i] == AppendWrite(a, v) &&
      forall j :: i < j < |ops| ==> ops[j] != ClearLog && !(ops[j].AppendWrite? && ops[j].addr == a)
  }

  /** What an entry says: that the address was read, and what was last written to it, since the
      log was last cleared. A write is no read, and a read no write. */
  lemma {:induction false} EntriesSay(ops: seq<LogOp>, a: Key)
    ensures ReadIn(Answers(ops).1, a) <==> ReadSinceClear(ops, a)
    ensures forall v :: StagedIn(Answers(ops).1, a) == Some(v) <==> WrittenSinceClear(ops, a, v)
    ensures a in Answers(ops).1 ==> ReadIn(Answers(ops).1, a) || StagedIn(Answers(ops).1, a).Some?
  {
    if ops != [] {
      var n := |ops| - 1;
      EntriesSay(ops[..n], a);
      ReadSinceMore(ops, a);
      forall v
        ensures WrittenSinceClear(ops, a, v) <==>
          ops[n] == AppendWrite(a, v) ||
          (WrittenSinceClear(ops[..n], a, v) && ops[n] != ClearLog && !(ops[n].AppendWrite? && ops[n].addr == a))
      {
        WrittenSinceMore(ops, a, v);
      }
    }
  }

  lemma ReadSinceMore(ops: seq<LogOp>, a: Key)
    requires ops != []
    ensures var n := |ops| - 1;
      ReadSinceClear(ops, a) <==> ops[n] == AppendRead(a) || (ReadSinceClear(ops[..n], a) && ops[n] != ClearLog)
  {
    var n := |ops| - 1;
    if ReadSinceClear(ops, a) {
      var i :| 0 <= i < |ops| && ops[i] == AppendRead(a) && forall j :: i < j < |ops| ==> ops[j] != ClearLog;
      assert i < n ==> ops[..n][i] == AppendRead(a);
    }
    if ReadSinceClear(ops[..n], a) && ops[n] != ClearLog {
      var i :| 0 <= i < n && ops[..n][i] == AppendRead(a) && forall j :: i < j < n ==> ops[..n][j] != ClearLog;
      assert ops[i] == AppendRead(a);
      assert forall j :: i < j < n ==> ops[j] == ops[..n][j];
    }
  }

  lemma WrittenSinceMore(ops: seq<LogOp>, a: Key, v: Val)
    requires ops != []
    ensures var n := |ops| - 1;
      WrittenSinceClear(ops, a, v) <==>
        ops[n] == AppendWrite(a, v) ||
        (WrittenSinceClear(ops[..n], a, v) && ops[n] != ClearLog && !(ops[n].AppendWrite? && ops[n].addr == a))
  {
    var n := |ops| - 1;
    if WrittenSinceClear(ops, a, v) {
      var i :| 0 <= i < |ops| && ops[i] == AppendWrite(a, v) &&
        forall j :: i < j < |ops| ==> ops[j] != ClearLog && !(ops[j].AppendWrite? && ops[j].addr == a);
      assert i < n ==> ops[..n][i] == AppendWrite(a, v);
    }
    if WrittenSinceClear(ops[..n], a, v) && ops[n] != ClearLog && !(ops[n].AppendWrite? && ops[n].addr == a) {
      var i :| 0 <= i < n && ops[..n][i] == AppendWrite(a, v) &&
        forall j :: i < j < n ==> ops[..n][j] != ClearLog && !(ops[..n][j].AppendWrite? && ops[..n][j].addr == a);
      assert ops[i] == AppendWrite(a, v);
      assert forall j :: i < j < n ==> ops[j] == ops[..n][j];
    }
  }

  /** Whatever is asked of them, the two sets give the same answers and hold the same log. */
  method SameAnswers(ops: seq<LogOp>) returns (hashed: seq<Option<Val>>, ordered: seq<Option<Val>>)
    ensures hashed == ordered == Answers(ops).0
  {
    var h := new LocationHashVectorSet();
    var o := new LocationOrderedSet();
    hashed, ordered := [], [];
    var i := 0;
    while i < |ops|
      invariant i <= |ops| && h.Valid() && fresh(h) && fresh(o)
      invariant (hashed, h.View()) == Answers(ops[..i]) && (ordered, o.tree) == Answers(ops[..i])
    {
      assert ops[..i + 1][..i] == ops[..i];
      match ops[i] {
        case AppendRead(a) =>
          h.RegisterRead(a);
          o.RegisterRead(a);
        case AppendWrite(a, v) =>
          h.RegisterWrite(a, v);
          o.RegisterWrite(a, v);
        case ValueAt(a) =>
          var x := h.FindWrite(a);
          var y := o.FindWrite(a);
          hashed, ordered := hashed + [x], ordered + [y];
        case ClearLog =>
          h.Clear();
          o.Clear();
      }
      i := i + 1;
    }
    assert ops[..i] == ops;
  }
}
