/** When `contains` of the lock-free list is right. */
module LockFreeContainsTheorems {
  import opened SetHistory
  import opened Linearizability
  import opened SortedChain
  import opened LockFreeList
  import opened LockFreeListProof
  import opened LockFreeContains

  // ---------------------------------------------------------------- longer runs

  lemma Extend(keys: iset<int>, x: System, x': System)
    requires Reaches(keys, true, x) && NextOf(keys, true, x, x')
    ensures Reaches(keys, true, x')
  {
    var run :| RunOf(keys, true, run) && run[|run| - 1] == x;
    var run' := run + [x'];
    forall i | 0 <= i < |run'| - 1
      ensures NextOf(keys, true, run'[i], run'[i + 1])
    {
      assert i < |run| - 1 ==> NextOf(keys, true, run[i], run[i + 1]);
    }
    assert RunOf(keys, true, run') && run'[|run'| - 1] == x';
  }

  lemma ExtendList(keys: iset<int>, x: System, t: nat, sh': Shared, tr': Thread) returns (x': System)
    requires Reaches(keys, true, x) && t < |x.list.threads| && Step(x.list.sh, x.list.threads[t], sh', tr') && tr'.key in keys
    ensures x' == System(State(sh', x.list.threads[t := tr']), x.readers) && Reaches(keys, true, x')
  {
    x' := System(State(sh', x.list.threads[t := tr']), x.readers);
    assert ListStep(true, x, t, sh', tr');
    assert ByList(keys, true, x, x');
    Extend(keys, x, x');
  }

  lemma ExtendReader(keys: iset<int>, x: System, u: nat, sh': Shared, r': Reader) returns (x': System)
    requires Reaches(keys, true, x) && ReadStep(x, u, sh', r') && r'.key in keys
    ensures x' == System(State(sh', x.list.threads), x.readers[u := r']) && Reaches(keys, true, x')
  {
    x' := System(State(sh', x.list.threads), x.readers[u := r']);
    assert ByReader(keys, x, x');
    Extend(keys, x, x');
  }

  // ---------------------------------------------------------------- parts of a run

  /** The node behind the head, and that head and node are unmarked. */
  predicate First(heap: seq<Node>, n: nat) {
    0 < n < |heap| && heap[HEAD].next == n && !heap[HEAD].bit && !heap[n].bit
  }

  /** A thread that adds a key has located its place before the first node. */
  lemma LocateFirst(keys: iset<int>, x: System, t: nat, key: int, n: nat) returns (x': System)
    requires Reaches(keys, true, x) && t < |x.list.threads| && x.list.threads[t].pc.Idle? && Ready(x.list.sh)
    requires key in keys && INT_MIN <= key <= INT_MAX && First(x.list.sh.heap, n) && key < x.list.sh.heap[n].key
    ensures Reaches(keys, true, x') && x'.readers == x.readers && |x'.list.threads| == |x.list.threads|
    ensures x'.list.sh.heap == x.list.sh.heap && |x'.list.sh.hist.past| == |x.list.sh.hist.past| + 2
    ensures var h, h', tr := x.list.sh.hist, x'.list.sh.hist, x'.list.threads[t];
      h'.calls == h.calls + [Call(Add, key, |h.past| - 1)] && h'.ops == h.ops &&
      x'.list.threads == x.list.threads[t := tr] &&
      tr.pc == Insert(HEAD, n) && tr.kind == Add && tr.key == key && tr.id == |h.calls| && tr.inv == |h.past| - 1
  {
    var sh, tr := x.list.sh, x.list.threads[t];
    var t1 := Thread(Start, Add, key, |sh.hist.calls|, Now(sh.hist), 0, 0);
    var sh1 := sh.(hist := Invoked(sh.hist, Add, key));
    assert Invoke(sh, tr, sh1, t1);
    var x1 := ExtendList(keys, x, t, sh1, t1);
    var t2 := t1.(pc := Look(HEAD, n), gap := Now(sh1.hist));
    var sh2 := sh1.(hist := Stutter(sh1.hist));
    assert Begin(sh1, t1, sh2, t2);
    var x2 := ExtendList(keys, x1, t, sh2, t2);
    var t3 := t2.(pc := Insert(HEAD, n));
    var sh3 := sh2.(hist := Stutter(sh2.hist));
    assert LookMiss(sh2, t2, sh3, t3);
    x' := ExtendList(keys, x2, t, sh3, t3);
  }

  /** A thread adds a key before the first node. */
  lemma AddFirst(keys: iset<int>, x: System, t: nat, key: int, n: nat) returns (x': System)
    requires Reaches(keys, true, x) && t < |x.list.threads| && x.list.threads[t].pc.Idle? && Ready(x.list.sh)
    requires key in keys && INT_MIN <= key <= INT_MAX && First(x.list.sh.heap, n) && key < x.list.sh.heap[n].key
    ensures Reaches(keys, true, x') && x'.readers == x.readers && |x'.list.threads| == |x.list.threads|
    ensures x'.list.threads == x.list.threads[t := x'.list.threads[t]] && x'.list.threads[t].pc.Idle?
    ensures x'.list.sh.heap == Inserted(x.list.sh.heap, HEAD, n, key)
    ensures var h, h', p := x.list.sh.hist, x'.list.sh.hist, |x.list.sh.hist.past|;
      |h'.past| == p + 3 && h'.calls == h.calls + [Call(Add, key, p - 1)] &&
      h'.ops == h.ops + [OpRec(|h.calls|, Add, key, true, p - 1, p + 1, p + 2)]
  {
    var x3 := LocateFirst(keys, x, t, key, n);
    var sh3, t3 := x3.list.sh, x3.list.threads[t];
    var t4 := t3.(pc := Idle);
    var heap := Inserted(sh3.heap, HEAD, n, key);
    var sh4 := Shared(heap, InsertAfter(sh3.chain, HEAD, |sh3.heap|),
      Returned(Changed(sh3.hist, t3.id, Keys(heap)), t3.id, Add, key, true, t3.inv, Now(sh3.hist)));
    assert InsertCas(sh3, t3, sh4, t4);
    x' := ExtendList(keys, x3, t, sh4, t4);
  }

  /** A thread that removes the first node's key has marked the node and not yet unlinked it. */
  lemma MarkFirst(keys: iset<int>, x: System, t: nat, key: int, n: nat) returns (x': System)
    requires Reaches(keys, true, x) && t < |x.list.threads| && x.list.threads[t].pc.Idle? && Ready(x.list.sh)
    requires key in keys && INT_MIN <= key <= INT_MAX && First(x.list.sh.heap, n) && key == x.list.sh.heap[n].key
    ensures Reaches(keys, true, x') && x'.readers == x.readers
    ensures x'.list.sh.heap == x.list.sh.heap[n := x.list.sh.heap[n].(bit := true)]
    ensures var h, h', p := x.list.sh.hist, x'.list.sh.hist, |x.list.sh.hist.past|;
      |h'.past| == p + 4 && h'.calls == h.calls + [Call(Remove, key, p - 1)] && h'.ops == h.ops
  {
    var sh, tr := x.list.sh, x.list.threads[t];
    var t1 := Thread(Start, Remove, key, |sh.hist.calls|, Now(sh.hist), 0, 0);
    var sh1 := sh.(hist := Invoked(sh.hist, Remove, key));
    assert Invoke(sh, tr, sh1, t1);
    var x1 := ExtendList(keys, x, t, sh1, t1);
    var t2 := t1.(pc := Look(HEAD, n), gap := Now(sh1.hist));
    var sh2 := sh1.(hist := Stutter(sh1.hist));
    assert Begin(sh1, t1, sh2, t2);
    var x2 := ExtendList(keys, x1, t, sh2, t2);
    var t3 := t2.(pc := Found(HEAD, n));
    var sh3 := sh2.(hist := Stutter(sh2.hist));
    assert LookHit(sh2, t2, sh3, t3);
    var x3 := ExtendList(keys, x2, t, sh3, t3);
    var t4 := t3.(pc := Mark(HEAD, n, sh3.heap[n].next));
    var sh4 := sh3.(hist := Stutter(sh3.hist));
    assert FoundRead(sh3, t3, sh4, t4);
    var x4 := ExtendList(keys, x3, t, sh4, t4);
    var heap := sh4.heap[n := sh4.heap[n].(bit := true)];
    var sh5 := sh4.(heap := heap, hist := Changed(sh4.hist, t4.id, Keys(heap)));
    var t5 := t4.(pc := Unlink(HEAD, n, sh4.heap[n].next), lin := Now(sh4.hist));
    assert MarkCas(sh4, t4, sh5, t5);
    x' := ExtendList(keys, x4, t, sh5, t5);
  }

  /** A walk that meets a marked first node n passes the node m behind it unseen. */
  lemma WalkPast(keys: iset<int>, x: System, key: int, n: nat, m: nat) returns (x': System)
    requires Reaches(keys, true, x) && |x.readers| > 0 && x.readers[0].walk.Away? && Ready(x.list.sh)
    requires key in keys && INT_MIN <= key < INT_MAX
    requires var heap := x.list.sh.heap;
      0 < n < |heap| && 0 < m < |heap| && heap[HEAD].next == n && !heap[HEAD].bit && heap[n].key < key &&
      heap[n].bit && heap[n].next == m && !heap[m].bit && heap[m].next == TAIL && TAIL < |heap| && heap[TAIL].key == INT_MAX
    ensures Reaches(keys, true, x')
    ensures var h, h', p := x.list.sh.hist, x'.list.sh.hist, |x.list.sh.hist.past|;
      h'.calls == h.calls + [Call(Contains, key, p - 1)] &&
      h'.ops == h.ops + [OpRec(|h.calls|, Contains, key, false, p - 1, p + 1, p + 2)]
  {
    var sh, r := x.list.sh, x.readers[0];
    var r1 := Reader(At(HEAD), key, |sh.hist.calls|, Now(sh.hist));
    var sh1 := sh.(hist := Invoked(sh.hist, Contains, key));
    assert Ask(sh, r, sh1, r1);
    var x1 := ExtendReader(keys, x, 0, sh1, r1);
    var r2 := r1.(walk := At(n));
    var sh2 := sh1.(hist := Stutter(sh1.hist));
    assert Hop(sh1, r1, sh2, r2);
    var x2 := ExtendReader(keys, x1, 0, sh2, r2);
    var r3 := r2.(walk := At(m));
    var sh3 := sh2.(hist := Stutter(sh2.hist));
    assert Hop(sh2, r2, sh3, r3);
    var x3 := ExtendReader(keys, x2, 0, sh3, r3);
    var r4 := r3.(walk := Away);
    var sh4 := sh3.(hist := Returned(Stutter(sh3.hist), r3.id, Contains, key, false, r3.inv, Now(sh3.hist)));
    assert Hop(sh3, r3, sh4, r4);
    x' := ExtendReader(keys, x3, 0, sh4, r4);
  }

  // ---------------------------------------------------------------- no order explains it

  /** A key that was added stays, if nobody removes it. */
  lemma {:induction false} AddedStays(calls: seq<Call>, order: seq<Taken>, i: nat, key: int)
    requires Linearizability.IdsOk(calls, order) && i < |order|
    requires calls[order[i].id].kind == Add && calls[order[i].id].key == key
    requires forall c :: c in calls ==> c.kind != Remove || c.key != key
    ensures key in SetAfter(calls, order)
  {
    var c := calls[order[|order| - 1].id];
    if i < |order| - 1 {
      AddedStays(calls, order[..|order| - 1], i, key);
      assert c in calls;
    }
  }

  /** A key is not missing if its add had returned before and nobody removes it. */
  lemma CannotBeMissing(h: History, key: int, r: OpRec, q: OpRec)
    requires r in h.ops && q in h.ops && Called(h, r.id, Add, key, r.inv) && Called(h, q.id, Contains, key, q.inv)
    requires !q.result && ReturnedBefore(h, r, q.id) && forall c :: c in h.calls ==> c.kind != Remove || c.key != key
    ensures !Linearizable(h)
  {
    if order :| IsLinearization(h, order) {
      assert Taken(r.id, r.result) in order && Taken(q.id, q.result) in order;
      var i :| 0 <= i < |order| && order[i] == Taken(r.id, r.result);
      var j :| 0 <= j < |order| && order[j] == Taken(q.id, q.result);
      assert i < j;
      assert AnswersInTurn(h.calls, order, j);
      AddedStays(h.calls, order[..j], i, key);
    }
  }

  /** Both keys have been added to an empty list. */
  lemma TwoAdded(keys: iset<int>, a: int, b: int) returns (x: System)
    requires a in keys && b in keys && INT_MIN <= a < b < INT_MAX
    ensures Reaches(keys, true, x) && |x.readers| == 1 && x.readers[0].walk.Away?
    ensures |x.list.threads| == 2 && x.list.threads[1].pc.Idle?
    ensures x.list.sh.heap == [Node(INT_MIN, 3, false), Node(INT_MAX, TAIL, false), Node(b, TAIL, false), Node(a, 2, false)]
    ensures |x.list.sh.hist.past| == 7 && x.list.sh.hist.calls == [Call(Add, b, 0), Call(Add, a, 3)]
    ensures x.list.sh.hist.ops == [OpRec(0, Add, b, true, 0, 2, 3), OpRec(1, Add, a, true, 3, 5, 6)]
  {
    var idle := Thread(Idle, Add, a, 0, 0, 0, 0);
    var x0 := System(State(EmptyList, [idle, idle]), [Reader(Away, a, 0, 0)]);
    StartReaches(keys, x0);
    var x1 := AddFirst(keys, x0, 0, b, TAIL);
    x := AddFirst(keys, x1, 0, a, 2);
  }

  lemma StartReaches(keys: iset<int>, x: System)
    requires Starts(x)
    ensures Reaches(keys, true, x)
  {
    assert RunOf(keys, true, [x]) && [x][|[x]| - 1] == x;
  }

  /** With a smaller key marked and not yet unlinked, `contains` of a key that was added before it
      was called, and that nobody removes, answers false. */
  lemma ContainsMisses(keys: iset<int>, a: int, b: int) returns (x: System)
    requires a in keys && b in keys && INT_MIN <= a < b < INT_MAX
    ensures Reaches(keys, true, x)
    ensures x.list.sh.hist.calls == [Call(Add, b, 0), Call(Add, a, 3), Call(Remove, a, 6), Call(Contains, b, 10)]
    ensures x.list.sh.hist.ops ==
      [OpRec(0, Add, b, true, 0, 2, 3), OpRec(1, Add, a, true, 3, 5, 6), OpRec(3, Contains, b, false, 10, 12, 13)]
    ensures !Linearizable(x.list.sh.hist)
  {
    var x2 := TwoAdded(keys, a, b);
    var x3 := MarkFirst(keys, x2, 1, a, 3);
    x := WalkPast(keys, x3, b, 3, 2);
    Unexplained(x.list.sh.hist, a, b);
  }

  lemma Unexplained(h: History, a: int, b: int)
    requires h.calls == [Call(Add, b, 0), Call(Add, a, 3), Call(Remove, a, 6), Call(Contains, b, 10)] && a != b
    requires h.ops == [OpRec(0, Add, b, true, 0, 2, 3), OpRec(1, Add, a, true, 3, 5, 6), OpRec(3, Contains, b, false, 10, 12, 13)]
    ensures !Linearizable(h)
  {
    assert h.ops[0] in h.ops && h.ops[2] in h.ops;
    CannotBeMissing(h, b, h.ops[0], h.ops[2]);
  }

  lemma GoodReaches(keys: iset<int>, x: System)
    requires Reaches(keys, false, x) && forall k :: k in keys ==> k < INT_MAX
    ensures Good(x)
  {
    var run :| RunOf(keys, false, run) && run[|run| - 1] == x;
    GoodRun(keys, run);
  }

  /** A walk can always go on, and each hop answers the call or comes nearer the tail: other
      threads' steps cannot hold it up, for they change no key. */
  lemma WalkEnds(keys: iset<int>, x: System, u: nat)
    requires Reaches(keys, false, x) && (forall k :: k in keys ==> k < INT_MAX)
    requires u < |x.readers| && x.readers[u].walk.At?
    ensures exists sh', r' :: Hop(x.list.sh, x.readers[u], sh', r')
    ensures forall sh', r' :: Hop(x.list.sh, x.readers[u], sh', r') ==>
      var r := x.readers[u];
      if r'.walk.Away? then Adds(x.list.sh.hist, sh'.hist, r.id, Contains, r.key, r.inv)
      else ToTail(sh'.heap, r'.walk.curr) < ToTail(x.list.sh.heap, r.walk.curr)
  {
    GoodReaches(keys, x);
    var sh, r := x.list.sh, x.readers[u];
    assert ReaderOk(sh, r);
    HopShortens(sh, r);
  }

  lemma HopShortens(sh: Shared, r: Reader)
    requires SharedOk(sh) && NoMarks(sh.heap) && ReaderOk(sh, r) && r.walk.At?
    ensures exists sh', r' :: Hop(sh, r, sh', r')
    ensures forall sh', r' :: Hop(sh, r, sh', r') ==>
      if r'.walk.Away? then Adds(sh.hist, sh'.hist, r.id, Contains, r.key, r.inv)
      else ToTail(sh'.heap, r'.walk.curr) < ToTail(sh.heap, r.walk.curr)
  {
    var next := sh.heap[r.walk.curr].next;
    assert NodeOk(sh.heap, r.walk.curr) && NodeOk(sh.heap, next);
    var result := sh.heap[next].key == r.key;
    var h := Stutter(sh.hist);
    var answered, passed := sh.(hist := Returned(h, r.id, Contains, r.key, result, r.inv, Now(sh.hist))), sh.(hist := h);
    if sh.heap[next].key >= r.key {
      assert Hop(sh, r, answered, r.(walk := Away));
    } else {
      assert Hop(sh, r, passed, r.(walk := At(next)));
    }
  }

  /** Over keys below the tail's, two at least, `add` and `contains` are linearizable together in
      every run; with `remove` in use as well they are not. */
  lemma ContainsIffNoRemoves(keys: iset<int>, removes: bool, a: int, b: int)
    requires a in keys && b in keys && INT_MIN <= a < b && forall k :: k in keys ==> k < INT_MAX
    ensures !removes <==> forall x :: Reaches(keys, removes, x) ==> Linearizable(x.list.sh.hist)
  {
    if removes {
      var x := ContainsMisses(keys, a, b);
    } else {
      forall x | Reaches(keys, false, x)
        ensures Linearizable(x.list.sh.hist)
      {
        GoodReaches(keys, x);
        PointsLinearize(x.list.sh.hist);
      }
    }
  }
}
