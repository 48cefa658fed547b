/**
  `contains` of the lock-free list (graphs/ordered_ll/lockfree_list.h). It walks the links, and
  stops only on reading an unmarked node's link. It never looks at the mark of the node it
  answers for, and walks on past the node behind a marked one without looking at its key.
 */
module LockFreeContains {
  import opened SetHistory
  import opened Linearizability
  import opened SortedChain
  import opened LockFreeList
  import opened LockFreeListProof

  datatype Walk = Away | At(curr: nat)

  /** A thread that calls `contains`. */
  datatype Reader = Reader(walk: Walk, key: int, id: nat, inv: nat)

  datatype System = System(list: State, readers: seq<Reader>)

  predicate Ask(sh: Shared, r: Reader, sh': Shared, r': Reader) {
    r.walk.Away? && Ready(sh) && INT_MIN <= r'.key <= INT_MAX &&
    sh' == sh.(hist := Invoked(sh.hist, Contains, r'.key)) &&
    r' == Reader(At(HEAD), r'.key, |sh.hist.calls|, Now(sh.hist))
  }

  /** Reads the link and the mark of the node it is at. */
  predicate Hop(sh: Shared, r: Reader, sh': Shared, r': Reader) {
    r.walk.At? && Ready(sh) && r.walk.curr < |sh.heap| && sh.heap[r.walk.curr].next < |sh.heap| &&
    var n := sh.heap[r.walk.curr];
    var key := sh.heap[n.next].key;
    if !n.bit && key >= r.key then
      sh' == sh.(hist := Returned(Stutter(sh.hist), r.id, Contains, r.key, key == r.key, r.inv, Now(sh.hist))) &&
      r' == r.(walk := Away)
    else
      sh' == sh.(hist := Stutter(sh.hist)) && r' == r.(walk := At(n.next))
  }

  /** `removes` says whether `remove` is in use. */
  predicate ListStep(removes: bool, x: System, t: nat, sh': Shared, tr': Thread) {
    t < |x.list.threads| && Step(x.list.sh, x.list.threads[t], sh', tr') && (removes || tr'.kind == Add)
  }

  predicate ReadStep(x: System, u: nat, sh': Shared, r': Reader) {
    u < |x.readers| && (Ask(x.list.sh, x.readers[u], sh', r') || Hop(x.list.sh, x.readers[u], sh', r'))
  }

  ghost predicate ByList(keys: iset<int>, removes: bool, x: System, x': System) {
    x'.readers == x.readers &&
    exists t: nat, tr' ::
      ListStep(removes, x, t, x'.list.sh, tr') && tr'.key in keys && x'.list.threads == x.list.threads[t := tr']
  }

  ghost predicate ByReader(keys: iset<int>, x: System, x': System) {
    x'.list.threads == x.list.threads &&
    exists u: nat, r' :: ReadStep(x, u, x'.list.sh, r') && r'.key in keys && x'.readers == x.readers[u := r']
  }

  ghost predicate NextOf(keys: iset<int>, removes: bool, x: System, x': System) {
    ByList(keys, removes, x, x') || ByReader(keys, x, x')
  }

  ghost predicate Starts(x: System) {
    Init(x.list) && forall u :: 0 <= u < |x.readers| ==> x.readers[u].walk == Away
  }

  ghost predicate RunOf(keys: iset<int>, removes: bool, run: seq<System>) {
    |run| > 0 && Starts(run[0]) && forall i :: 0 <= i < |run| - 1 ==> NextOf(keys, removes, run[i], run[i + 1])
  }

  ghost predicate Reaches(keys: iset<int>, removes: bool, x: System) {
    exists run :: RunOf(keys, removes, run) && run[|run| - 1] == x
  }

  // ---------------------------------------------------------------- without removes

  ghost predicate NoMarks(heap: seq<Node>) {
    forall n :: 0 <= n < |heap| ==> !heap[n].bit
  }

  ghost predicate OnlyAdds(threads: seq<Thread>) {
    forall t :: 0 <= t < |threads| && !threads[t].pc.Idle? ==> threads[t].kind == Add
  }

  /** A walk is at a node below its key. */
  ghost predicate ReaderOk(sh: Shared, r: Reader) {
    r.walk.Away? ||
    (r.inv < |sh.hist.past| && Called(sh.hist, r.id, Contains, r.key, r.inv) && Untouched(sh.hist, r.id) &&
     r.walk.curr < |sh.heap| && r.walk.curr != TAIL && (r.walk.curr == HEAD || sh.heap[r.walk.curr].key < r.key) &&
     r.key < INT_MAX)
  }

  predicate OtherReader(r: Reader, q: Reader) {
    !r.walk.Away? && !q.walk.Away? ==> r.id != q.id
  }

  predicate OtherThread(r: Reader, tr: Thread) {
    !r.walk.Away? && !tr.pc.Idle? ==> r.id != tr.id
  }

  ghost predicate IdsDiffer(readers: seq<Reader>, threads: seq<Thread>) {
    (forall u, v :: 0 <= u < |readers| && 0 <= v < |readers| && u != v ==> OtherReader(readers[u], readers[v])) &&
    (forall u, t :: 0 <= u < |readers| && 0 <= t < |threads| ==> OtherThread(readers[u], threads[t]))
  }

  ghost predicate ReadersOk(sh: Shared, readers: seq<Reader>) {
    forall u :: 0 <= u < |readers| ==> ReaderOk(sh, readers[u])
  }

  ghost predicate Good(x: System) {
    Inv(x.list) && NoMarks(x.list.sh.heap) && OnlyAdds(x.list.threads) && ReadersOk(x.list.sh, x.readers) &&
    IdsDiffer(x.readers, x.list.threads)
  }

  lemma StableReader(sh: Shared, sh': Shared, id: nat, r: Reader)
    requires Grows(sh.heap, sh'.heap) && Continues(sh.hist, sh'.hist, id) && ReaderOk(sh, r)
    requires !r.walk.Away? ==> r.id != id
    ensures ReaderOk(sh', r)
  {
    if !r.walk.Away? {
      UntouchedKept(sh.hist, sh'.hist, id, r.id);
    }
  }

  lemma AddsDoNotMark(sh: Shared, tr: Thread, sh': Shared, tr': Thread)
    requires ThreadOk(sh, tr) && NoMarks(sh.heap) && Step(sh, tr, sh', tr') && tr'.kind == Add
    ensures NoMarks(sh'.heap)
  {
  }

  /** A reader not concerned by a step of operation `id`, old or new. */
  lemma ReaderKept(sh: Shared, sh': Shared, id: nat, r: Reader)
    requires Grows(sh.heap, sh'.heap) && Continues(sh.hist, sh'.hist, id) && ReaderOk(sh, r)
    requires !r.walk.Away? ==> r.id != id || id == |sh.hist.calls|
    ensures ReaderOk(sh', r) && (!r.walk.Away? ==> r.id != id)
  {
    StableReader(sh, sh', id, r);
  }

  lemma ListNext(x: System, x': System, t: nat, tr': Thread)
    requires Good(x) && ListStep(false, x, t, x'.list.sh, tr') && tr'.key < INT_MAX
    requires x'.list.threads == x.list.threads[t := tr'] && x'.readers == x.readers
    ensures Good(x')
  {
    var sh, tr, sh' := x.list.sh, x.list.threads[t], x'.list.sh;
    ListStepIds(sh, tr, sh', tr', x.readers);
    AddsDoNotMark(sh, tr, sh', tr');
    StateNext(x.list, x'.list, t, tr');
  }

  lemma ListStepIds(sh: Shared, tr: Thread, sh': Shared, tr': Thread, readers: seq<Reader>)
    requires SharedOk(sh) && ThreadOk(sh, tr) && Step(sh, tr, sh', tr') && tr'.key < INT_MAX
    requires ReadersOk(sh, readers) && forall u :: 0 <= u < |readers| ==> OtherThread(readers[u], tr)
    ensures ReadersOk(sh', readers) && forall u :: 0 <= u < |readers| ==> OtherThread(readers[u], tr')
  {
    OwnStep(sh, tr, sh', tr');
    forall u | 0 <= u < |readers|
      ensures ReaderOk(sh', readers[u]) && OtherThread(readers[u], tr')
    {
      assert OtherThread(readers[u], tr);
      ReaderKept(sh, sh', tr'.id, readers[u]);
    }
  }

  // ---------------------------------------------------------------- steps of a reader

  /** A step that changes nothing but the history, by adding to it rightly. */
  ghost predicate HistoryGrows(sh: Shared, sh': Shared, id: nat) {
    sh' == sh.(hist := sh'.hist) && Linearized(sh'.hist) && Continues(sh.hist, sh'.hist, id) &&
    |sh.hist.past| > 0 && sh'.hist.past[|sh'.hist.past| - 1] == sh.hist.past[|sh.hist.past| - 1]
  }

  lemma AskOk(sh: Shared, r: Reader, sh': Shared, r': Reader)
    requires SharedOk(sh) && Ask(sh, r, sh', r') && r'.key < INT_MAX
    ensures HistoryGrows(sh, sh', r'.id) && ReaderOk(sh', r') && r'.id == |sh.hist.calls|
  {
    InvokedKeeps(sh.hist, Contains, r'.key);
  }

  /** With no node marked, the link read has no key of the set between its ends. */
  lemma HopOk(sh: Shared, r: Reader, sh': Shared, r': Reader)
    requires SharedOk(sh) && NoMarks(sh.heap) && ReaderOk(sh, r) && Hop(sh, r, sh', r')
    ensures HistoryGrows(sh, sh', r'.id) && ReaderOk(sh', r') && r'.id == r.id
  {
    StutterKeeps(sh.hist, r.id);
    var next := sh.heap[r.walk.curr].next;
    assert NodeOk(sh.heap, r.walk.curr);
    if r'.walk.Away? {
      LinkIsGap(sh.heap, sh.chain, r.walk.curr, next);
      MemberIff(sh.heap, r.walk.curr, next, r.key);
      ReturnedUnchanged(Stutter(sh.hist), r.id, Contains, r.key, sh.heap[next].key == r.key, r.inv, Now(sh.hist));
    }
  }

  lemma MemberIff(heap: seq<Node>, pred: nat, curr: nat, key: int)
    requires SentinelsOk(heap) && NoMarks(heap) && pred < |heap| && 0 < curr < |heap|
    requires Gap(heap, pred, curr, Keys(heap)) && (pred == HEAD || heap[pred].key < key) && key <= heap[curr].key && key < INT_MAX
    ensures key in Keys(heap) <==> heap[curr].key == key
  {
  }

  lemma ReadNext(x: System, x': System, u: nat, r': Reader)
    requires Good(x) && ReadStep(x, u, x'.list.sh, r') && r'.key < INT_MAX
    requires x'.list.threads == x.list.threads && x'.readers == x.readers[u := r']
    ensures Good(x')
  {
    var sh, r, sh' := x.list.sh, x.readers[u], x'.list.sh;
    assert ReaderOk(sh, r);
    if Ask(sh, r, sh', r') {
      AskOk(sh, r, sh', r');
    } else {
      HopOk(sh, r, sh', r');
    }
    ThreadsKept(x, x', u, r');
    OthersKept(x, x', u, r');
  }

  lemma ThreadsKept(x: System, x': System, u: nat, r': Reader)
    requires Inv(x.list) && IdsDiffer(x.readers, x.list.threads) && u < |x.readers|
    requires HistoryGrows(x.list.sh, x'.list.sh, r'.id)
    requires if x.readers[u].walk.Away? then r'.id == |x.list.sh.hist.calls| else r'.id == x.readers[u].id
    requires x'.list.threads == x.list.threads
    ensures Inv(x'.list) && forall t :: 0 <= t < |x.list.threads| ==> OtherThread(r', x.list.threads[t])
  {
    var sh, sh' := x.list.sh, x'.list.sh;
    forall t | 0 <= t < |x.list.threads|
      ensures ThreadOk(sh', x.list.threads[t]) && OtherThread(r', x.list.threads[t])
    {
      assert ThreadOk(sh, x.list.threads[t]) && OtherThread(x.readers[u], x.list.threads[t]);
      if !x.list.threads[t].pc.Idle? {
        IdBelow(sh, x.list.threads[t]);
      }
      StableThread(sh, sh', r'.id, x.list.threads[t]);
    }
  }

  lemma OthersKept(x: System, x': System, u: nat, r': Reader)
    requires ReadersOk(x.list.sh, x.readers) && IdsDiffer(x.readers, x.list.threads) && u < |x.readers|
    requires HistoryGrows(x.list.sh, x'.list.sh, r'.id) && ReaderOk(x'.list.sh, r')
    requires if x.readers[u].walk.Away? then r'.id == |x.list.sh.hist.calls| else r'.id == x.readers[u].id
    requires forall t :: 0 <= t < |x.list.threads| ==> OtherThread(r', x.list.threads[t])
    ensures ReadersOk(x'.list.sh, x.readers[u := r']) && IdsDiffer(x.readers[u := r'], x.list.threads)
  {
    forall v | 0 <= v < |x.readers| && v != u
      ensures ReaderOk(x'.list.sh, x.readers[v]) && OtherReader(x.readers[v], r') && OtherReader(r', x.readers[v])
    {
      assert OtherReader(x.readers[v], x.readers[u]) && ReaderOk(x.list.sh, x.readers[v]);
      ReaderKept(x.list.sh, x'.list.sh, r'.id, x.readers[v]);
    }
  }

  lemma GoodNext(keys: iset<int>, x: System, x': System)
    requires Good(x) && NextOf(keys, false, x, x') && forall k :: k in keys ==> k < INT_MAX
    ensures Good(x')
  {
    if ByList(keys, false, x, x') {
      var t: nat, tr' :|
        ListStep(false, x, t, x'.list.sh, tr') && tr'.key in keys && x'.list.threads == x.list.threads[t := tr'];
      ListNext(x, x', t, tr');
    } else {
      var u: nat, r' :| ReadStep(x, u, x'.list.sh, r') && r'.key in keys && x'.readers == x.readers[u := r'];
      ReadNext(x, x', u, r');
    }
  }

  lemma {:induction false} GoodRun(keys: iset<int>, run: seq<System>)
    requires RunOf(keys, false, run) && forall k :: k in keys ==> k < INT_MAX
    ensures Good(run[|run| - 1])
    decreases |run|
  {
    if |run| == 1 {
      InvInit(run[0].list);
    } else {
      var before := run[..|run| - 1];
      GoodRun(keys, before);
      var k := |run| - 2;
      assert NextOf(keys, false, run[k], run[k + 1]);
      GoodNext(keys, run[k], run[k + 1]);
    }
  }
}
