/** The lock-free list is a linearizable set for every key below that of the tail sentinel. */
module LockFreeListProof {
  import opened SetHistory
  import opened SortedChain
  import opened LockFreeList

  // ---------------------------------------------------------------- the heap

  /** The sentinels are never marked. */
  ghost predicate SentinelsOk(heap: seq<Node>) {
    HeapOk(heap) && !heap[HEAD].bit && !heap[TAIL].bit
  }

  /** Every unmarked node is reachable. */
  ghost predicate AllChained(heap: seq<Node>, chain: seq<nat>) {
    forall n :: 0 <= n < |heap| && !heap[n].bit ==> n in chain
  }

  ghost predicate SharedOk(sh: Shared) {
    SentinelsOk(sh.heap) && ChainOk(sh.heap, sh.chain) && AllChained(sh.heap, sh.chain) &&
    Linearized(sh.hist) && sh.hist.past[|sh.hist.past| - 1] == Keys(sh.heap)
  }

  /** Keys never change, a marked node stays as it is, and nodes are only added. */
  ghost predicate Grows(heap: seq<Node>, heap': seq<Node>) {
    |heap| <= |heap'| &&
    (forall n :: 0 <= n < |heap| ==> heap'[n].key == heap[n].key) &&
    (forall n :: 0 <= n < |heap| && heap[n].bit ==> heap'[n] == heap[n])
  }

  /** No key of the set lies strictly between the two nodes. */
  ghost predicate Gap(heap: seq<Node>, pred: nat, curr: nat, keys: set<int>)
    requires pred < |heap| && curr < |heap|
  {
    forall k :: k in keys ==> (pred != HEAD && k <= heap[pred].key) || heap[curr].key <= k
  }

  /** An unmarked node and its successor have no key of the set between them. */
  lemma LinkIsGap(heap: seq<Node>, chain: seq<nat>, pred: nat, curr: nat)
    requires SentinelsOk(heap) && ChainOk(heap, chain) && AllChained(heap, chain) && Links(heap, pred, curr)
    ensures pred != TAIL ==> Below(heap, pred, curr) && Gap(heap, pred, curr, Keys(heap))
  {
    if pred != TAIL {
      assert NodeOk(heap, pred);
      var i :| 0 <= i < |chain| && chain[i] == pred;
      forall k | k in Keys(heap)
        ensures (pred != HEAD && k <= heap[pred].key) || heap[curr].key <= k
      {
        var q :| 2 <= q < |heap| && !heap[q].bit && heap[q].key == k;
        var j :| 0 <= j < |chain| && chain[j] == q;
        if j < i {
          assert Below(heap, chain[j], chain[i]);
        } else if i + 1 < j {
          assert Below(heap, chain[i + 1], chain[j]);
        }
      }
    }
  }

  /** Unmarked nodes between the sentinels have different keys. */
  lemma KeysDiffer(heap: seq<Node>, chain: seq<nat>, n: nat, m: nat)
    requires ChainOk(heap, chain) && AllChained(heap, chain) && HEAD < n < |heap| && HEAD < m < |heap| && n != m
    requires !heap[n].bit && !heap[m].bit
    ensures heap[n].key != heap[m].key
  {
    var i :| 0 <= i < |chain| && chain[i] == n;
    var j :| 0 <= j < |chain| && chain[j] == m;
    assert i < j ==> Below(heap, chain[i], chain[j]);
    assert j < i ==> Below(heap, chain[j], chain[i]);
  }

  lemma UnlinkKeys(heap: seq<Node>, pred: nat, curr: nat)
    requires Links(heap, pred, curr) && 2 <= curr < |heap| && heap[curr].bit
    ensures var heap' := LinkTo(heap, pred, heap[curr].next); Grows(heap, heap') && Keys(heap') == Keys(heap)
  {
  }

  lemma UnlinkReach(heap: seq<Node>, chain: seq<nat>, pred: nat, i: nat)
    requires AllChained(heap, chain) && i < |chain| - 1 && pred < |heap| && chain[i + 1] < |heap| && heap[chain[i + 1]].bit
    ensures AllChained(LinkTo(heap, pred, heap[chain[i + 1]].next), chain[..i + 1] + chain[i + 2..])
  {
    var heap', chain' := LinkTo(heap, pred, heap[chain[i + 1]].next), chain[..i + 1] + chain[i + 2..];
    forall n | 0 <= n < |heap'| && !heap'[n].bit
      ensures n in chain'
    {
      var j :| 0 <= j < |chain| && chain[j] == n;
      assert chain'[if j <= i then j else j - 1] == n;
    }
  }

  /** Unlinking a marked node: the set, the chain order and the reachability of unmarked
      nodes are kept. */
  lemma UnlinkKeeps(heap: seq<Node>, chain: seq<nat>, pred: nat, curr: nat)
    requires SentinelsOk(heap) && ChainOk(heap, chain) && AllChained(heap, chain)
    requires Links(heap, pred, curr) && 2 <= curr < |heap| && heap[curr].bit
    ensures var heap', chain' := LinkTo(heap, pred, heap[curr].next), Without(chain, curr);
      SentinelsOk(heap') && ChainOk(heap', chain') && AllChained(heap', chain') && Grows(heap, heap') && Keys(heap') == Keys(heap)
  {
    var i := LinkOnChain(heap, chain, pred, curr);
    WithoutAt(chain, i + 1);
    UnlinkHeap(heap, pred, curr);
    UnlinkKeys(heap, pred, curr);
    UnlinkChain(heap, chain, i);
    UnlinkReach(heap, chain, pred, i);
  }

  lemma InsertKeys(heap: seq<Node>, pred: nat, curr: nat, key: int)
    requires |heap| >= 2 && pred < |heap|
    ensures Keys(Inserted(heap, pred, curr, key)) == Keys(heap) + {key}
  {
    var heap' := Inserted(heap, pred, curr, key);
    assert forall n :: 0 <= n < |heap| ==> heap'[n].key == heap[n].key && heap'[n].bit == heap[n].bit;
    forall k | k in Keys(heap) + {key}
      ensures k in Keys(heap')
    {
      if k in Keys(heap) {
        var n :| 2 <= n < |heap| && !heap[n].bit && heap[n].key == k;
        assert !heap'[n].bit && heap'[n].key == k;
      } else {
        assert !heap'[|heap|].bit && heap'[|heap|].key == k;
      }
    }
  }

  /** A successful insertion adds exactly the key, and it was absent. */
  lemma InsertKeeps(heap: seq<Node>, chain: seq<nat>, pred: nat, curr: nat, key: int)
    requires SentinelsOk(heap) && ChainOk(heap, chain) && AllChained(heap, chain)
    requires Links(heap, pred, curr) && pred != TAIL && (pred == HEAD || heap[pred].key < key)
    requires curr < |heap| && INT_MIN <= key < heap[curr].key
    ensures var heap', chain' := Inserted(heap, pred, curr, key), InsertAfter(chain, pred, |heap|);
      SentinelsOk(heap') && ChainOk(heap', chain') && AllChained(heap', chain') && Grows(heap, heap') &&
      key !in Keys(heap) && Keys(heap') == Keys(heap) + {key}
  {
    var i := LinkOnChain(heap, chain, pred, curr);
    InsertAfterAt(chain, i, |heap|);
    InsertHeap(heap, pred, curr, key);
    InsertKeys(heap, pred, curr, key);
    InsertChain(heap, chain, i, key);
    InsertAbsent(heap, chain, pred, curr, key);
    InsertReach(heap, chain, i, curr, key);
  }

  lemma InsertAbsent(heap: seq<Node>, chain: seq<nat>, pred: nat, curr: nat, key: int)
    requires SentinelsOk(heap) && ChainOk(heap, chain) && AllChained(heap, chain) && Links(heap, pred, curr) && pred != TAIL
    requires (pred == HEAD || heap[pred].key < key) && curr < |heap| && key < heap[curr].key
    ensures key !in Keys(heap)
  {
    LinkIsGap(heap, chain, pred, curr);
  }

  lemma InsertReach(heap: seq<Node>, chain: seq<nat>, i: nat, curr: nat, key: int)
    requires AllChained(heap, chain) && i < |chain| && chain[i] < |heap|
    ensures AllChained(Inserted(heap, chain[i], curr, key), chain[..i + 1] + [|heap|] + chain[i + 1..])
  {
    var heap', chain' := Inserted(heap, chain[i], curr, key), chain[..i + 1] + [|heap|] + chain[i + 1..];
    forall n | 0 <= n < |heap'| && !heap'[n].bit
      ensures n in chain'
    {
      if n == |heap| {
        assert chain'[i + 1] == n;
      } else {
        var j :| 0 <= j < |chain| && chain[j] == n;
        assert chain'[if j <= i then j else j + 1] == n;
      }
    }
  }

  lemma MarkKeys(heap: seq<Node>, chain: seq<nat>, curr: nat)
    requires ChainOk(heap, chain) && AllChained(heap, chain) && 2 <= curr < |heap| && !heap[curr].bit
    ensures Keys(heap[curr := heap[curr].(bit := true)]) == Keys(heap) - {heap[curr].key}
  {
    var heap' := heap[curr := heap[curr].(bit := true)];
    forall k | k in Keys(heap')
      ensures k in Keys(heap) && k != heap[curr].key
    {
      var n :| 2 <= n < |heap'| && !heap'[n].bit && heap'[n].key == k;
      KeysDiffer(heap, chain, n, curr);
    }
    forall k | k in Keys(heap) && k != heap[curr].key
      ensures k in Keys(heap')
    {
      var n :| 2 <= n < |heap| && !heap[n].bit && heap[n].key == k;
      assert !heap'[n].bit && heap'[n].key == k;
    }
  }

  /** A successful marking removes exactly the key, and it was present. */
  lemma MarkKeeps(heap: seq<Node>, chain: seq<nat>, curr: nat)
    requires SentinelsOk(heap) && ChainOk(heap, chain) && AllChained(heap, chain)
    requires 2 <= curr < |heap| && !heap[curr].bit
    ensures var heap' := heap[curr := heap[curr].(bit := true)];
      SentinelsOk(heap') && ChainOk(heap', chain) && AllChained(heap', chain) && Grows(heap, heap') &&
      heap[curr].key in Keys(heap) && Keys(heap') == Keys(heap) - {heap[curr].key}
  {
    MarkKeys(heap, chain, curr);
    var heap' := heap[curr := heap[curr].(bit := true)];
    forall n | 0 <= n < |heap'|
      ensures NodeOk(heap', n)
    {
      assert NodeOk(heap, n);
    }
    forall i, j | 0 <= i < j < |chain|
      ensures Below(heap', chain[i], chain[j])
    {
      assert Below(heap, chain[i], chain[j]);
    }
  }

  // ---------------------------------------------------------------- threads

  /** What locate has established about a pair of nodes. */
  ghost predicate PairOk(sh: Shared, tr: Thread, pred: nat, curr: nat) {
    pred < |sh.heap| && curr < |sh.heap| && pred != TAIL && curr != HEAD &&
    (pred == HEAD || sh.heap[pred].key < tr.key) &&
    tr.inv <= tr.gap < |sh.hist.past| &&
    Gap(sh.heap, pred, curr, sh.hist.past[tr.gap])
  }

  predicate FrozenAt(heap: seq<Node>, curr: nat, succ: nat) {
    2 <= curr < |heap| && heap[curr].bit && heap[curr].next == succ
  }

  ghost predicate PcOk(sh: Shared, tr: Thread) {
    match tr.pc
    case Idle => true
    case Start => true
    case Look(pred, curr) => PairOk(sh, tr, pred, curr)
    case Help(pred, curr, succ) => PairOk(sh, tr, pred, curr) && FrozenAt(sh.heap, curr, succ)
    case Insert(pred, curr) => PairOk(sh, tr, pred, curr) && tr.kind == Add && tr.key < sh.heap[curr].key
    case Found(pred, curr) => PairOk(sh, tr, pred, curr) && tr.kind == Remove && tr.key == sh.heap[curr].key
    case Mark(pred, curr, succ) => PairOk(sh, tr, pred, curr) && tr.kind == Remove && tr.key == sh.heap[curr].key
    case Unlink(pred, curr, succ) => tr.kind == Remove && FrozenAt(sh.heap, curr, succ)
  }

  ghost predicate ThreadOk(sh: Shared, tr: Thread) {
    tr.pc.Idle? ||
    (tr.inv < |sh.hist.past| && Called(sh.hist, tr.id, tr.kind, tr.key, tr.inv) && INT_MIN <= tr.key < INT_MAX && (tr.kind == Add || tr.kind == Remove) && PcOk(sh, tr) &&
     if tr.pc.Unlink? then Claimed(sh.hist, tr.id, Remove, tr.key, tr.lin) && tr.inv <= tr.lin
     else Untouched(sh.hist, tr.id))
  }

  predicate Differ(t: Thread, u: Thread) {
    !t.pc.Idle? && !u.pc.Idle? ==> t.id != u.id
  }

  ghost predicate IdsOk(s: State) {
    forall t, u :: 0 <= t < |s.threads| && 0 <= u < |s.threads| && t != u ==> Differ(s.threads[t], s.threads[u])
  }

  ghost predicate Inv(s: State) {
    SharedOk(s.sh) && (forall t :: 0 <= t < |s.threads| ==> ThreadOk(s.sh, s.threads[t])) && IdsOk(s)
  }

  /** Another thread's step keeps what this one knows. */
  lemma StableThread(sh: Shared, sh': Shared, id: nat, u: Thread)
    requires SharedOk(sh) && Grows(sh.heap, sh'.heap) && Continues(sh.hist, sh'.hist, id)
    requires ThreadOk(sh, u) && (u.pc.Idle? || u.id != id)
    ensures ThreadOk(sh', u)
  {
    if !u.pc.Idle? {
      if u.pc.Unlink? {
        ClaimedKept(sh.hist, sh'.hist, id, u.id, Remove, u.key, u.lin);
      } else {
        UntouchedKept(sh.hist, sh'.hist, id, u.id);
      }
    }
  }

  // ---------------------------------------------------------------- one step

  /** A step keeps the shared state good, its own thread's knowledge, and other threads'. */
  ghost predicate StepOk(sh: Shared, sh': Shared, tr': Thread) {
    SharedOk(sh') && ThreadOk(sh', tr') && Grows(sh.heap, sh'.heap) && Continues(sh.hist, sh'.hist, tr'.id)
  }

  lemma InvokeOk(sh: Shared, tr: Thread, sh': Shared, tr': Thread)
    requires SharedOk(sh) && Invoke(sh, tr, sh', tr') && tr'.key < INT_MAX
    ensures StepOk(sh, sh', tr')
  {
    InvokedKeeps(sh.hist, tr'.kind, tr'.key);
  }

  lemma BeginOk(sh: Shared, tr: Thread, sh': Shared, tr': Thread)
    requires SharedOk(sh) && ThreadOk(sh, tr) && Begin(sh, tr, sh', tr')
    ensures StepOk(sh, sh', tr')
  {
    StutterKeeps(sh.hist, tr.id);
    assert NodeOk(sh.heap, HEAD);
    LinkIsGap(sh.heap, sh.chain, HEAD, sh.heap[HEAD].next);
  }

  lemma LookMarkedOk(sh: Shared, tr: Thread, sh': Shared, tr': Thread)
    requires SharedOk(sh) && ThreadOk(sh, tr) && LookMarked(sh, tr, sh', tr')
    ensures StepOk(sh, sh', tr')
  {
    StutterKeeps(sh.hist, tr.id);
  }

  lemma LookOnOk(sh: Shared, tr: Thread, sh': Shared, tr': Thread)
    requires SharedOk(sh) && ThreadOk(sh, tr) && LookOn(sh, tr, sh', tr')
    ensures StepOk(sh, sh', tr')
  {
    StutterKeeps(sh.hist, tr.id);
    assert NodeOk(sh.heap, tr.pc.curr);
    LinkIsGap(sh.heap, sh.chain, tr.pc.curr, sh.heap[tr.pc.curr].next);
  }

  /** An unmarked node with the key is in the set right now. */
  lemma LookHitOk(sh: Shared, tr: Thread, sh': Shared, tr': Thread)
    requires SharedOk(sh) && ThreadOk(sh, tr) && LookHit(sh, tr, sh', tr')
    ensures StepOk(sh, sh', tr')
  {
    StutterKeeps(sh.hist, tr.id);
    assert tr.key in Keys(sh.heap);
    if tr.kind == Add {
      ReturnedUnchanged(Stutter(sh.hist), tr.id, Add, tr.key, false, tr.inv, Now(sh.hist));
    }
  }

  /** A remove that finds a larger key answers for the moment when the gap was seen. */
  lemma LookMissOk(sh: Shared, tr: Thread, sh': Shared, tr': Thread)
    requires SharedOk(sh) && ThreadOk(sh, tr) && LookMiss(sh, tr, sh', tr')
    ensures StepOk(sh, sh', tr')
  {
    StutterKeeps(sh.hist, tr.id);
    if tr.kind == Remove {
      assert tr.key !in sh.hist.past[tr.gap];
      ReturnedUnchanged(Stutter(sh.hist), tr.id, Remove, tr.key, false, tr.inv, tr.gap);
    }
  }

  /** Unlinking leaves pred linked to succ with no key between them. */
  lemma UnlinkGap(heap: seq<Node>, chain: seq<nat>, pred: nat, curr: nat, succ: nat)
    requires SentinelsOk(heap) && ChainOk(heap, chain) && AllChained(heap, chain) && pred != TAIL
    requires Links(heap, pred, curr) && FrozenAt(heap, curr, succ)
    ensures var heap' := LinkTo(heap, pred, succ);
      succ != HEAD && succ < |heap'| && Gap(heap', pred, succ, Keys(heap'))
  {
    UnlinkKeeps(heap, chain, pred, curr);
    LinkIsGap(LinkTo(heap, pred, succ), Without(chain, curr), pred, succ);
  }

  lemma HelpCasOk(sh: Shared, tr: Thread, sh': Shared, tr': Thread)
    requires SharedOk(sh) && ThreadOk(sh, tr) && HelpCas(sh, tr, sh', tr')
    ensures StepOk(sh, sh', tr')
  {
    StutterKeeps(sh.hist, tr.id);
    UnlinkGap(sh.heap, sh.chain, tr.pc.pred, tr.pc.curr, tr.pc.succ);
    UnlinkShared(sh, tr, sh', sh'.hist);
  }

  lemma UnlinkShared(sh: Shared, tr: Thread, sh': Shared, h: History)
    requires SharedOk(sh) && (tr.pc.Help? || tr.pc.Unlink?)
    requires Links(sh.heap, tr.pc.pred, tr.pc.curr) && FrozenAt(sh.heap, tr.pc.curr, tr.pc.succ)
    requires sh' == Shared(LinkTo(sh.heap, tr.pc.pred, tr.pc.succ), Without(sh.chain, tr.pc.curr), h)
    requires Linearized(h) && h.past[|h.past| - 1] == Keys(sh.heap)
    ensures SharedOk(sh') && Grows(sh.heap, sh'.heap)
  {
    UnlinkKeeps(sh.heap, sh.chain, tr.pc.pred, tr.pc.curr);
  }

  lemma StutterShared(sh: Shared, sh': Shared, id: nat)
    requires SharedOk(sh) && sh' == sh.(hist := Stutter(sh.hist))
    ensures SharedOk(sh') && Grows(sh.heap, sh'.heap) && Continues(sh.hist, sh'.hist, id)
  {
    StutterKeeps(sh.hist, id);
  }

  lemma FailOk(sh: Shared, tr: Thread, sh': Shared, tr': Thread)
    requires SharedOk(sh) && ThreadOk(sh, tr) && !tr.pc.Idle? && !tr.pc.Unlink?
    requires sh' == sh.(hist := Stutter(sh.hist)) && tr' == tr.(pc := Start)
    ensures StepOk(sh, sh', tr')
  {
    StutterShared(sh, sh', tr.id);
  }

  lemma InsertCasOk(sh: Shared, tr: Thread, sh': Shared, tr': Thread)
    requires SharedOk(sh) && ThreadOk(sh, tr) && InsertCas(sh, tr, sh', tr')
    ensures StepOk(sh, sh', tr')
  {
    InsertKeeps(sh.heap, sh.chain, tr.pc.pred, tr.pc.curr, tr.key);
    InsertHistory(sh.hist, tr.id, tr.key, tr.inv, Keys(sh'.heap));
  }

  lemma InsertHistory(h: History, id: nat, key: int, inv: nat, keys': set<int>)
    requires Linearized(h) && Untouched(h, id) && inv < |h.past| && Called(h, id, Add, key, inv)
    requires key !in h.past[|h.past| - 1] && keys' == h.past[|h.past| - 1] + {key}
    ensures var h' := Returned(Changed(h, id, keys'), id, Add, key, true, inv, Now(h));
      Linearized(h') && Continues(h, h', id) && h'.past[|h'.past| - 1] == keys'
  {
    ChangedKeeps(h, id, Add, key, inv);
    ReturnedChanged(Changed(h, id, keys'), id, Add, key, inv, Now(h));
  }

  lemma FoundReadOk(sh: Shared, tr: Thread, sh': Shared, tr': Thread)
    requires SharedOk(sh) && ThreadOk(sh, tr) && FoundRead(sh, tr, sh', tr')
    ensures StepOk(sh, sh', tr')
  {
    StutterKeeps(sh.hist, tr.id);
  }

  lemma MarkCasOk(sh: Shared, tr: Thread, sh': Shared, tr': Thread)
    requires SharedOk(sh) && ThreadOk(sh, tr) && MarkCas(sh, tr, sh', tr')
    ensures StepOk(sh, sh', tr')
  {
    MarkKeeps(sh.heap, sh.chain, tr.pc.curr);
    MarkHistory(sh.hist, tr.id, tr.key, tr.inv, Keys(sh'.heap));
  }

  lemma MarkHistory(h: History, id: nat, key: int, inv: nat, keys': set<int>)
    requires Linearized(h) && Untouched(h, id) && inv < |h.past| && Called(h, id, Remove, key, inv)
    requires key in h.past[|h.past| - 1] && keys' == h.past[|h.past| - 1] - {key}
    ensures var h' := Changed(h, id, keys');
      Linearized(h') && Continues(h, h', id) && Claimed(h', id, Remove, key, Now(h))
  {
    ChangedKeeps(h, id, Remove, key, inv);
  }

  lemma UnlinkCasOk(sh: Shared, tr: Thread, sh': Shared, tr': Thread)
    requires SharedOk(sh) && ThreadOk(sh, tr) && UnlinkCas(sh, tr, sh', tr')
    ensures StepOk(sh, sh', tr')
  {
    StutterKeeps(sh.hist, tr.id);
    ClaimedStutter(sh.hist, tr.id, tr.key, tr.lin);
    ReturnedChanged(Stutter(sh.hist), tr.id, Remove, tr.key, tr.inv, tr.lin);
    if Links(sh.heap, tr.pc.pred, tr.pc.curr) {
      UnlinkShared(sh, tr, sh', sh'.hist);
    }
  }

  lemma ClaimedStutter(h: History, id: nat, key: int, lin: nat)
    requires Linearized(h) && Claimed(h, id, Remove, key, lin)
    ensures Claimed(Stutter(h), id, Remove, key, lin)
  {
  }

  lemma OwnStep(sh: Shared, tr: Thread, sh': Shared, tr': Thread)
    requires SharedOk(sh) && ThreadOk(sh, tr) && Step(sh, tr, sh', tr') && tr'.key < INT_MAX
    ensures StepOk(sh, sh', tr')
    ensures tr.pc.Idle? ==> tr'.id == |sh.hist.calls|
    ensures !tr.pc.Idle? ==> tr'.id == tr.id
  {
    if Invoke(sh, tr, sh', tr') {
      InvokeOk(sh, tr, sh', tr');
    } else if Begin(sh, tr, sh', tr') {
      BeginOk(sh, tr, sh', tr');
    } else if LookMarked(sh, tr, sh', tr') {
      LookMarkedOk(sh, tr, sh', tr');
    } else if LookOn(sh, tr, sh', tr') {
      LookOnOk(sh, tr, sh', tr');
    } else if LookHit(sh, tr, sh', tr') {
      LookHitOk(sh, tr, sh', tr');
    } else if LookMiss(sh, tr, sh', tr') {
      LookMissOk(sh, tr, sh', tr');
    } else if HelpCas(sh, tr, sh', tr') {
      HelpCasOk(sh, tr, sh', tr');
    } else if InsertCas(sh, tr, sh', tr') {
      InsertCasOk(sh, tr, sh', tr');
    } else if FoundRead(sh, tr, sh', tr') {
      FoundReadOk(sh, tr, sh', tr');
    } else if MarkCas(sh, tr, sh', tr') {
      MarkCasOk(sh, tr, sh', tr');
    } else if UnlinkCas(sh, tr, sh', tr') {
      UnlinkCasOk(sh, tr, sh', tr');
    } else {
      FailOk(sh, tr, sh', tr');
    }
  }

  // ---------------------------------------------------------------- all runs

  lemma IdBelow(sh: Shared, u: Thread)
    requires ThreadOk(sh, u) && !u.pc.Idle?
    ensures u.id < |sh.hist.calls|
  {
  }

  lemma OtherNext(sh: Shared, tr: Thread, sh': Shared, tr': Thread, u: Thread)
    requires SharedOk(sh) && StepOk(sh, sh', tr') && ThreadOk(sh, u) && Differ(tr, u)
    requires tr'.id == if tr.pc.Idle? then |sh.hist.calls| else tr.id
    ensures ThreadOk(sh', u) && Differ(tr', u) && Differ(u, tr')
  {
    if !u.pc.Idle? {
      IdBelow(sh, u);
    }
    StableThread(sh, sh', tr'.id, u);
  }

  lemma InvNext(keys: iset<int>, s: State, s': State)
    requires Inv(s) && Next(keys, s, s') && forall k :: k in keys ==> k < INT_MAX
    ensures Inv(s')
  {
    var t: nat, tr' :|
      t < |s.threads| && Step(s.sh, s.threads[t], s'.sh, tr') && tr'.key in keys && s'.threads == s.threads[t := tr'];
    StateNext(s, s', t, tr');
  }

  lemma StateNext(s: State, s': State, t: nat, tr': Thread)
    requires Inv(s) && t < |s.threads| && Step(s.sh, s.threads[t], s'.sh, tr') && tr'.key < INT_MAX
    requires s'.threads == s.threads[t := tr']
    ensures Inv(s')
  {
    OwnStep(s.sh, s.threads[t], s'.sh, tr');
    forall u | 0 <= u < |s.threads| && u != t
      ensures ThreadOk(s'.sh, s.threads[u]) && Differ(tr', s.threads[u]) && Differ(s.threads[u], tr')
    {
      assert Differ(s.threads[t], s.threads[u]);
      OtherNext(s.sh, s.threads[t], s'.sh, tr', s.threads[u]);
    }
  }

  lemma InvInit(s: State)
    requires Init(s)
    ensures Inv(s)
  {
    assert Keys(s.sh.heap) == {};
  }

  lemma {:induction false} InvRun(keys: iset<int>, run: seq<State>)
    requires Run(keys, run) && forall k :: k in keys ==> k < INT_MAX
    ensures Inv(run[|run| - 1])
    decreases |run|
  {
    if |run| == 1 {
      InvInit(run[0]);
    } else {
      var before := run[..|run| - 1];
      InvRun(keys, before);
      InvNext(keys, before[|before| - 1], run[|run| - 1]);
    }
  }

  lemma InvReachable(keys: iset<int>, s: State)
    requires Reachable(keys, s) && forall k :: k in keys ==> k < INT_MAX
    ensures Inv(s)
  {
    var run :| Run(keys, run) && run[|run| - 1] == s;
    InvRun(keys, run);
  }
}
