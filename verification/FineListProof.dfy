/** Every reachable state of the hand-over-hand list satisfies `Inv`, for keys below the tail's. */
module FineListProof {
  import opened SetHistory
  import opened SortedChain
  import opened FineList

  ghost predicate SharedOk(sh: Shared) {
    HeapOk(sh.heap) && ChainOk(sh.heap, sh.chain) &&
    Linearized(sh.hist) && sh.hist.past[|sh.hist.past| - 1] == Keys(sh.heap, sh.chain)
  }

  function Held(pc: Pc): set<nat> {
    match pc
    case Idle => {}
    case WantHead => {}
    case Hold(pred) => {pred}
    case Want(pred, _) => {pred}
    case Both(pred, curr) => {pred, curr}
    case DropCurr(pred, curr) => {pred, curr}
    case DropPred(pred) => {pred}
  }

  /** A held predecessor is reachable, unlinked from nothing, and below the key. */
  ghost predicate PredOk(sh: Shared, tr: Thread, pred: nat) {
    pred in sh.chain && pred < |sh.heap| && pred != TAIL && (pred == HEAD || sh.heap[pred].key < tr.key)
  }

  ghost predicate PcOk(sh: Shared, tr: Thread) {
    (forall n :: n in Held(tr.pc) ==> n < |sh.heap| && sh.heap[n].bit) &&
    match tr.pc
    case Idle => true
    case WantHead => true
    case Hold(pred) => PredOk(sh, tr, pred)
    case Want(pred, curr) => PredOk(sh, tr, pred) && sh.heap[pred].next == curr
    case Both(pred, curr) => PredOk(sh, tr, pred) && sh.heap[pred].next == curr && pred != curr
    case DropCurr(pred, curr) => pred != curr && pred in sh.chain && (curr in sh.chain || (tr.kind == Remove && tr.result))
    case DropPred(pred) => pred in sh.chain
  }

  predicate Finished(pc: Pc) { pc.DropCurr? || pc.DropPred? }

  /** The operation's answer is fixed and was right at time `lin`. */
  ghost predicate AnswerOk(h: History, tr: Thread) {
    if Changes(tr.kind, tr.result) then Claimed(h, tr.id, tr.kind, tr.key, tr.lin)
    else Untouched(h, tr.id) && tr.lin < |h.past| - 1 && Answers(tr.kind, tr.key, h.past[tr.lin], tr.result)
  }

  ghost predicate ThreadOk(sh: Shared, tr: Thread) {
    tr.pc.Idle? ||
    (tr.inv < |sh.hist.past| && Called(sh.hist, tr.id, tr.kind, tr.key, tr.inv) && INT_MIN <= tr.key < INT_MAX && PcOk(sh, tr) && tr.id < |sh.hist.calls| &&
     if Finished(tr.pc) then tr.inv <= tr.lin && AnswerOk(sh.hist, tr) else Untouched(sh.hist, tr.id))
  }

  /** No node is locked twice, and operations under way are different ones. */
  predicate Differ(t: Thread, u: Thread) {
    (!t.pc.Idle? && !u.pc.Idle? ==> t.id != u.id) && Held(t.pc) !! Held(u.pc)
  }

  ghost predicate PairsOk(s: State) {
    forall t, u :: 0 <= t < |s.threads| && 0 <= u < |s.threads| && t != u ==> Differ(s.threads[t], s.threads[u])
  }

  ghost predicate HeldBy(s: State, n: nat, t: nat) {
    t < |s.threads| && n in Held(s.threads[t].pc)
  }

  /** A locked node has a holder. */
  ghost predicate HoldersOk(s: State) {
    forall n :: 0 <= n < |s.sh.heap| && s.sh.heap[n].bit ==> exists t :: HeldBy(s, n, t)
  }

  ghost predicate Inv(s: State) {
    SharedOk(s.sh) && (forall t :: 0 <= t < |s.threads| ==> ThreadOk(s.sh, s.threads[t])) && PairsOk(s) && HoldersOk(s)
  }

  // ---------------------------------------------------------------- other threads' steps

  /** A step of a thread that holds `held` before and `held'` after leaves the nodes others
      hold as they are, and on the chain. */
  ghost predicate Guarantee(sh: Shared, sh': Shared, held: set<nat>, held': set<nat>) {
    |sh.heap| <= |sh'.heap| &&
    (forall n :: 0 <= n < |sh.heap| ==> sh'.heap[n].key == sh.heap[n].key) &&
    (forall n :: 0 <= n < |sh.heap| && n !in held ==> sh'.heap[n].next == sh.heap[n].next && (n in sh.chain ==> n in sh'.chain)) &&
    (forall n :: 0 <= n < |sh.heap| && n !in held && n !in held' ==> sh'.heap[n].bit == sh.heap[n].bit) &&
    (forall n :: n in held' && n !in held ==> n < |sh.heap| && !sh.heap[n].bit) &&
    (forall n :: n in held && n !in held' && n < |sh.heap| ==> !sh'.heap[n].bit) &&
    (forall n :: |sh.heap| <= n < |sh'.heap| ==> !sh'.heap[n].bit)
  }

  lemma StableThread(sh: Shared, sh': Shared, tr: Thread, tr': Thread, u: Thread)
    requires Guarantee(sh, sh', Held(tr.pc), Held(tr'.pc)) && Continues(sh.hist, sh'.hist, tr'.id)
    requires ThreadOk(sh, u) && Differ(tr, u)
    requires u.pc.Idle? || u.id != tr'.id
    ensures ThreadOk(sh', u) && (u.pc.Idle? || tr'.pc.Idle? || Held(tr'.pc) !! Held(u.pc))
  {
    if !u.pc.Idle? {
      forall n | n in Held(u.pc)
        ensures n !in Held(tr.pc) && n !in Held(tr'.pc) && n < |sh.heap|
      {
      }
      if Finished(u.pc) && Changes(u.kind, u.result) {
        ClaimedKept(sh.hist, sh'.hist, tr'.id, u.id, u.kind, u.key, u.lin);
      } else {
        UntouchedKept(sh.hist, sh'.hist, tr'.id, u.id);
      }
    }
  }

  // ---------------------------------------------------------------- the set and the chain

  lemma KeysSame(heap: seq<Node>, heap': seq<Node>, chain: seq<nat>)
    requires forall i :: 0 <= i < |chain| ==> chain[i] < |heap| && chain[i] < |heap'|
    requires forall n :: 0 <= n < |heap| && n < |heap'| ==> heap'[n].key == heap[n].key
    ensures Keys(heap', chain) == Keys(heap, chain)
  {
    forall k
      ensures k in Keys(heap', chain) <==> k in Keys(heap, chain)
    {
      if k in Keys(heap, chain) {
        var i :| 0 < i < |chain| - 1 && heap[chain[i]].key == k;
        assert heap'[chain[i]].key == k;
      }
      if k in Keys(heap', chain) {
        var i :| 0 < i < |chain| - 1 && heap'[chain[i]].key == k;
        assert heap[chain[i]].key == k;
      }
    }
  }

  /** Taking or dropping a lock changes neither links nor keys. */
  lemma LockKeeps(heap: seq<Node>, chain: seq<nat>, n: nat, locked: bool)
    requires HeapOk(heap) && ChainOk(heap, chain) && n < |heap|
    ensures var heap' := SetLock(heap, n, locked);
      HeapOk(heap') && ChainOk(heap', chain) && Keys(heap', chain) == Keys(heap, chain)
  {
    var heap' := SetLock(heap, n, locked);
    forall m | 0 <= m < |heap'|
      ensures NodeOk(heap', m)
    {
      assert NodeOk(heap, m);
    }
    forall i, j | 0 <= i < j < |chain|
      ensures Below(heap', chain[i], chain[j])
    {
      assert Below(heap, chain[i], chain[j]);
    }
    KeysSame(heap, heap', chain);
  }

  lemma PositionIsUnique(heap: seq<Node>, chain: seq<nat>, i: nat, j: nat, key: int)
    requires ChainOk(heap, chain) && 0 < j < |chain| - 1 && i < |chain| - 1
    requires (chain[i] == HEAD || heap[chain[i]].key < key) && key <= heap[chain[i + 1]].key
    ensures heap[chain[j]].key == key ==> j == i + 1
  {
    assert Below(heap, chain[0], chain[j]);
    if j < i {
      assert Below(heap, chain[j], chain[i]);
    } else if i + 1 < j {
      assert Below(heap, chain[0], chain[i + 1]) && Below(heap, chain[i + 1], chain[j]);
    }
  }

  /** A key at or below the first node at or above it is in the set exactly if it is that node's. */
  lemma PositionDecides(heap: seq<Node>, chain: seq<nat>, pred: nat, curr: nat, key: int)
    requires HeapOk(heap) && ChainOk(heap, chain) && pred in chain && pred < |heap| && heap[pred].next == curr
    requires pred != TAIL && (pred == HEAD || heap[pred].key < key) && curr < |heap| && key <= heap[curr].key && key < INT_MAX
    ensures key in Keys(heap, chain) <==> heap[curr].key == key
  {
    var i := LinkOnChain(heap, chain, pred, curr);
    if key in Keys(heap, chain) {
      var j :| 0 < j < |chain| - 1 && heap[chain[j]].key == key;
      PositionIsUnique(heap, chain, i, j, key);
    }
    if heap[curr].key == key {
      assert curr != TAIL;
      assert heap[chain[i + 1]].key in Keys(heap, chain);
    }
  }

  lemma InsertKeys(heap: seq<Node>, chain: seq<nat>, i: nat, key: int)
    requires ChainLinks(heap, chain) && i < |chain| - 1
    ensures var heap', chain' := Inserted(heap, chain[i], chain[i + 1], key), chain[..i + 1] + [|heap|] + chain[i + 1..];
      (forall j :: 0 <= j < |chain'| ==> chain'[j] < |heap'|) && Keys(heap', chain') == Keys(heap, chain) + {key}
  {
    var heap', chain' := Inserted(heap, chain[i], chain[i + 1], key), chain[..i + 1] + [|heap|] + chain[i + 1..];
    forall k | k in Keys(heap, chain) + {key}
      ensures k in Keys(heap', chain')
    {
      if k in Keys(heap, chain) {
        var j :| 0 < j < |chain| - 1 && heap[chain[j]].key == k;
        assert heap'[chain'[if j <= i then j else j + 1]].key == k;
      } else {
        assert heap'[chain'[i + 1]].key == k;
      }
    }
    forall k | k in Keys(heap', chain')
      ensures k in Keys(heap, chain) + {key}
    {
      var j :| 0 < j < |chain'| - 1 && heap'[chain'[j]].key == k;
      assert j == i + 1 || heap[chain[if j <= i then j else j - 1]].key == k;
    }
  }

  lemma RemoveKeys(heap: seq<Node>, chain: seq<nat>, i: nat)
    requires ChainOk(heap, chain) && i < |chain| - 2
    ensures var heap', chain' := LinkTo(heap, chain[i], chain[i + 2]), chain[..i + 1] + chain[i + 2..];
      (forall j :: 0 <= j < |chain'| ==> chain'[j] < |heap'|) &&
      Keys(heap', chain') == Keys(heap, chain) - {heap[chain[i + 1]].key}
  {
    var heap', chain' := LinkTo(heap, chain[i], chain[i + 2]), chain[..i + 1] + chain[i + 2..];
    forall k | k in Keys(heap', chain')
      ensures k in Keys(heap, chain) && k != heap[chain[i + 1]].key
    {
      var j :| 0 < j < |chain'| - 1 && heap'[chain'[j]].key == k;
      OthersKeyDiffers(heap, chain, i + 1, if j <= i then j else j + 1);
    }
    forall k | k in Keys(heap, chain) && k != heap[chain[i + 1]].key
      ensures k in Keys(heap', chain')
    {
      var j :| 0 < j < |chain| - 1 && heap[chain[j]].key == k;
      assert heap'[chain'[if j <= i then j else j - 1]].key == k;
    }
  }

  lemma OthersKeyDiffers(heap: seq<Node>, chain: seq<nat>, i: nat, j: nat)
    requires ChainOk(heap, chain) && 0 < i < |chain| - 1 && 0 < j < |chain| - 1 && i != j
    ensures heap[chain[j]].key in Keys(heap, chain) && heap[chain[j]].key != heap[chain[i]].key
  {
    assert Below(heap, chain[0], chain[if j < i then j else i]);
    assert Below(heap, chain[if j < i then j else i], chain[if j < i then i else j]);
  }

  // ---------------------------------------------------------------- one step

  /** A step keeps the shared state good, its own thread's knowledge, and other threads'. */
  ghost predicate StepOk(sh: Shared, tr: Thread, sh': Shared, tr': Thread) {
    SharedOk(sh') && ThreadOk(sh', tr') && Guarantee(sh, sh', Held(tr.pc), Held(tr'.pc)) && Continues(sh.hist, sh'.hist, tr'.id)
  }

  lemma InvokeOk(sh: Shared, tr: Thread, sh': Shared, tr': Thread)
    requires SharedOk(sh) && Invoke(sh, tr, sh', tr') && tr'.key < INT_MAX
    ensures StepOk(sh, tr, sh', tr')
  {
    InvokedKeeps(sh.hist, tr'.kind, tr'.key);
  }

  /** Taking or dropping one lock, with the set left alone. */
  lemma LockingOk(sh: Shared, sh': Shared, n: nat, locked: bool, held: set<nat>, held': set<nat>, id: nat)
    requires SharedOk(sh) && n < |sh.heap| && sh' == sh.(heap := SetLock(sh.heap, n, locked), hist := Stutter(sh.hist))
    requires if locked then n !in held && held' == held + {n} && !sh.heap[n].bit else n in held && held' == held - {n}
    ensures SharedOk(sh') && Guarantee(sh, sh', held, held') && Continues(sh.hist, sh'.hist, id)
  {
    StutterKeeps(sh.hist, id);
    LockKeeps(sh.heap, sh.chain, n, locked);
  }

  lemma StutterOk(sh: Shared, sh': Shared, held: set<nat>, id: nat)
    requires SharedOk(sh) && sh' == sh.(hist := Stutter(sh.hist))
    ensures SharedOk(sh') && Guarantee(sh, sh', held, held) && Continues(sh.hist, sh'.hist, id)
  {
    StutterKeeps(sh.hist, id);
  }

  lemma LockHeadOk(sh: Shared, tr: Thread, sh': Shared, tr': Thread)
    requires SharedOk(sh) && ThreadOk(sh, tr) && LockHead(sh, tr, sh', tr')
    ensures StepOk(sh, tr, sh', tr')
  {
    LockingOk(sh, sh', HEAD, true, {}, {HEAD}, tr.id);
    assert sh.chain[0] == HEAD;
  }

  lemma ReadLinkOk(sh: Shared, tr: Thread, sh': Shared, tr': Thread)
    requires SharedOk(sh) && ThreadOk(sh, tr) && ReadLink(sh, tr, sh', tr')
    ensures StepOk(sh, tr, sh', tr')
  {
    StutterOk(sh, sh', Held(tr.pc), tr.id);
  }

  lemma LockCurrOk(sh: Shared, tr: Thread, sh': Shared, tr': Thread)
    requires SharedOk(sh) && ThreadOk(sh, tr) && LockCurr(sh, tr, sh', tr')
    ensures StepOk(sh, tr, sh', tr')
  {
    LockingOk(sh, sh', tr.pc.curr, true, Held(tr.pc), Held(tr'.pc), tr.id);
  }

  lemma NextOnChain(heap: seq<Node>, chain: seq<nat>, pred: nat, curr: nat)
    requires HeapOk(heap) && ChainOk(heap, chain) && pred in chain && pred < |heap| && pred != TAIL && heap[pred].next == curr
    ensures curr in chain && curr != HEAD && curr < |heap|
  {
    var i := LinkOnChain(heap, chain, pred, curr);
    assert chain[i + 1] in chain;
    assert NodeOk(heap, pred);
  }

  lemma AdvanceOk(sh: Shared, tr: Thread, sh': Shared, tr': Thread)
    requires SharedOk(sh) && ThreadOk(sh, tr) && Advance(sh, tr, sh', tr')
    ensures StepOk(sh, tr, sh', tr')
  {
    LockingOk(sh, sh', tr.pc.pred, false, Held(tr.pc), Held(tr'.pc), tr.id);
    NextOnChain(sh.heap, sh.chain, tr.pc.pred, tr.pc.curr);
  }

  lemma DecideOk(sh: Shared, tr: Thread, sh': Shared, tr': Thread)
    requires SharedOk(sh) && ThreadOk(sh, tr) && Decide(sh, tr, sh', tr')
    ensures StepOk(sh, tr, sh', tr')
  {
    StutterOk(sh, sh', Held(tr.pc), tr.id);
    PositionDecides(sh.heap, sh.chain, tr.pc.pred, tr.pc.curr, tr.key);
    NextOnChain(sh.heap, sh.chain, tr.pc.pred, tr.pc.curr);
  }

  lemma InsertShared(sh: Shared, pred: nat, curr: nat, key: int)
    requires SharedOk(sh) && pred in sh.chain && pred < |sh.heap| && sh.heap[pred].next == curr
    requires pred != TAIL && (pred == HEAD || sh.heap[pred].key < key)
    requires curr < |sh.heap| && INT_MIN <= key < sh.heap[curr].key
    ensures var heap', chain' := Inserted(sh.heap, pred, curr, key), InsertAfter(sh.chain, pred, |sh.heap|);
      HeapOk(heap') && ChainOk(heap', chain') && key !in Keys(sh.heap, sh.chain) &&
      Keys(heap', chain') == Keys(sh.heap, sh.chain) + {key} && (forall n :: n in sh.chain ==> n in chain')
  {
    var i := LinkOnChain(sh.heap, sh.chain, pred, curr);
    InsertAfterAt(sh.chain, i, |sh.heap|);
    InsertHeap(sh.heap, pred, curr, key);
    InsertChain(sh.heap, sh.chain, i, key);
    InsertKeys(sh.heap, sh.chain, i, key);
    assert NodeOk(sh.heap, curr);
    PositionDecides(sh.heap, sh.chain, pred, curr, key);
  }

  /** A change of the set by a thread that keeps its locks. */
  lemma ChangedOk(sh: Shared, tr: Thread, sh': Shared, tr': Thread)
    requires SharedOk(sh) && ThreadOk(sh, tr) && tr.pc.Both? && tr.kind != Contains
    requires HeapOk(sh'.heap) && ChainOk(sh'.heap, sh'.chain)
    requires Answers(tr.kind, tr.key, Keys(sh.heap, sh.chain), true)
    requires Keys(sh'.heap, sh'.chain) == After(tr.kind, tr.key, Keys(sh.heap, sh.chain))
    requires sh'.hist == Changed(sh.hist, tr.id, Keys(sh'.heap, sh'.chain))
    requires tr' == tr.(pc := DropCurr(tr.pc.pred, tr.pc.curr), result := true, lin := Now(sh.hist))
    requires Guarantee(sh, sh', Held(tr.pc), Held(tr.pc)) && forall n :: n in Held(tr.pc) ==> sh'.heap[n].bit
    requires tr.pc.pred in sh'.chain && (tr.kind == Add ==> tr.pc.curr in sh'.chain)
    ensures StepOk(sh, tr, sh', tr')
  {
    ChangedKeeps(sh.hist, tr.id, tr.kind, tr.key, tr.inv);
  }

  lemma InsertNodeOk(sh: Shared, tr: Thread, sh': Shared, tr': Thread)
    requires SharedOk(sh) && ThreadOk(sh, tr) && InsertNode(sh, tr, sh', tr')
    ensures StepOk(sh, tr, sh', tr')
  {
    InsertShared(sh, tr.pc.pred, tr.pc.curr, tr.key);
    NextOnChain(sh.heap, sh.chain, tr.pc.pred, tr.pc.curr);
    ChangedOk(sh, tr, sh', tr');
  }

  lemma RemoveShared(sh: Shared, pred: nat, curr: nat)
    requires SharedOk(sh) && pred in sh.chain && pred < |sh.heap| && sh.heap[pred].next == curr && pred != TAIL
    requires curr < |sh.heap| && curr != TAIL
    ensures var heap', chain' := LinkTo(sh.heap, pred, sh.heap[curr].next), Without(sh.chain, curr);
      HeapOk(heap') && ChainOk(heap', chain') && sh.heap[curr].key in Keys(sh.heap, sh.chain) &&
      Keys(heap', chain') == Keys(sh.heap, sh.chain) - {sh.heap[curr].key} &&
      (forall n :: n in sh.chain && n != curr ==> n in chain')
  {
    var i := LinkOnChain(sh.heap, sh.chain, pred, curr);
    WithoutAt(sh.chain, i + 1);
    NextOnChain(sh.heap, sh.chain, pred, curr);
    UnlinkHeap(sh.heap, pred, curr);
    UnlinkChain(sh.heap, sh.chain, i);
    RemoveKeys(sh.heap, sh.chain, i);
    forall n | n in sh.chain && n != curr
      ensures n in Without(sh.chain, curr)
    {
      var j :| 0 <= j < |sh.chain| && sh.chain[j] == n;
      assert Without(sh.chain, curr)[if j <= i then j else j - 1] == n;
    }
    assert sh.heap[sh.chain[i + 1]].key in Keys(sh.heap, sh.chain);
  }

  lemma RemoveNodeOk(sh: Shared, tr: Thread, sh': Shared, tr': Thread)
    requires SharedOk(sh) && ThreadOk(sh, tr) && RemoveNode(sh, tr, sh', tr')
    ensures StepOk(sh, tr, sh', tr')
  {
    RemoveShared(sh, tr.pc.pred, tr.pc.curr);
    ChangedOk(sh, tr, sh', tr');
  }

  lemma AnswerStutters(h: History, tr: Thread)
    requires Linearized(h) && AnswerOk(h, tr)
    ensures AnswerOk(Stutter(h), tr)
  {
  }

  lemma UnlockCurrOk(sh: Shared, tr: Thread, sh': Shared, tr': Thread)
    requires SharedOk(sh) && ThreadOk(sh, tr) && UnlockCurr(sh, tr, sh', tr')
    ensures StepOk(sh, tr, sh', tr')
  {
    LockingOk(sh, sh', tr.pc.curr, false, Held(tr.pc), Held(tr'.pc), tr.id);
    AnswerStutters(sh.hist, tr);
  }

  lemma ReturnOk(h: History, tr: Thread)
    requires Linearized(h) && AnswerOk(h, tr) && tr.inv <= tr.lin && Called(h, tr.id, tr.kind, tr.key, tr.inv)
    ensures var h' := Returned(Stutter(h), tr.id, tr.kind, tr.key, tr.result, tr.inv, tr.lin);
      Linearized(h') && Continues(h, h', tr.id) && h'.past[|h'.past| - 1] == h.past[|h.past| - 1]
  {
    StutterKeeps(h, tr.id);
    AnswerStutters(h, tr);
    if Changes(tr.kind, tr.result) {
      ReturnedChanged(Stutter(h), tr.id, tr.kind, tr.key, tr.inv, tr.lin);
    } else {
      ReturnedUnchanged(Stutter(h), tr.id, tr.kind, tr.key, tr.result, tr.inv, tr.lin);
    }
  }

  lemma UnlockPredOk(sh: Shared, tr: Thread, sh': Shared, tr': Thread)
    requires SharedOk(sh) && ThreadOk(sh, tr) && UnlockPred(sh, tr, sh', tr')
    ensures StepOk(sh, tr, sh', tr')
  {
    LockKeeps(sh.heap, sh.chain, tr.pc.pred, false);
    ReturnOk(sh.hist, tr);
  }

  lemma OwnStep(sh: Shared, tr: Thread, sh': Shared, tr': Thread)
    requires SharedOk(sh) && ThreadOk(sh, tr) && tr'.key < INT_MAX
    requires Invoke(sh, tr, sh', tr') || Progress(sh, tr, sh', tr')
    ensures StepOk(sh, tr, sh', tr')
    ensures tr'.id == if tr.pc.Idle? then |sh.hist.calls| else tr.id
  {
    if Invoke(sh, tr, sh', tr') {
      InvokeOk(sh, tr, sh', tr');
    } else if LockHead(sh, tr, sh', tr') {
      LockHeadOk(sh, tr, sh', tr');
    } else if ReadLink(sh, tr, sh', tr') {
      ReadLinkOk(sh, tr, sh', tr');
    } else if LockCurr(sh, tr, sh', tr') {
      LockCurrOk(sh, tr, sh', tr');
    } else if Advance(sh, tr, sh', tr') {
      AdvanceOk(sh, tr, sh', tr');
    } else if Decide(sh, tr, sh', tr') {
      DecideOk(sh, tr, sh', tr');
    } else if InsertNode(sh, tr, sh', tr') {
      InsertNodeOk(sh, tr, sh', tr');
    } else if RemoveNode(sh, tr, sh', tr') {
      RemoveNodeOk(sh, tr, sh', tr');
    } else if UnlockCurr(sh, tr, sh', tr') {
      UnlockCurrOk(sh, tr, sh', tr');
    } else {
      UnlockPredOk(sh, tr, sh', tr');
    }
  }

  // ---------------------------------------------------------------- all runs

  lemma OtherNext(sh: Shared, tr: Thread, sh': Shared, tr': Thread, u: Thread)
    requires StepOk(sh, tr, sh', tr') && ThreadOk(sh, u) && Differ(tr, u)
    requires tr'.id == if tr.pc.Idle? then |sh.hist.calls| else tr.id
    ensures ThreadOk(sh', u) && Differ(tr', u) && Differ(u, tr')
  {
    StableThread(sh, sh', tr, tr', u);
  }

  /** Who holds a node: its lock is set exactly while someone does. */
  lemma HoldersNext(s: State, s': State, t: nat, tr': Thread)
    requires HoldersOk(s) && t < |s.threads| && s'.threads == s.threads[t := tr']
    requires Guarantee(s.sh, s'.sh, Held(s.threads[t].pc), Held(tr'.pc))
    ensures HoldersOk(s')
  {
    forall n | 0 <= n < |s'.sh.heap| && s'.sh.heap[n].bit
      ensures exists u :: HeldBy(s', n, u)
    {
      if n in Held(tr'.pc) {
        assert HeldBy(s', n, t);
      } else {
        assert n < |s.sh.heap| && n !in Held(s.threads[t].pc) && s.sh.heap[n].bit;
        var u :| HeldBy(s, n, u);
        assert HeldBy(s', n, u);
      }
    }
  }

  lemma StateNext(s: State, s': State, t: nat, tr': Thread)
    requires Inv(s) && ThreadStep(s, t, s'.sh, tr') && tr'.key < INT_MAX && s'.threads == s.threads[t := tr']
    ensures Inv(s')
  {
    OwnStep(s.sh, s.threads[t], s'.sh, tr');
    forall u | 0 <= u < |s.threads| && u != t
      ensures ThreadOk(s'.sh, s.threads[u]) && Differ(tr', s.threads[u]) && Differ(s.threads[u], tr')
    {
      assert Differ(s.threads[t], s.threads[u]);
      OtherNext(s.sh, s.threads[t], s'.sh, tr', s.threads[u]);
    }
    HoldersNext(s, s', t, tr');
  }

  lemma InvNext(keys: iset<int>, s: State, s': State)
    requires Inv(s) && Next(keys, s, s') && forall k :: k in keys ==> k < INT_MAX
    ensures Inv(s')
  {
    var t: nat, tr' :| ThreadStep(s, t, s'.sh, tr') && tr'.key in keys && s'.threads == s.threads[t := tr'];
    StateNext(s, s', t, tr');
  }

  lemma InvInit(s: State)
    requires Init(s)
    ensures Inv(s)
  {
    assert Keys(s.sh.heap, s.sh.chain) == {};
  }

  lemma {:induction false} InvRun(keys: iset<int>, run: seq<State>)
    requires Run(keys, run) && forall k :: k in keys ==> k < INT_MAX
    ensures Inv(run[|run| - 1])
    decreases |run|
  {
    if |run| == 1 {
      InvInit(run[0]);
    } else {
      var before := run[..|run| - 1];
      InvRun(keys, before);
      InvNext(keys, before[|before| - 1], run[|run| - 1]);
    }
  }

  lemma InvReachable(keys: iset<int>, s: State)
    requires Reachable(keys, s) && forall k :: k in keys ==> k < INT_MAX
    ensures Inv(s)
  {
    var run :| Run(keys, run) && run[|run| - 1] == s;
    InvRun(keys, run);
  }
}
