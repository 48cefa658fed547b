/**
  The lock-free ordered list (graphs/ordered_ll/lockfree_list.h) as a state machine: any
  number of threads run `add` and `remove`, each step being one atomic access to a node's
  marked link. A node's `bit` is its mark; link and mark share one atomic word.
 */
module LockFreeList {
  import opened SetHistory
  import opened SortedChain

  datatype Pc =
    | Idle
    | Start                                    // locate begins from the head
    | Look(pred: nat, curr: nat)               // locate reads curr's link
    | Help(pred: nat, curr: nat, succ: nat)    // locate unlinks a marked curr
    | Insert(pred: nat, curr: nat)             // add: CAS on pred's link
    | Found(pred: nat, curr: nat)              // remove: reads curr's link
    | Mark(pred: nat, curr: nat, succ: nat)    // remove: CAS that marks curr
    | Unlink(pred: nat, curr: nat, succ: nat)  // remove: best-effort unlinking

  /** `gap` is a time at which an unmarked `pred` linked to `curr`; `lin` is when a remove
      marked its node. Both record what happened; no step depends on them. */
  datatype Thread = Thread(pc: Pc, kind: Kind, key: int, id: nat, inv: nat, gap: nat, lin: nat)

  /** `chain` records the nodes reachable from the head; no step depends on it. */
  datatype Shared = Shared(heap: seq<Node>, chain: seq<nat>, hist: History)

  datatype State = State(sh: Shared, threads: seq<Thread>)

  /** The keys of unmarked nodes between the sentinels. */
  function Keys(heap: seq<Node>): set<int> {
    set n | 2 <= n < |heap| && !heap[n].bit :: heap[n].key
  }

  /** The link of n is (next, unmarked): what the compare-and-set calls test. */
  predicate Links(heap: seq<Node>, n: nat, next: nat) {
    n < |heap| && heap[n].next == next && !heap[n].bit
  }

  // ---------------------------------------------------------------- steps

  predicate Ready(sh: Shared) {
    |sh.hist.past| > 0
  }

  predicate Invoke(sh: Shared, tr: Thread, sh': Shared, tr': Thread) {
    tr.pc.Idle? && Ready(sh) && (tr'.kind == Add || tr'.kind == Remove) && INT_MIN <= tr'.key <= INT_MAX &&
    sh' == sh.(hist := Invoked(sh.hist, tr'.kind, tr'.key)) &&
    tr' == Thread(Start, tr'.kind, tr'.key, |sh.hist.calls|, Now(sh.hist), 0, 0)
  }

  predicate Begin(sh: Shared, tr: Thread, sh': Shared, tr': Thread) {
    tr.pc.Start? && Ready(sh) && |sh.heap| > 0 &&
    sh' == sh.(hist := Stutter(sh.hist)) &&
    tr' == tr.(pc := Look(HEAD, sh.heap[HEAD].next), gap := Now(sh.hist))
  }

  predicate LookMarked(sh: Shared, tr: Thread, sh': Shared, tr': Thread) {
    tr.pc.Look? && Ready(sh) && tr.pc.curr < |sh.heap| && sh.heap[tr.pc.curr].bit &&
    sh' == sh.(hist := Stutter(sh.hist)) &&
    tr' == tr.(pc := Help(tr.pc.pred, tr.pc.curr, sh.heap[tr.pc.curr].next))
  }

  predicate LookOn(sh: Shared, tr: Thread, sh': Shared, tr': Thread) {
    tr.pc.Look? && Ready(sh) && tr.pc.curr < |sh.heap| && !sh.heap[tr.pc.curr].bit && sh.heap[tr.pc.curr].key < tr.key &&
    sh' == sh.(hist := Stutter(sh.hist)) &&
    tr' == tr.(pc := Look(tr.pc.curr, sh.heap[tr.pc.curr].next), gap := Now(sh.hist))
  }

  /** locate returns a node with the key itself: add fails, remove goes on. */
  predicate LookHit(sh: Shared, tr: Thread, sh': Shared, tr': Thread) {
    tr.pc.Look? && Ready(sh) && tr.pc.curr < |sh.heap| && !sh.heap[tr.pc.curr].bit && sh.heap[tr.pc.curr].key == tr.key &&
    var h := Stutter(sh.hist);
    if tr.kind == Add then
      sh' == sh.(hist := Returned(h, tr.id, Add, tr.key, false, tr.inv, Now(sh.hist))) && tr' == tr.(pc := Idle)
    else
      sh' == sh.(hist := h) && tr' == tr.(pc := Found(tr.pc.pred, tr.pc.curr))
  }

  /** locate returns a node with a larger key: remove fails, add goes on. */
  predicate LookMiss(sh: Shared, tr: Thread, sh': Shared, tr': Thread) {
    tr.pc.Look? && Ready(sh) && tr.pc.curr < |sh.heap| && !sh.heap[tr.pc.curr].bit && sh.heap[tr.pc.curr].key > tr.key &&
    var h := Stutter(sh.hist);
    if tr.kind == Add then
      sh' == sh.(hist := h) && tr' == tr.(pc := Insert(tr.pc.pred, tr.pc.curr))
    else
      sh' == sh.(hist := Returned(h, tr.id, Remove, tr.key, false, tr.inv, tr.gap)) && tr' == tr.(pc := Idle)
  }

  predicate HelpCas(sh: Shared, tr: Thread, sh': Shared, tr': Thread) {
    tr.pc.Help? && Ready(sh) && Links(sh.heap, tr.pc.pred, tr.pc.curr) &&
    sh' == Shared(LinkTo(sh.heap, tr.pc.pred, tr.pc.succ), Without(sh.chain, tr.pc.curr), Stutter(sh.hist)) &&
    tr' == tr.(pc := Look(tr.pc.pred, tr.pc.succ), gap := Now(sh.hist) + 1)
  }

  predicate HelpFail(sh: Shared, tr: Thread, sh': Shared, tr': Thread) {
    tr.pc.Help? && Ready(sh) && !Links(sh.heap, tr.pc.pred, tr.pc.curr) &&
    sh' == sh.(hist := Stutter(sh.hist)) && tr' == tr.(pc := Start)
  }

  /** The node is allocated, and becomes visible, with the successful compare-and-set. */
  predicate InsertCas(sh: Shared, tr: Thread, sh': Shared, tr': Thread) {
    tr.pc.Insert? && Ready(sh) && Links(sh.heap, tr.pc.pred, tr.pc.curr) &&
    var heap := Inserted(sh.heap, tr.pc.pred, tr.pc.curr, tr.key);
    sh' == Shared(heap, InsertAfter(sh.chain, tr.pc.pred, |sh.heap|),
      Returned(Changed(sh.hist, tr.id, Keys(heap)), tr.id, Add, tr.key, true, tr.inv, Now(sh.hist))) &&
    tr' == tr.(pc := Idle)
  }

  predicate InsertFail(sh: Shared, tr: Thread, sh': Shared, tr': Thread) {
    tr.pc.Insert? && Ready(sh) && !Links(sh.heap, tr.pc.pred, tr.pc.curr) &&
    sh' == sh.(hist := Stutter(sh.hist)) && tr' == tr.(pc := Start)
  }

  predicate FoundRead(sh: Shared, tr: Thread, sh': Shared, tr': Thread) {
    tr.pc.Found? && Ready(sh) && tr.pc.curr < |sh.heap| &&
    sh' == sh.(hist := Stutter(sh.hist)) &&
    tr' == tr.(pc := if sh.heap[tr.pc.curr].bit then Start else Mark(tr.pc.pred, tr.pc.curr, sh.heap[tr.pc.curr].next))
  }

  predicate MarkCas(sh: Shared, tr: Thread, sh': Shared, tr': Thread) {
    tr.pc.Mark? && Ready(sh) && Links(sh.heap, tr.pc.curr, tr.pc.succ) &&
    var heap := sh.heap[tr.pc.curr := sh.heap[tr.pc.curr].(bit := true)];
    sh' == sh.(heap := heap, hist := Changed(sh.hist, tr.id, Keys(heap))) &&
    tr' == tr.(pc := Unlink(tr.pc.pred, tr.pc.curr, tr.pc.succ), lin := Now(sh.hist))
  }

  predicate MarkFail(sh: Shared, tr: Thread, sh': Shared, tr': Thread) {
    tr.pc.Mark? && Ready(sh) && !Links(sh.heap, tr.pc.curr, tr.pc.succ) &&
    sh' == sh.(hist := Stutter(sh.hist)) && tr' == tr.(pc := Start)
  }

  /** The result of the unlinking compare-and-set is ignored. */
  predicate UnlinkCas(sh: Shared, tr: Thread, sh': Shared, tr': Thread) {
    tr.pc.Unlink? && Ready(sh) &&
    var h := Returned(Stutter(sh.hist), tr.id, Remove, tr.key, true, tr.inv, tr.lin);
    tr' == tr.(pc := Idle) &&
    if Links(sh.heap, tr.pc.pred, tr.pc.curr) then
      sh' == Shared(LinkTo(sh.heap, tr.pc.pred, tr.pc.succ), Without(sh.chain, tr.pc.curr), h)
    else
      sh' == sh.(hist := h)
  }

  predicate Step(sh: Shared, tr: Thread, sh': Shared, tr': Thread) {
    Invoke(sh, tr, sh', tr') || Begin(sh, tr, sh', tr') || LookMarked(sh, tr, sh', tr') || LookOn(sh, tr, sh', tr') ||
    LookHit(sh, tr, sh', tr') || LookMiss(sh, tr, sh', tr') || HelpCas(sh, tr, sh', tr') || HelpFail(sh, tr, sh', tr') ||
    InsertCas(sh, tr, sh', tr') || InsertFail(sh, tr, sh', tr') || FoundRead(sh, tr, sh', tr') ||
    MarkCas(sh, tr, sh', tr') || MarkFail(sh, tr, sh', tr') || UnlinkCas(sh, tr, sh', tr')
  }

  // ---------------------------------------------------------------- runs

  const EmptyList: Shared := Shared(SENTINELS, [HEAD, TAIL], SetHistory.EMPTY)

  ghost predicate Init(s: State) {
    s.sh == EmptyList && forall t :: 0 <= t < |s.threads| ==> s.threads[t].pc == Idle
  }

  /** A step in which every operation invoked has its key in `keys`. */
  ghost predicate Next(keys: iset<int>, s: State, s': State) {
    exists t: nat, tr' ::
      t < |s.threads| && Step(s.sh, s.threads[t], s'.sh, tr') && tr'.key in keys && s'.threads == s.threads[t := tr']
  }

  ghost predicate Run(keys: iset<int>, run: seq<State>) {
    |run| > 0 && Init(run[0]) && forall i :: 0 <= i < |run| - 1 ==> Next(keys, run[i], run[i + 1])
  }

  ghost predicate Reachable(keys: iset<int>, s: State) {
    exists run :: Run(keys, run) && run[|run| - 1] == s
  }
}
