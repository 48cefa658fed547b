/**
  The hand-over-hand locked list (graphs/ordered_ll/fine_list.h) as a state machine: any
  number of threads run `add`, `remove` and `contains`, each step being one lock, one unlock
  or one access to a link. A node's `bit` is its mutex.
 */
module FineList {
  import opened SetHistory
  import opened SortedChain

  datatype Pc =
    | Idle
    | WantHead                                   // waits for the head's lock
    | Hold(pred: nat)                            // holds pred, reads its link
    | Want(pred: nat, curr: nat)                 // holds pred, waits for curr
    | Both(pred: nat, curr: nat)                 // holds pred and curr
    | DropCurr(pred: nat, curr: nat)             // done, unlocks curr
    | DropPred(pred: nat)                        // done, unlocks pred

  /** `result` is what the operation will return; `lin` records when it took effect. */
  datatype Thread = Thread(pc: Pc, kind: Kind, key: int, id: nat, inv: nat, result: bool, lin: nat)

  /** `chain` records the nodes reachable from the head; no step depends on it. */
  datatype Shared = Shared(heap: seq<Node>, chain: seq<nat>, hist: History)

  datatype State = State(sh: Shared, threads: seq<Thread>)

  function SetLock(heap: seq<Node>, n: nat, locked: bool): seq<Node>
    requires n < |heap|
  {
    heap[n := heap[n].(bit := locked)]
  }

  /** The keys of the nodes on the chain between the sentinels. */
  function Keys(heap: seq<Node>, chain: seq<nat>): set<int>
    requires forall i :: 0 <= i < |chain| ==> chain[i] < |heap|
  {
    set i | 0 < i < |chain| - 1 :: heap[chain[i]].key
  }

  predicate Ready(sh: Shared) {
    |sh.hist.past| > 0
  }

  // ---------------------------------------------------------------- steps

  predicate Invoke(sh: Shared, tr: Thread, sh': Shared, tr': Thread) {
    tr.pc.Idle? && Ready(sh) && INT_MIN <= tr'.key <= INT_MAX &&
    sh' == sh.(hist := Invoked(sh.hist, tr'.kind, tr'.key)) &&
    tr' == Thread(WantHead, tr'.kind, tr'.key, |sh.hist.calls|, Now(sh.hist), false, 0)
  }

  predicate LockHead(sh: Shared, tr: Thread, sh': Shared, tr': Thread) {
    tr.pc.WantHead? && Ready(sh) && |sh.heap| > 0 && !sh.heap[HEAD].bit &&
    sh' == sh.(heap := SetLock(sh.heap, HEAD, true), hist := Stutter(sh.hist)) &&
    tr' == tr.(pc := Hold(HEAD))
  }

  predicate ReadLink(sh: Shared, tr: Thread, sh': Shared, tr': Thread) {
    tr.pc.Hold? && Ready(sh) && tr.pc.pred < |sh.heap| &&
    sh' == sh.(hist := Stutter(sh.hist)) &&
    tr' == tr.(pc := Want(tr.pc.pred, sh.heap[tr.pc.pred].next))
  }

  predicate LockCurr(sh: Shared, tr: Thread, sh': Shared, tr': Thread) {
    tr.pc.Want? && Ready(sh) && tr.pc.curr < |sh.heap| && !sh.heap[tr.pc.curr].bit &&
    sh' == sh.(heap := SetLock(sh.heap, tr.pc.curr, true), hist := Stutter(sh.hist)) &&
    tr' == tr.(pc := Both(tr.pc.pred, tr.pc.curr))
  }

  /** curr's key is still below: let go of pred and move on. */
  predicate Advance(sh: Shared, tr: Thread, sh': Shared, tr': Thread) {
    tr.pc.Both? && Ready(sh) && tr.pc.pred < |sh.heap| && tr.pc.curr < |sh.heap| && sh.heap[tr.pc.curr].key < tr.key &&
    sh' == sh.(heap := SetLock(sh.heap, tr.pc.pred, false), hist := Stutter(sh.hist)) &&
    tr' == tr.(pc := Hold(tr.pc.curr))
  }

  predicate AtPosition(sh: Shared, tr: Thread) {
    tr.pc.Both? && Ready(sh) && tr.pc.pred < |sh.heap| && tr.pc.curr < |sh.heap| && tr.key <= sh.heap[tr.pc.curr].key
  }

  /** The operation answers without changing the list. */
  predicate Decide(sh: Shared, tr: Thread, sh': Shared, tr': Thread) {
    AtPosition(sh, tr) &&
    var present := sh.heap[tr.pc.curr].key == tr.key;
    (match tr.kind case Add => present case Remove => !present case Contains => true) &&
    sh' == sh.(hist := Stutter(sh.hist)) &&
    tr' == tr.(pc := DropCurr(tr.pc.pred, tr.pc.curr), result := tr.kind == Contains && present, lin := Now(sh.hist))
  }

  predicate InsertNode(sh: Shared, tr: Thread, sh': Shared, tr': Thread) {
    AtPosition(sh, tr) && tr.kind == Add && sh.heap[tr.pc.curr].key != tr.key &&
    (forall i :: 0 <= i < |sh'.chain| ==> sh'.chain[i] < |sh'.heap|) &&
    sh' == Shared(Inserted(sh.heap, tr.pc.pred, tr.pc.curr, tr.key), InsertAfter(sh.chain, tr.pc.pred, |sh.heap|),
      Changed(sh.hist, tr.id, Keys(sh'.heap, sh'.chain))) &&
    tr' == tr.(pc := DropCurr(tr.pc.pred, tr.pc.curr), result := true, lin := Now(sh.hist))
  }

  predicate RemoveNode(sh: Shared, tr: Thread, sh': Shared, tr': Thread) {
    AtPosition(sh, tr) && tr.kind == Remove && sh.heap[tr.pc.curr].key == tr.key &&
    (forall i :: 0 <= i < |sh'.chain| ==> sh'.chain[i] < |sh'.heap|) &&
    sh' == Shared(LinkTo(sh.heap, tr.pc.pred, sh.heap[tr.pc.curr].next), Without(sh.chain, tr.pc.curr),
      Changed(sh.hist, tr.id, Keys(sh'.heap, sh'.chain))) &&
    tr' == tr.(pc := DropCurr(tr.pc.pred, tr.pc.curr), result := true, lin := Now(sh.hist))
  }

  predicate UnlockCurr(sh: Shared, tr: Thread, sh': Shared, tr': Thread) {
    tr.pc.DropCurr? && Ready(sh) && tr.pc.curr < |sh.heap| &&
    sh' == sh.(heap := SetLock(sh.heap, tr.pc.curr, false), hist := Stutter(sh.hist)) &&
    tr' == tr.(pc := DropPred(tr.pc.pred))
  }

  /** The last unlock; the operation returns. */
  predicate UnlockPred(sh: Shared, tr: Thread, sh': Shared, tr': Thread) {
    tr.pc.DropPred? && Ready(sh) && tr.pc.pred < |sh.heap| &&
    sh' == sh.(heap := SetLock(sh.heap, tr.pc.pred, false),
      hist := Returned(Stutter(sh.hist), tr.id, tr.kind, tr.key, tr.result, tr.inv, tr.lin)) &&
    tr' == tr.(pc := Idle)
  }

  predicate Progress(sh: Shared, tr: Thread, sh': Shared, tr': Thread) {
    LockHead(sh, tr, sh', tr') || ReadLink(sh, tr, sh', tr') || LockCurr(sh, tr, sh', tr') || Advance(sh, tr, sh', tr') ||
    Decide(sh, tr, sh', tr') || InsertNode(sh, tr, sh', tr') || RemoveNode(sh, tr, sh', tr') ||
    UnlockCurr(sh, tr, sh', tr') || UnlockPred(sh, tr, sh', tr')
  }

  // ---------------------------------------------------------------- runs

  const EmptyList: Shared := Shared(SENTINELS, [HEAD, TAIL], SetHistory.EMPTY)

  ghost predicate Init(s: State) {
    s.sh == EmptyList && forall t :: 0 <= t < |s.threads| ==> s.threads[t].pc == Idle
  }

  predicate ThreadStep(s: State, t: nat, sh': Shared, tr': Thread) {
    t < |s.threads| && (Invoke(s.sh, s.threads[t], sh', tr') || Progress(s.sh, s.threads[t], sh', tr'))
  }

  /** A step in which every operation invoked has its key in `keys`. */
  ghost predicate Next(keys: iset<int>, s: State, s': State) {
    exists t: nat, tr' :: ThreadStep(s, t, s'.sh, tr') && tr'.key in keys && s'.threads == s.threads[t := tr']
  }

  ghost predicate Run(keys: iset<int>, run: seq<State>) {
    |run| > 0 && Init(run[0]) && forall i :: 0 <= i < |run| - 1 ==> Next(keys, run[i], run[i + 1])
  }

  ghost predicate Reachable(keys: iset<int>, s: State) {
    exists run :: Run(keys, run) && run[|run| - 1] == s
  }
}
