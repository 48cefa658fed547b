/**
  The lock-free list is lock-free: no thread ever waits, once no more operations are called
  every step of any thread uses up some of a number fixed by the state, and in the end every
  call has its answer.
 */
module LockFreeListProgress {
  import opened Measures
  import opened SetHistory
  import opened SortedChain
  import opened LockFreeList
  import opened LockFreeListProof

  /** A step of an operation under way. */
  predicate StepOf(s: State, t: nat, sh': Shared, tr': Thread) {
    t < |s.threads| && !s.threads[t].pc.Idle? && Step(s.sh, s.threads[t], sh', tr')
  }

  /** A step by which no operation is called. */
  ghost predicate Quiet(s: State, s': State) {
    exists t: nat, tr' :: StepOf(s, t, s'.sh, tr') && s'.threads == s.threads[t := tr']
  }

  ghost predicate QuietRun(run: seq<State>) {
    |run| > 0 && forall i :: 0 <= i < |run| - 1 ==> QuietAt(run, i)
  }

  ghost predicate QuietAt(run: seq<State>, i: nat)
    requires i < |run| - 1
  {
    Quiet(run[i], run[i + 1])
  }

  // ---------------------------------------------------------------- answers

  /** An operation's record is added by the step that returns, and by no other. */
  predicate ReturnsOnce(sh: Shared, tr: Thread, sh': Shared, tr': Thread) {
    sh'.hist.calls == sh.hist.calls && tr'.id == tr.id && tr'.kind == tr.kind && tr'.key == tr.key && tr'.inv == tr.inv &&
    if tr'.pc.Idle? then Adds(sh.hist, sh'.hist, tr.id, tr.kind, tr.key, tr.inv) else sh'.hist.ops == sh.hist.ops
  }

  lemma StepAnswers(sh: Shared, tr: Thread, sh': Shared, tr': Thread)
    requires !tr.pc.Idle? && Step(sh, tr, sh', tr') && (tr.pc.Insert? ==> tr.kind == Add) && (tr.pc.Unlink? ==> tr.kind == Remove)
    requires tr.kind == Add || tr.kind == Remove
    ensures ReturnsOnce(sh, tr, sh', tr')
  {
  }

  // ---------------------------------------------------------------- steps left

  /** More than the steps of one search. */
  const AROUND: nat := INT_MAX - INT_MIN + 6

  /** What the thread has seen is still so: its compare-and-set would succeed. */
  predicate Fresh(heap: seq<Node>, pc: Pc) {
    match pc
    case Look(pred, curr) => Links(heap, pred, curr)
    case Help(pred, curr, _) => Links(heap, pred, curr)
    case Insert(pred, curr) => Links(heap, pred, curr)
    case Found(_, curr) => curr < |heap| && !heap[curr].bit
    case Mark(_, curr, succ) => Links(heap, curr, succ)
    case _ => true
  }

  /** Steps to the next change of the heap, or to the return, if nothing has to be repeated. */
  function Ahead(heap: seq<Node>, pc: Pc): nat {
    match pc
    case Start => AROUND
    case Look(_, curr) => 4 + ToTail(heap, curr)
    case Help(_, _, _) => 1
    case Insert(_, _) => 1
    case Found(_, _) => 2
    case Mark(_, _, _) => 1
    case _ => 0
  }

  /** A thread that has seen what is so no more has to search once again. */
  function StepsLeft(heap: seq<Node>, pc: Pc): nat {
    Ahead(heap, pc) + if Fresh(heap, pc) then 0 else AROUND
  }

  /** What an operation has yet to do: to take effect, and to return. */
  function Due(pc: Pc): nat {
    match pc
    case Idle => 0
    case Unlink(_, _, _) => 1
    case _ => 2
  }

  /** A step comes nearer to an effect, a return or the removal of a marked node, or the heap is
      as it was and the thread has fewer steps left. */
  predicate Nearer(sh: Shared, pc: Pc, sh': Shared, pc': Pc) {
    Due(pc') + |sh'.chain| < Due(pc) + |sh.chain| ||
    (Due(pc') == Due(pc) && sh'.chain == sh.chain && sh'.heap == sh.heap && StepsLeft(sh.heap, pc') < StepsLeft(sh.heap, pc))
  }

  lemma {:induction false} WithoutShorter(chain: seq<nat>, n: nat)
    ensures |Without(chain, n)| == |chain| - if n in chain then 1 else 0
  {
    if chain != [] && chain[0] != n {
      WithoutShorter(chain[1..], n);
    }
  }

  lemma {:induction false} InsertAfterLonger(chain: seq<nat>, n: nat, m: nat)
    ensures |InsertAfter(chain, n, m)| <= |chain| + 1
  {
    if chain != [] && chain[0] != n {
      InsertAfterLonger(chain[1..], n, m);
    }
  }

  /** The steps that change the heap. */
  lemma ChangeNearer(sh: Shared, tr: Thread, sh': Shared, tr': Thread)
    requires SharedOk(sh) && ThreadOk(sh, tr)
    requires HelpCas(sh, tr, sh', tr') || InsertCas(sh, tr, sh', tr') || MarkCas(sh, tr, sh', tr') || UnlinkCas(sh, tr, sh', tr')
    ensures Nearer(sh, tr.pc, sh', tr'.pc)
  {
    if HelpCas(sh, tr, sh', tr') {
      var i := LinkOnChain(sh.heap, sh.chain, tr.pc.pred, tr.pc.curr);
      assert sh.chain[i + 1] in sh.chain;
      WithoutShorter(sh.chain, tr.pc.curr);
    } else if InsertCas(sh, tr, sh', tr') {
      InsertAfterLonger(sh.chain, tr.pc.pred, |sh.heap|);
    } else if UnlinkCas(sh, tr, sh', tr') {
      WithoutShorter(sh.chain, tr.pc.curr);
    }
  }

  lemma LookNearer(sh: Shared, tr: Thread, sh': Shared, tr': Thread)
    requires SharedOk(sh) && ThreadOk(sh, tr)
    requires Begin(sh, tr, sh', tr') || LookMarked(sh, tr, sh', tr') || LookOn(sh, tr, sh', tr') || LookHit(sh, tr, sh', tr') || LookMiss(sh, tr, sh', tr')
    ensures Nearer(sh, tr.pc, sh', tr'.pc)
  {
    assert NodeOk(sh.heap, HEAD);
    if tr.pc.Look? {
      assert NodeOk(sh.heap, tr.pc.curr);
      assert NodeOk(sh.heap, sh.heap[tr.pc.curr].next);
    } else {
      assert NodeOk(sh.heap, sh.heap[HEAD].next);
    }
  }

  lemma StepNearer(sh: Shared, tr: Thread, sh': Shared, tr': Thread)
    requires SharedOk(sh) && ThreadOk(sh, tr) && !tr.pc.Idle? && Step(sh, tr, sh', tr')
    ensures Nearer(sh, tr.pc, sh', tr'.pc)
  {
    if HelpCas(sh, tr, sh', tr') || InsertCas(sh, tr, sh', tr') || MarkCas(sh, tr, sh', tr') || UnlinkCas(sh, tr, sh', tr') {
      ChangeNearer(sh, tr, sh', tr');
    } else if tr.pc.Start? || tr.pc.Look? {
      LookNearer(sh, tr, sh', tr');
    }
  }

  // ---------------------------------------------------------------- all threads

  function Dues(threads: seq<Thread>): seq<nat> {
    seq(|threads|, i requires 0 <= i < |threads| => Due(threads[i].pc))
  }

  function AllLeft(heap: seq<Node>, threads: seq<Thread>): seq<nat> {
    seq(|threads|, i requires 0 <= i < |threads| => StepsLeft(heap, threads[i].pc))
  }

  /** A bound on all the steps that can still be taken without a call. */
  function Potential(s: State): nat {
    Combined(Sum(Dues(s.threads)) + |s.sh.chain|, Sum(AllLeft(s.sh.heap, s.threads)), |s.threads| * (2 * AROUND))
  }

  lemma LeftBound(heap: seq<Node>, threads: seq<Thread>)
    ensures Sum(AllLeft(heap, threads)) <= |threads| * (2 * AROUND)
  {
    SumBound(AllLeft(heap, threads), 2 * AROUND);
  }

  lemma StepLowers(s: State, s': State, t: nat, tr': Thread)
    requires t < |s.threads| && s'.threads == s.threads[t := tr'] && Nearer(s.sh, s.threads[t].pc, s'.sh, tr'.pc)
    ensures Potential(s') < Potential(s)
  {
    assert Dues(s'.threads) == Dues(s.threads)[t := Due(tr'.pc)];
    SumUpdate(Dues(s.threads), t, Due(tr'.pc));
    LeftBound(s'.sh.heap, s'.threads);
    if s'.sh.heap == s.sh.heap {
      assert AllLeft(s.sh.heap, s'.threads) == AllLeft(s.sh.heap, s.threads)[t := StepsLeft(s.sh.heap, tr'.pc)];
      SumUpdate(AllLeft(s.sh.heap, s.threads), t, StepsLeft(s.sh.heap, tr'.pc));
    }
    CombinedFalls(Sum(Dues(s.threads)) + |s.sh.chain|, Sum(AllLeft(s.sh.heap, s.threads)),
      Sum(Dues(s'.threads)) + |s'.sh.chain|, Sum(AllLeft(s'.sh.heap, s'.threads)), |s.threads| * (2 * AROUND));
  }

  /** Every step of every thread lowers the bound. */
  lemma QuietLowers(s: State, s': State, t: nat, tr': Thread)
    requires Inv(s) && StepOf(s, t, s'.sh, tr') && s'.threads == s.threads[t := tr']
    ensures Inv(s') && Potential(s') < Potential(s) && ReturnsOnce(s.sh, s.threads[t], s'.sh, tr')
  {
    assert ThreadOk(s.sh, s.threads[t]);
    StepAnswers(s.sh, s.threads[t], s'.sh, tr');
    StateNext(s, s', t, tr');
    StepNearer(s.sh, s.threads[t], s'.sh, tr');
    StepLowers(s, s', t, tr');
  }

  lemma QuietPrefix(run: seq<State>)
    requires QuietRun(run) && |run| > 1
    ensures QuietRun(run[..|run| - 1]) && Quiet(run[|run| - 2], run[|run| - 1])
  {
    var before := run[..|run| - 1];
    assert QuietAt(run, |run| - 2);
    forall i | 0 <= i < |before| - 1
      ensures QuietAt(before, i)
    {
      assert QuietAt(run, i);
    }
  }

  lemma {:induction false} QuietRunLowers(run: seq<State>)
    requires QuietRun(run) && Inv(run[0]) && Accounted(run[0])
    ensures var s := run[|run| - 1];
      Inv(s) && Accounted(s) && s.sh.hist.calls == run[0].sh.hist.calls && Potential(s) + |run| - 1 <= Potential(run[0])
    decreases |run|
  {
    if |run| > 1 {
      var before := run[..|run| - 1];
      QuietPrefix(run);
      QuietRunLowers(before);
      QuietNext(before[|before| - 1], run[|run| - 1]);
    }
  }

  lemma QuietNext(s: State, s': State)
    requires Quiet(s, s') && Inv(s) && Accounted(s)
    ensures Inv(s') && Accounted(s') && s'.sh.hist.calls == s.sh.hist.calls && Potential(s') < Potential(s)
  {
    var t: nat, tr' :| StepOf(s, t, s'.sh, tr') && s'.threads == s.threads[t := tr'];
    QuietLowers(s, s', t, tr');
    StepAccounts(s, s', t, tr');
  }

  // ---------------------------------------------------------------- no waiting

  /** Whatever the others have done, an operation under way has a step to take. */
  lemma NeverWaits(s: State, t: nat) returns (s': State)
    requires Inv(s) && t < |s.threads| && !s.threads[t].pc.Idle?
    ensures exists tr' :: StepOf(s, t, s'.sh, tr') && s'.threads == s.threads[t := tr']
  {
    var sh, tr := s.sh, s.threads[t];
    assert ThreadOk(sh, tr);
    var sh', tr' := NextOf(sh, tr);
    s' := State(sh', s.threads[t := tr']);
    assert StepOf(s, t, s'.sh, tr');
  }

  lemma NextOf(sh: Shared, tr: Thread) returns (sh': Shared, tr': Thread)
    requires SharedOk(sh) && ThreadOk(sh, tr) && !tr.pc.Idle?
    ensures Step(sh, tr, sh', tr')
  {
    var h := Stutter(sh.hist);
    sh', tr' := sh.(hist := h), tr.(pc := Start);
    match tr.pc
    case Start =>
      tr' := tr.(pc := Look(HEAD, sh.heap[HEAD].next), gap := Now(sh.hist));
      assert Begin(sh, tr, sh', tr');
    case Look(pred, curr) =>
      sh', tr' := NextLook(sh, tr);
    case Help(pred, curr, succ) =>
      if Links(sh.heap, pred, curr) {
        sh' := Shared(LinkTo(sh.heap, pred, succ), Without(sh.chain, curr), h);
        tr' := tr.(pc := Look(pred, succ), gap := Now(sh.hist) + 1);
        assert HelpCas(sh, tr, sh', tr');
      } else {
        assert HelpFail(sh, tr, sh', tr');
      }
    case Insert(pred, curr) =>
      if Links(sh.heap, pred, curr) {
        var heap := Inserted(sh.heap, pred, curr, tr.key);
        sh' := Shared(heap, InsertAfter(sh.chain, pred, |sh.heap|),
          Returned(Changed(sh.hist, tr.id, Keys(heap)), tr.id, Add, tr.key, true, tr.inv, Now(sh.hist)));
        tr' := tr.(pc := Idle);
        assert InsertCas(sh, tr, sh', tr');
      } else {
        assert InsertFail(sh, tr, sh', tr');
      }
    case Found(pred, curr) =>
      tr' := tr.(pc := if sh.heap[curr].bit then Start else Mark(pred, curr, sh.heap[curr].next));
      assert FoundRead(sh, tr, sh', tr');
    case Mark(pred, curr, succ) =>
      if Links(sh.heap, curr, succ) {
        var heap := sh.heap[curr := sh.heap[curr].(bit := true)];
        sh' := sh.(heap := heap, hist := Changed(sh.hist, tr.id, Keys(heap)));
        tr' := tr.(pc := Unlink(pred, curr, succ), lin := Now(sh.hist));
        assert MarkCas(sh, tr, sh', tr');
      } else {
        assert MarkFail(sh, tr, sh', tr');
      }
    case Unlink(pred, curr, succ) =>
      var r := Returned(h, tr.id, Remove, tr.key, true, tr.inv, tr.lin);
      sh' := if Links(sh.heap, pred, curr) then Shared(LinkTo(sh.heap, pred, succ), Without(sh.chain, curr), r) else sh.(hist := r);
      tr' := tr.(pc := Idle);
      assert UnlinkCas(sh, tr, sh', tr');
  }

  lemma NextLook(sh: Shared, tr: Thread) returns (sh': Shared, tr': Thread)
    requires SharedOk(sh) && ThreadOk(sh, tr) && tr.pc.Look?
    ensures Step(sh, tr, sh', tr')
  {
    var pred, curr, h := tr.pc.pred, tr.pc.curr, Stutter(sh.hist);
    sh' := sh.(hist := h);
    if sh.heap[curr].bit {
      tr' := tr.(pc := Help(pred, curr, sh.heap[curr].next));
      assert LookMarked(sh, tr, sh', tr');
    } else if sh.heap[curr].key < tr.key {
      tr' := tr.(pc := Look(curr, sh.heap[curr].next), gap := Now(sh.hist));
      assert LookOn(sh, tr, sh', tr');
    } else if sh.heap[curr].key == tr.key {
      if tr.kind == Add {
        sh', tr' := sh.(hist := Returned(h, tr.id, Add, tr.key, false, tr.inv, Now(sh.hist))), tr.(pc := Idle);
      } else {
        tr' := tr.(pc := Found(pred, curr));
      }
      assert LookHit(sh, tr, sh', tr');
    } else {
      if tr.kind == Add {
        tr' := tr.(pc := Insert(pred, curr));
      } else {
        sh', tr' := sh.(hist := Returned(h, tr.id, Remove, tr.key, false, tr.inv, tr.gap)), tr.(pc := Idle);
      }
      assert LookMiss(sh, tr, sh', tr');
    }
  }

  // ---------------------------------------------------------------- a thread alone

  /** Thread t alone takes steps, up to its return. */
  ghost predicate SoloRun(run: seq<State>, t: nat) {
    |run| > 0 && t < |run[0].threads| &&
    forall i :: 0 <= i < |run| - 1 ==> SoloStep(run[i], run[i + 1], t)
  }

  ghost predicate SoloStep(s: State, s': State, t: nat) {
    exists tr' :: StepOf(s, t, s'.sh, tr') && s'.threads == s.threads[t := tr']
  }

  lemma SoloNext(s: State, t: nat) returns (s': State)
    requires Inv(s) && t < |s.threads| && !s.threads[t].pc.Idle?
    ensures SoloStep(s, s', t) && Inv(s') && Potential(s') < Potential(s)
    ensures t < |s'.threads| && ReturnsOnce(s.sh, s.threads[t], s'.sh, s'.threads[t])
  {
    s' := NeverWaits(s, t);
    var tr' :| StepOf(s, t, s'.sh, tr') && s'.threads == s.threads[t := tr'];
    QuietLowers(s, s', t, tr');
  }

  lemma SoloLonger(s: State, rest: seq<State>, t: nat)
    requires SoloRun(rest, t) && t < |s.threads| && SoloStep(s, rest[0], t)
    ensures SoloRun([s] + rest, t)
  {
    var run := [s] + rest;
    forall i | 0 <= i < |run| - 1
      ensures SoloStep(run[i], run[i + 1], t)
    {
      assert i > 0 ==> SoloStep(rest[i - 1], rest[i], t);
    }
  }

  lemma {:induction false} SoloFrom(s: State, t: nat) returns (run: seq<State>)
    requires Inv(s) && t < |s.threads| && !s.threads[t].pc.Idle?
    ensures SoloRun(run, t) && run[0] == s && |run| - 1 <= Potential(s)
    ensures var s', tr := run[|run| - 1], s.threads[t];
      t < |s'.threads| && s'.threads[t].pc.Idle? && Adds(s.sh.hist, s'.sh.hist, tr.id, tr.kind, tr.key, tr.inv)
    decreases Potential(s)
  {
    var s' := SoloNext(s, t);
    if s'.threads[t].pc.Idle? {
      run := [s, s'];
    } else {
      var rest := SoloFrom(s', t);
      run := [s] + rest;
      SoloLonger(s, rest, t);
    }
  }

  /** From any reachable state a thread running alone completes its operation, and adds the
      record of just that operation. */
  lemma CompletesAlone(keys: iset<int>, s: State, t: nat) returns (run: seq<State>)
    requires Reachable(keys, s) && (forall k :: k in keys ==> k < INT_MAX)
    requires t < |s.threads| && !s.threads[t].pc.Idle?
    ensures SoloRun(run, t) && run[0] == s && |run| - 1 <= Potential(s)
    ensures var s', tr := run[|run| - 1], s.threads[t];
      t < |s'.threads| && s'.threads[t].pc.Idle? && Adds(s.sh.hist, s'.sh.hist, tr.id, tr.kind, tr.key, tr.inv)
  {
    InvReachable(keys, s);
    run := SoloFrom(s, t);
  }

  // ---------------------------------------------------------------- every call is answered

  ghost predicate UnderWay(s: State, id: nat) {
    exists t :: 0 <= t < |s.threads| && !s.threads[t].pc.Idle? && s.threads[t].id == id
  }

  /** No call is forgotten. */
  ghost predicate Accounted(s: State) {
    forall id: nat :: id < |s.sh.hist.calls| ==> Recorded(s.sh.hist, id) || UnderWay(s, id)
  }

  lemma StepAccounts(s: State, s': State, t: nat, tr': Thread)
    requires Inv(s) && Accounted(s) && t < |s.threads| && Step(s.sh, s.threads[t], s'.sh, tr') && s'.threads == s.threads[t := tr']
    ensures Accounted(s')
  {
    var tr := s.threads[t];
    assert ThreadOk(s.sh, tr);
    if !tr.pc.Idle? {
      StepAnswers(s.sh, tr, s'.sh, tr');
    }
    assert s'.threads[t] == tr' && |s.sh.hist.ops| <= |s'.sh.hist.ops|;
    forall id: nat | id < |s'.sh.hist.calls|
      ensures Recorded(s'.sh.hist, id) || UnderWay(s', id)
    {
      if id == tr'.id && !tr'.pc.Idle? {
        assert UnderWay(s', id);
      } else if id == tr'.id {
        assert s'.sh.hist.ops[|s.sh.hist.ops|].id == id;
      } else if Recorded(s.sh.hist, id) {
        var i :| 0 <= i < |s.sh.hist.ops| && s.sh.hist.ops[i].id == id;
        assert s'.sh.hist.ops[i].id == id;
      } else {
        assert UnderWay(s, id);
        var u :| 0 <= u < |s.threads| && !s.threads[u].pc.Idle? && s.threads[u].id == id;
        assert s'.threads[u] == s.threads[u];
      }
    }
  }

  lemma {:induction false} RunAccounts(keys: iset<int>, run: seq<State>)
    requires Run(keys, run) && forall k :: k in keys ==> k < INT_MAX
    ensures Accounted(run[|run| - 1])
    decreases |run|
  {
    if |run| > 1 {
      var before := run[..|run| - 1];
      RunAccounts(keys, before);
      InvRun(keys, before);
      var s, s' := before[|before| - 1], run[|run| - 1];
      var k := |run| - 2;
      assert Next(keys, run[k], run[k + 1]);
      var t: nat, tr' :| t < |s.threads| && Step(s.sh, s.threads[t], s'.sh, tr') && tr'.key in keys && s'.threads == s.threads[t := tr'];
      StepAccounts(s, s', t, tr');
    }
  }

  lemma AnsweredOrQuiet(s: State)
    requires Inv(s) && Accounted(s)
    ensures AllAnswered(s.sh.hist) || exists s' :: Quiet(s, s')
  {
    if t: nat :| t < |s.threads| && !s.threads[t].pc.Idle? {
      var s' := NeverWaits(s, t);
      assert Quiet(s, s');
    } else {
      forall id: nat | id < |s.sh.hist.calls|
        ensures RecordedOnce(s.sh.hist, id)
      {
        assert Recorded(s.sh.hist, id);
      }
    }
  }

  /** However the threads are scheduled, once no more operations are called the run has at most
      `Potential` steps more; when there are none left, every call has exactly one record. */
  lemma EveryCallAnswered(keys: iset<int>, run: seq<State>)
    requires QuietRun(run) && Reachable(keys, run[0]) && forall k :: k in keys ==> k < INT_MAX
    ensures var s := run[|run| - 1];
      |run| - 1 <= Potential(run[0]) && s.sh.hist.calls == run[0].sh.hist.calls &&
      (AllAnswered(s.sh.hist) || exists s' :: Quiet(s, s'))
  {
    InvReachable(keys, run[0]);
    var start :| Run(keys, start) && start[|start| - 1] == run[0];
    RunAccounts(keys, start);
    QuietRunLowers(run);
    AnsweredOrQuiet(run[|run| - 1]);
  }
}
