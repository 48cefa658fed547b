/**
  Every operation on the hand-over-hand list takes a bounded number of steps of its own, however
  the threads are scheduled; as some operation can always step, every call is answered.
 */
module FineListProgress {
  import opened Measures
  import opened SetHistory
  import opened SortedChain
  import opened FineList
  import opened FineListProof
  import opened FineListTheorems

  /** A step of an operation under way. */
  predicate StepOf(s: State, t: nat, sh': Shared, tr': Thread) {
    t < |s.threads| && Progress(s.sh, s.threads[t], sh', tr')
  }

  /** A step by which no operation is called. */
  ghost predicate Quiet(s: State, s': State) {
    exists t: nat, tr' :: StepOf(s, t, s'.sh, tr') && s'.threads == s.threads[t := tr']
  }

  ghost predicate QuietRun(run: seq<State>) {
    |run| > 0 && forall i :: 0 <= i < |run| - 1 ==> QuietAt(run, i)
  }

  ghost predicate QuietAt(run: seq<State>, i: nat)
    requires i < |run| - 1
  {
    Quiet(run[i], run[i + 1])
  }

  // ---------------------------------------------------------------- answers

  /** An operation's record is added by the step that returns, and by no other. */
  predicate ReturnsOnce(sh: Shared, tr: Thread, sh': Shared, tr': Thread) {
    sh'.hist.calls == sh.hist.calls && tr'.id == tr.id && tr'.kind == tr.kind && tr'.key == tr.key && tr'.inv == tr.inv &&
    if tr'.pc.Idle? then Adds(sh.hist, sh'.hist, tr.id, tr.kind, tr.key, tr.inv) else sh'.hist.ops == sh.hist.ops
  }

  lemma StepAnswers(sh: Shared, tr: Thread, sh': Shared, tr': Thread)
    requires Progress(sh, tr, sh', tr')
    ensures !tr.pc.Idle? && ReturnsOnce(sh, tr, sh', tr')
  {
  }

  // ---------------------------------------------------------------- steps left

  /** The steps that an operation takes at most from here on. */
  function StepsLeft(heap: seq<Node>, pc: Pc): nat {
    match pc
    case Idle => 0
    case WantHead => 3 * ToTail(heap, HEAD) + 6
    case Hold(pred) => 3 * ToTail(heap, pred) + 5
    case Want(pred, _) => 3 * ToTail(heap, pred) + 4
    case Both(pred, _) => 3 * ToTail(heap, pred) + 3
    case DropCurr(_, _) => 2
    case DropPred(_) => 1
  }

  lemma CurrIsNearer(sh: Shared, tr: Thread)
    requires SharedOk(sh) && ThreadOk(sh, tr) && tr.pc.Both?
    ensures ToTail(sh.heap, tr.pc.curr) < ToTail(sh.heap, tr.pc.pred)
  {
    var i := LinkOnChain(sh.heap, sh.chain, tr.pc.pred, tr.pc.curr);
    assert Below(sh.heap, sh.chain[i], sh.chain[i + 1]);
    assert NodeOk(sh.heap, tr.pc.curr) && NodeOk(sh.heap, tr.pc.pred);
  }

  /** A thread's own step lowers what it has left; nobody else's step changes it. */
  lemma StepShortens(sh: Shared, tr: Thread, sh': Shared, tr': Thread)
    requires SharedOk(sh) && ThreadOk(sh, tr) && Progress(sh, tr, sh', tr')
    ensures StepsLeft(sh.heap, tr'.pc) < StepsLeft(sh.heap, tr.pc)
  {
    if tr.pc.Both? {
      CurrIsNearer(sh, tr);
    }
  }

  ghost predicate HoldsNodes(heap: seq<Node>, pc: Pc) {
    forall n :: n in Held(pc) ==> n < |heap|
  }

  lemma LeftAlone(heap: seq<Node>, heap': seq<Node>, pc: Pc)
    requires |heap| <= |heap'| && forall n :: 0 <= n < |heap| ==> heap'[n].key == heap[n].key
    requires HoldsNodes(heap, pc)
    ensures StepsLeft(heap', pc) == StepsLeft(heap, pc)
  {
    assert !pc.Idle? && !pc.WantHead? ==> pc.pred in Held(pc);
  }

  function AllLeft(heap: seq<Node>, threads: seq<Thread>): seq<nat> {
    seq(|threads|, i requires 0 <= i < |threads| => StepsLeft(heap, threads[i].pc))
  }

  /** A bound on all the steps that can still be taken without a call. */
  function Potential(s: State): nat {
    Sum(AllLeft(s.sh.heap, s.threads))
  }

  /** Every step of every thread lowers the bound. */
  lemma QuietLowers(s: State, s': State, t: nat, tr': Thread)
    requires Inv(s) && StepOf(s, t, s'.sh, tr') && s'.threads == s.threads[t := tr']
    ensures Inv(s') && Potential(s') < Potential(s) && ReturnsOnce(s.sh, s.threads[t], s'.sh, tr')
  {
    assert ThreadOk(s.sh, s.threads[t]);
    StepAnswers(s.sh, s.threads[t], s'.sh, tr');
    StateNext(s, s', t, tr');
    StepShortens(s.sh, s.threads[t], s'.sh, tr');
    OwnStep(s.sh, s.threads[t], s'.sh, tr');
    PotentialLowers(s, s', t, tr');
  }

  lemma PotentialLowers(s: State, s': State, t: nat, tr': Thread)
    requires t < |s.threads| && s'.threads == s.threads[t := tr']
    requires |s.sh.heap| <= |s'.sh.heap| && forall n :: 0 <= n < |s.sh.heap| ==> s'.sh.heap[n].key == s.sh.heap[n].key
    requires forall u :: 0 <= u < |s.threads| ==> HoldsNodes(s.sh.heap, s.threads[u].pc)
    requires HoldsNodes(s.sh.heap, tr'.pc) && StepsLeft(s.sh.heap, tr'.pc) < StepsLeft(s.sh.heap, s.threads[t].pc)
    ensures Potential(s') < Potential(s)
  {
    LeftAlone(s.sh.heap, s'.sh.heap, tr'.pc);
    forall u | 0 <= u < |s.threads|
      ensures StepsLeft(s'.sh.heap, s.threads[u].pc) == StepsLeft(s.sh.heap, s.threads[u].pc)
    {
      LeftAlone(s.sh.heap, s'.sh.heap, s.threads[u].pc);
    }
    assert AllLeft(s'.sh.heap, s'.threads) == AllLeft(s.sh.heap, s.threads)[t := StepsLeft(s.sh.heap, tr'.pc)];
    SumUpdate(AllLeft(s.sh.heap, s.threads), t, StepsLeft(s.sh.heap, tr'.pc));
  }

  // ---------------------------------------------------------------- every call is answered

  ghost predicate UnderWay(s: State, id: nat) {
    exists t :: 0 <= t < |s.threads| && !s.threads[t].pc.Idle? && s.threads[t].id == id
  }

  /** No call is forgotten. */
  ghost predicate Accounted(s: State) {
    forall id: nat :: id < |s.sh.hist.calls| ==> Recorded(s.sh.hist, id) || UnderWay(s, id)
  }

  lemma StepAccounts(s: State, s': State, t: nat, tr': Thread)
    requires Accounted(s) && ThreadStep(s, t, s'.sh, tr') && s'.threads == s.threads[t := tr']
    ensures Accounted(s')
  {
    var tr := s.threads[t];
    if Progress(s.sh, tr, s'.sh, tr') {
      StepAnswers(s.sh, tr, s'.sh, tr');
    }
    assert s'.threads[t] == tr' && |s.sh.hist.ops| <= |s'.sh.hist.ops|;
    forall id: nat | id < |s'.sh.hist.calls|
      ensures Recorded(s'.sh.hist, id) || UnderWay(s', id)
    {
      if id == tr'.id && !tr'.pc.Idle? {
        assert UnderWay(s', id);
      } else if id == tr'.id {
        assert s'.sh.hist.ops[|s.sh.hist.ops|].id == id;
      } else if Recorded(s.sh.hist, id) {
        var i :| 0 <= i < |s.sh.hist.ops| && s.sh.hist.ops[i].id == id;
        assert s'.sh.hist.ops[i].id == id;
      } else {
        assert UnderWay(s, id);
        var u :| 0 <= u < |s.threads| && !s.threads[u].pc.Idle? && s.threads[u].id == id;
        assert s'.threads[u] == s.threads[u];
      }
    }
  }

  lemma {:induction false} RunAccounts(keys: iset<int>, run: seq<State>)
    requires Run(keys, run)
    ensures Accounted(run[|run| - 1])
    decreases |run|
  {
    if |run| > 1 {
      var before := run[..|run| - 1];
      RunAccounts(keys, before);
      var s, s' := before[|before| - 1], run[|run| - 1];
      var k := |run| - 2;
      assert Next(keys, run[k], run[k + 1]);
      var t: nat, tr' :| ThreadStep(s, t, s'.sh, tr') && tr'.key in keys && s'.threads == s.threads[t := tr'];
      StepAccounts(s, s', t, tr');
    }
  }

  lemma QuietNext(s: State, s': State)
    requires Quiet(s, s') && Inv(s) && Accounted(s)
    ensures Inv(s') && Accounted(s') && s'.sh.hist.calls == s.sh.hist.calls && Potential(s') < Potential(s)
  {
    var t: nat, tr' :| StepOf(s, t, s'.sh, tr') && s'.threads == s.threads[t := tr'];
    QuietLowers(s, s', t, tr');
    StepAccounts(s, s', t, tr');
  }

  lemma QuietPrefix(run: seq<State>)
    requires QuietRun(run) && |run| > 1
    ensures QuietRun(run[..|run| - 1]) && Quiet(run[|run| - 2], run[|run| - 1])
  {
    var before := run[..|run| - 1];
    assert QuietAt(run, |run| - 2);
    forall i | 0 <= i < |before| - 1
      ensures QuietAt(before, i)
    {
      assert QuietAt(run, i);
    }
  }

  lemma {:induction false} QuietRunLowers(run: seq<State>)
    requires QuietRun(run) && Inv(run[0]) && Accounted(run[0])
    ensures var s := run[|run| - 1];
      Inv(s) && Accounted(s) && s.sh.hist.calls == run[0].sh.hist.calls && Potential(s) + |run| - 1 <= Potential(run[0])
    decreases |run|
  {
    if |run| > 1 {
      var before := run[..|run| - 1];
      QuietPrefix(run);
      QuietRunLowers(before);
      QuietNext(before[|before| - 1], run[|run| - 1]);
    }
  }

  lemma AnsweredOrQuiet(s: State)
    requires Inv(s) && Accounted(s)
    ensures AllAnswered(s.sh.hist) || exists s' :: Quiet(s, s')
  {
    if t: nat :| t < |s.threads| && !s.threads[t].pc.Idle? {
      var u := FollowBlockers(s, t);
      var sh', tr' :| Progress(s.sh, s.threads[u], sh', tr');
      var s' := State(sh', s.threads[u := tr']);
      assert StepOf(s, u, s'.sh, tr');
      assert Quiet(s, s');
    } else {
      forall id: nat | id < |s.sh.hist.calls|
        ensures RecordedOnce(s.sh.hist, id)
      {
        assert Recorded(s.sh.hist, id);
      }
    }
  }

  /** However the threads are scheduled, once no more operations are called the run has at most
      `Potential` steps more; when there are none left, every call has exactly one record. */
  lemma EveryCallAnswered(keys: iset<int>, run: seq<State>)
    requires QuietRun(run) && Reachable(keys, run[0]) && forall k :: k in keys ==> k < INT_MAX
    ensures var s := run[|run| - 1];
      |run| - 1 <= Potential(run[0]) && s.sh.hist.calls == run[0].sh.hist.calls &&
      (AllAnswered(s.sh.hist) || exists s' :: Quiet(s, s'))
  {
    InvReachable(keys, run[0]);
    var start :| Run(keys, start) && start[|start| - 1] == run[0];
    RunAccounts(keys, start);
    QuietRunLowers(run);
    AnsweredOrQuiet(run[|run| - 1]);
  }
}
