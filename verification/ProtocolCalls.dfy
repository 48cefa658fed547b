/**
  Calls of `atomically` and the transactions they commit (tl2/stm.h). A call starts when an
  idle thread leaves `Idle`, and is over when its thread is back there; it is numbered by its
  place in `calls`.
 */
module ProtocolCalls {
  import opened Options
  import opened LockTable
  import opened Protocol
  import opened ProtocolInvariant
  import opened ProtocolProof

  /** Transaction w was committed by call c. */
  predicate CommittedBy(sh: Shared, c: nat, w: nat) {
    w in sh.history && sh.history[w].call == c
  }

  /** Thread t is in the middle of call c. */
  predicate Working(s: State, t: nat, c: nat) {
    t < |s.threads| && !s.threads[t].pc.Idle? && s.threads[t].call == c
  }

  /** The call has started, and no thread is working on it any more. */
  ghost predicate Over(s: State, c: nat) {
    c < |s.sh.calls| && forall t: nat :: !Working(s, t, c)
  }

  // ---------------------------------------------------------------- the invariant

  /** The attempt has been filed in the history. */
  predicate Decided(pc: Pc) {
    Publishing(pc) || pc == Release(true)
  }

  ghost predicate CallOk(sh: Shared, tr: Thread) {
    !tr.pc.Idle? ==>
      tr.call < |sh.calls| && sh.calls[tr.call] == tr.body &&
      if Decided(tr.pc) then CommittedBy(sh, tr.call, tr.wv) else forall w: nat :: !CommittedBy(sh, tr.call, w)
  }

  ghost predicate TxnsOk(sh: Shared) {
    (forall w :: w in sh.history ==> sh.history[w].call < |sh.calls| && sh.history[w].body == sh.calls[sh.history[w].call]) &&
    (forall w, w' :: w in sh.history && w' in sh.history && sh.history[w].call == sh.history[w'].call ==> w == w')
  }

  ghost predicate CallsDiffer(s: State) {
    forall t, u, c {:trigger Working(s, t, c), Working(s, u, c)} :: Working(s, t, c) && Working(s, u, c) ==> t == u
  }

  /** Somebody is working on the call, or it has committed. */
  ghost predicate Accounted(s: State, c: nat) {
    (exists t: nat :: Working(s, t, c)) || (exists w: nat :: CommittedBy(s.sh, c, w))
  }

  ghost predicate CallsInv(s: State) {
    (forall t :: 0 <= t < |s.threads| ==> CallOk(s.sh, s.threads[t])) && TxnsOk(s.sh) && CallsDiffer(s) &&
    forall c: nat {:trigger Accounted(s, c)} :: c < |s.sh.calls| ==> Accounted(s, c)
  }

  // ---------------------------------------------------------------- the four kinds of steps

  ghost predicate Starts(sh: Shared, tr: Thread, sh': Shared, tr': Thread) {
    tr.pc.Idle? && !tr'.pc.Idle? && !Decided(tr'.pc) &&
    sh'.calls == sh.calls + [tr'.body] && tr'.call == |sh.calls| && sh'.history == sh.history &&
    sh'.clock == sh.clock && tr'.rv == sh.clock
  }

  ghost predicate Stays(sh: Shared, tr: Thread, sh': Shared, tr': Thread) {
    !tr.pc.Idle? && !tr'.pc.Idle? && Decided(tr.pc) == Decided(tr'.pc) && (Decided(tr.pc) ==> tr'.wv == tr.wv) &&
    tr'.call == tr.call && tr'.body == tr.body && sh'.calls == sh.calls && sh'.history == sh.history &&
    sh.clock <= sh'.clock && (tr'.rv == tr.rv || tr'.rv == sh.clock)
  }

  ghost predicate Files(sh: Shared, tr: Thread, sh': Shared, tr': Thread) {
    !tr.pc.Idle? && !Decided(tr.pc) && Decided(tr'.pc) && tr'.wv == tr.wv && tr.wv !in sh.history &&
    tr'.call == tr.call && tr'.body == tr.body && sh'.calls == sh.calls && sh'.history == sh.history[tr.wv := TxnOf(tr)] &&
    sh'.clock == sh.clock && tr'.rv == tr.rv
  }

  ghost predicate Ends(sh: Shared, tr: Thread, sh': Shared, tr': Thread) {
    Decided(tr.pc) && tr'.pc.Idle? && sh'.calls == sh.calls && sh'.history == sh.history && sh'.clock == sh.clock
  }

  lemma RunningStays(sh: Shared, tr: Thread, sh': Shared, tr': Thread)
    requires BodyStep(sh, tr, sh', tr') && tr.pc.Running?
    ensures Stays(sh, tr, sh', tr')
  {
  }

  lemma ReadingStays(sh: Shared, tr: Thread, sh': Shared, tr': Thread)
    requires BodyStep(sh, tr, sh', tr') && !tr.pc.Running?
    ensures Stays(sh, tr, sh', tr')
  {
  }

  lemma CommitKind(sh: Shared, tr: Thread, sh': Shared, tr': Thread)
    requires CommitStep(sh, tr, sh', tr') && CommitOk(sh, tr)
    ensures Stays(sh, tr, sh', tr') || Files(sh, tr, sh', tr')
  {
  }

  lemma PublishStays(sh: Shared, tr: Thread, sh': Shared, tr': Thread)
    requires PublishStep(sh, tr, sh', tr') && !EndAttempt(sh, tr, sh', tr') && !tr.pc.Release?
    ensures Stays(sh, tr, sh', tr')
  {
  }

  lemma PublishKind(sh: Shared, tr: Thread, sh': Shared, tr': Thread)
    requires PublishStep(sh, tr, sh', tr')
    ensures Stays(sh, tr, sh', tr') || Ends(sh, tr, sh', tr')
  {
    if !EndAttempt(sh, tr, sh', tr') && !tr.pc.Release? {
      PublishStays(sh, tr, sh', tr');
    }
  }

  lemma StepKind(s: State, t: nat, sh': Shared, tr': Thread)
    requires Inv(s) && ThreadStep(s, t, sh', tr')
    ensures var sh, tr := s.sh, s.threads[t];
      Starts(sh, tr, sh', tr') || Stays(sh, tr, sh', tr') || Files(sh, tr, sh', tr') || Ends(sh, tr, sh', tr')
  {
    var sh, tr := s.sh, s.threads[t];
    if BodyStep(sh, tr, sh', tr') {
      if tr.pc.Running? {
        RunningStays(sh, tr, sh', tr');
      } else {
        ReadingStays(sh, tr, sh', tr');
      }
    } else if CommitStep(sh, tr, sh', tr') {
      assert ThreadOk(sh, tr);
      CommitKind(sh, tr, sh', tr');
    } else if PublishStep(sh, tr, sh', tr') {
      PublishKind(sh, tr, sh', tr');
    }
  }

  // ---------------------------------------------------------------- every run keeps it

  /** The stepping thread's part, and what the others need. */
  lemma OwnCall(sh: Shared, tr: Thread, sh': Shared, tr': Thread)
    requires TxnsOk(sh) && CallOk(sh, tr)
    requires Starts(sh, tr, sh', tr') || Stays(sh, tr, sh', tr') || Files(sh, tr, sh', tr') || Ends(sh, tr, sh', tr')
    ensures CallOk(sh', tr') && TxnsOk(sh')
  {
    if Files(sh, tr, sh', tr') {
      assert CommittedBy(sh', tr.call, tr.wv);
      forall w | w in sh.history
        ensures sh.history[w].call != tr.call
      {
        assert !CommittedBy(sh, tr.call, w);
      }
    } else {
      forall w: nat
        ensures CommittedBy(sh', tr.call, w) == CommittedBy(sh, tr.call, w)
      {
      }
    }
    if Starts(sh, tr, sh', tr') {
      forall w: nat
        ensures !CommittedBy(sh', tr'.call, w)
      {
      }
    }
  }

  lemma OtherCall(sh: Shared, tr: Thread, sh': Shared, tr': Thread, u: Thread)
    requires CallOk(sh, u) && (!u.pc.Idle? && !tr.pc.Idle? ==> u.call != tr.call)
    requires Starts(sh, tr, sh', tr') || Stays(sh, tr, sh', tr') || Files(sh, tr, sh', tr') || Ends(sh, tr, sh', tr')
    ensures CallOk(sh', u)
  {
    if !u.pc.Idle? {
      forall w: nat
        ensures CommittedBy(sh', u.call, w) == CommittedBy(sh, u.call, w)
      {
      }
    }
  }

  lemma AccountedNext(s: State, s': State, t: nat, tr': Thread, c: nat)
    requires CallsInv(s) && t < |s.threads| && s'.threads == s.threads[t := tr'] && c < |s'.sh.calls|
    requires var sh, tr, sh' := s.sh, s.threads[t], s'.sh;
      Starts(sh, tr, sh', tr') || Stays(sh, tr, sh', tr') || Files(sh, tr, sh', tr') || Ends(sh, tr, sh', tr')
    ensures Accounted(s', c)
  {
    var sh, tr := s.sh, s.threads[t];
    if !tr'.pc.Idle? && tr'.call == c {
      assert Working(s', t, c);
    } else if Working(s, t, c) {
      assert CallOk(sh, tr);
      assert CommittedBy(s'.sh, c, tr.wv);
    } else {
      assert c < |sh.calls| && Accounted(s, c);
      if w: nat :| CommittedBy(sh, c, w) {
        assert CommittedBy(s'.sh, c, w);
      } else {
        var u: nat :| Working(s, u, c);
        assert Working(s', u, c);
      }
    }
  }

  lemma DifferNext(s: State, s': State, t: nat, tr': Thread)
    requires CallsInv(s) && t < |s.threads| && s'.threads == s.threads[t := tr']
    requires var sh, tr, sh' := s.sh, s.threads[t], s'.sh;
      Starts(sh, tr, sh', tr') || Stays(sh, tr, sh', tr') || Files(sh, tr, sh', tr') || Ends(sh, tr, sh', tr')
    ensures CallsDiffer(s')
  {
    forall u: nat, v: nat, c: nat | Working(s', u, c) && Working(s', v, c)
      ensures u == v
    {
      assert u != t ==> Working(s, u, c) && CallOk(s.sh, s.threads[u]);
      assert v != t ==> Working(s, v, c) && CallOk(s.sh, s.threads[v]);
      assert (u == t || v == t) && !s.threads[t].pc.Idle? ==> Working(s, t, c);
    }
  }

  lemma CallsNext(s: State, s': State)
    requires Inv(s) && CallsInv(s) && Next(s, s')
    ensures CallsInv(s')
  {
    var t: nat, tr' :| ThreadStep(s, t, s'.sh, tr') && s'.threads == s.threads[t := tr'];
    StepKind(s, t, s'.sh, tr');
    OwnCall(s.sh, s.threads[t], s'.sh, tr');
    forall u | 0 <= u < |s.threads| && u != t
      ensures CallOk(s'.sh, s.threads[u])
    {
      assert !s.threads[u].pc.Idle? ==> Working(s, u, s.threads[u].call);
      assert !s.threads[t].pc.Idle? ==> Working(s, t, s.threads[t].call);
      OtherCall(s.sh, s.threads[t], s'.sh, tr', s.threads[u]);
    }
    DifferNext(s, s', t, tr');
    forall c: nat | c < |s'.sh.calls|
      ensures Accounted(s', c)
    {
      AccountedNext(s, s', t, tr', c);
    }
  }

  lemma {:induction false} CallsRun(run: seq<State>)
    requires Run(run)
    ensures CallsInv(run[|run| - 1])
    decreases |run|
  {
    if |run| > 1 {
      var before := run[..|run| - 1];
      CallsRun(before);
      InvRun(before);
      CallsNext(before[|before| - 1], run[|run| - 1]);
    }
  }

  lemma CallsReachable(s: State)
    requires Reachable(s)
    ensures CallsInv(s)
  {
    var run :| Run(run) && run[|run| - 1] == s;
    CallsRun(run);
  }

  // ---------------------------------------------------------------- what a call does

  /** A call that is over has committed exactly one transaction, and that is a run of its body;
      a call never commits two. */
  lemma CommitsExactlyOnce(s: State, c: nat)
    requires Reachable(s) && c < |s.sh.calls|
    ensures Over(s, c) ==> exists w: nat :: CommittedBy(s.sh, c, w)
    ensures forall w, w' :: CommittedBy(s.sh, c, w) && CommittedBy(s.sh, c, w') ==> w == w'
    ensures forall w: nat :: CommittedBy(s.sh, c, w) ==> s.sh.history[w].body == s.sh.calls[c]
  {
    CallsReachable(s);
    assert Accounted(s, c);
  }

  /** A call starts exactly when a thread leaves `Idle`, with the body that the thread goes on
      to run, and a thread keeps its call and body until it is back there. Committed
      transactions stay as they are. */
  lemma CallsAreStarts(s: State, s': State, t: nat)
    requires Reachable(s) && t < |s.threads| == |s'.threads|
    requires ThreadStep(s, t, s'.sh, s'.threads[t]) && s'.threads == s.threads[t := s'.threads[t]]
    ensures var tr, tr' := s.threads[t], s'.threads[t];
      if tr.pc.Idle? then !tr'.pc.Idle? && tr'.call == |s.sh.calls| && s'.sh.calls == s.sh.calls + [tr'.body]
      else s'.sh.calls == s.sh.calls && (tr'.pc.Idle? || (tr'.call == tr.call && tr'.body == tr.body))
    ensures forall w :: w in s.sh.history ==> w in s'.sh.history && s'.sh.history[w] == s.sh.history[w]
  {
    InvReachable(s);
    StepKind(s, t, s'.sh, s'.threads[t]);
  }

  /** A thread that goes back to `Idle` has committed its call, whatever step took it there. */
  lemma ReturnMeansCommitted(s: State, s': State, t: nat) returns (w: nat)
    requires Reachable(s) && t < |s.threads| == |s'.threads|
    requires ThreadStep(s, t, s'.sh, s'.threads[t]) && s'.threads == s.threads[t := s'.threads[t]]
    requires !s.threads[t].pc.Idle? && s'.threads[t].pc.Idle?
    ensures Over(s', s.threads[t].call)
    ensures CommittedBy(s'.sh, s.threads[t].call, w) && s'.sh.history[w].body == s.threads[t].body
    ensures forall w' :: CommittedBy(s'.sh, s.threads[t].call, w') ==> w' == w
  {
    InvReachable(s);
    CallsReachable(s);
    CallsNext(s, s') by {
      assert Next(s, s');
    }
    StepKind(s, t, s'.sh, s'.threads[t]);
    var c := s.threads[t].call;
    assert CallOk(s.sh, s.threads[t]) && Working(s, t, c);
    w := s.threads[t].wv;
    forall u: nat
      ensures !Working(s', u, c)
    {
      assert u != t && Working(s', u, c) ==> Working(s, u, c);
    }
    forall w': nat | CommittedBy(s'.sh, c, w')
      ensures w' == w
    {
      assert CommittedBy(s'.sh, c, w);
    }
  }

  // ---------------------------------------------------------------- real time, by calls

  /** Calls from the k-th on sampled the clock no earlier than at `clock`. */
  ghost predicate LaterSamples(s: State, k: nat, clock: nat) {
    clock <= s.sh.clock &&
    (forall t :: 0 <= t < |s.threads| && !s.threads[t].pc.Idle? && k <= s.threads[t].call ==> clock <= s.threads[t].rv) &&
    (forall w :: w in s.sh.history && k <= s.sh.history[w].call ==> clock <= s.sh.history[w].rv)
  }

  lemma LaterNext(s: State, s': State, k: nat, clock: nat)
    requires Inv(s) && Next(s, s') && LaterSamples(s, k, clock)
    ensures LaterSamples(s', k, clock)
  {
    var t: nat, tr' :| ThreadStep(s, t, s'.sh, tr') && s'.threads == s.threads[t := tr'];
    StepKind(s, t, s'.sh, tr');
    LaterKept(s, s', t, tr', k, clock);
  }

  lemma LaterKept(s: State, s': State, t: nat, tr': Thread, k: nat, clock: nat)
    requires LaterSamples(s, k, clock) && t < |s.threads| && s'.threads == s.threads[t := tr']
    requires var sh, tr, sh' := s.sh, s.threads[t], s'.sh;
      Starts(sh, tr, sh', tr') || Stays(sh, tr, sh', tr') || Files(sh, tr, sh', tr') || Ends(sh, tr, sh', tr')
    ensures LaterSamples(s', k, clock)
  {
  }

  /** The j-th step is one from a good state. */
  ghost predicate StepAt(run: seq<State>, j: nat) {
    0 < j < |run| && Inv(run[j - 1]) && Next(run[j - 1], run[j])
  }

  ghost predicate Linked(run: seq<State>, i: nat) {
    forall j: nat {:trigger StepAt(run, j)} :: i < j < |run| ==> StepAt(run, j)
  }

  lemma RunLinked(run: seq<State>)
    requires Run(run)
    ensures Linked(run, 0)
  {
    forall j: nat | 0 < j < |run|
      ensures StepAt(run, j)
    {
      InvPrefix(run, j - 1);
    }
  }

  lemma {:induction false} LaterRun(run: seq<State>, i: nat, j: nat)
    requires Linked(run, i) && i <= j < |run| && CallsInv(run[i])
    ensures LaterSamples(run[j], |run[i].sh.calls|, run[i].sh.clock)
    decreases j
  {
    if i == j {
      NoneLater(run[i]);
    } else {
      LaterRun(run, i, j - 1);
      assert StepAt(run, j);
      LaterNext(run[j - 1], run[j], |run[i].sh.calls|, run[i].sh.clock);
    }
  }

  lemma NoneLater(s: State)
    requires CallsInv(s)
    ensures LaterSamples(s, |s.sh.calls|, s.sh.clock)
  {
    forall t | 0 <= t < |s.threads|
      ensures CallOk(s.sh, s.threads[t])
    {
    }
  }

  lemma InvPrefix(run: seq<State>, i: nat)
    requires Run(run) && i < |run|
    ensures Inv(run[i])
  {
    InvRun(run[..i + 1]);
  }

  lemma CallsPrefix(run: seq<State>, i: nat)
    requires Run(run) && i < |run|
    ensures CallsInv(run[i])
  {
    CallsRun(run[..i + 1]);
  }

  lemma NextKeepsHistory(s: State, s': State, w: nat)
    requires Inv(s) && Next(s, s') && w in s.sh.history
    ensures w in s'.sh.history && s'.sh.history[w] == s.sh.history[w]
  {
    var t: nat, tr' :| ThreadStep(s, t, s'.sh, tr') && s'.threads == s.threads[t := tr'];
    StepKind(s, t, s'.sh, tr');
  }

  lemma {:induction false} HistoryKept(run: seq<State>, i: nat, j: nat, w: nat)
    requires Linked(run, i) && i <= j < |run| && w in run[i].sh.history
    ensures w in run[j].sh.history && run[j].sh.history[w] == run[i].sh.history[w]
    decreases j
  {
    if i < j {
      HistoryKept(run, i, j - 1, w);
      assert StepAt(run, j);
      NextKeepsHistory(run[j - 1], run[j], w);
    }
  }

  /** If one call is over before another starts, its transaction has the smaller write version. */
  lemma CallsInRealTime(run: seq<State>, i: nat, j: nat, c: nat, c': nat, w: nat, w': nat)
    requires Run(run) && i <= j < |run| && Over(run[i], c) && |run[i].sh.calls| <= c'
    requires CommittedBy(run[j].sh, c, w) && CommittedBy(run[j].sh, c', w')
    ensures w < w'
  {
    CallsPrefix(run, i);
    CallsPrefix(run, j);
    InvPrefix(run, i);
    InvPrefix(run, j);
    RunLinked(run);
    assert Linked(run, i);
    assert Accounted(run[i], c);
    var v: nat :| CommittedBy(run[i].sh, c, v);
    HistoryKept(run, i, j, v);
    assert v == w;
    LaterRun(run, i, j);
    assert TxnOk(run[j].sh, w');
  }
}
