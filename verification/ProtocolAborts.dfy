/**
  Why attempts fail (tl2/stm.h): an attempt that has failed, however it came to, was overtaken
  by another call that committed a write under the lock of an address it read.
 */
module ProtocolAborts {
  import opened Options
  import opened LockTable
  import opened Protocol
  import opened ProtocolInvariant
  import opened ProtocolProof
  import opened ProtocolCalls

  // ---------------------------------------------------------------- what is marked as read

  predicate WasGot(trace: seq<Op>, a: Addr) {
    exists i :: 0 <= i < |trace| && trace[i].Get? && trace[i].addr == a
  }

  /** A location is marked as read only if the body has read it, or is about to. */
  ghost predicate MarksOk(tr: Thread) {
    !tr.pc.Idle? ==>
      forall a :: a in tr.log && tr.log[a].read ==>
        WasGot(tr.trace, a) || ((tr.pc.Await? || Fetching(tr.pc)) && tr.pc.addr == a)
  }

  lemma GotMore(trace: seq<Op>, op: Op, a: Addr)
    ensures WasGot(trace, a) ==> WasGot(trace + [op], a)
    ensures op.Get? && op.addr == a ==> WasGot(trace + [op], a)
  {
    if WasGot(trace, a) {
      var i :| 0 <= i < |trace| && trace[i].Get? && trace[i].addr == a;
      assert (trace + [op])[i] == trace[i];
    }
    assert (trace + [op])[|trace|] == op;
  }

  lemma AppendMarks(tr: Thread, tr': Thread, op: Op)
    requires MarksOk(tr) && !tr.pc.Idle? && tr'.trace == tr.trace + [op]
    requires forall a :: a in tr'.log && tr'.log[a].read ==> a in tr.log && tr.log[a].read
    requires tr.pc.Await? || Fetching(tr.pc) ==> op.Get? && op.addr == tr.pc.addr
    ensures MarksOk(tr')
  {
    forall a | a in tr'.log && tr'.log[a].read
      ensures WasGot(tr'.trace, a)
    {
      GotMore(tr.trace, op, a);
    }
  }

  lemma BodyMarks(sh: Shared, tr: Thread, sh': Shared, tr': Thread)
    requires MarksOk(tr) && BodyStep(sh, tr, sh', tr')
    ensures MarksOk(tr')
  {
    if tr'.trace != tr.trace {
      BodyAppends(sh, tr, sh', tr');
      AppendMarks(tr, tr', tr'.trace[|tr.trace|]);
    }
  }

  /** A body step that lengthens the trace adds the operation it was about. */
  lemma BodyAppends(sh: Shared, tr: Thread, sh': Shared, tr': Thread)
    requires BodyStep(sh, tr, sh', tr') && tr'.trace != tr.trace
    ensures |tr'.trace| == |tr.trace| + 1 && tr'.trace == tr.trace + [tr'.trace[|tr.trace|]]
    ensures forall a :: a in tr'.log && tr'.log[a].read ==> a in tr.log && tr.log[a].read
    ensures var op := tr'.trace[|tr.trace|]; tr.pc.Await? || Fetching(tr.pc) ==> op.Get? && op.addr == tr.pc.addr
  {
  }

  lemma CommitMarks(sh: Shared, tr: Thread, sh': Shared, tr': Thread)
    requires MarksOk(tr) && CommitStep(sh, tr, sh', tr')
    ensures MarksOk(tr')
  {
  }

  lemma PublishMarks(sh: Shared, tr: Thread, sh': Shared, tr': Thread)
    requires MarksOk(tr) && PublishStep(sh, tr, sh', tr')
    ensures MarksOk(tr')
  {
  }

  // ---------------------------------------------------------------- when write versions were drawn

  ghost predicate TimesOk(s: State, t: nat)
    requires t < |s.threads|
  {
    var tr := s.threads[t];
    !tr.pc.Idle? ==>
      tr.began < s.sh.now &&
      (forall w :: w in s.sh.history && tr.rv < w ==> tr.began <= s.sh.history[w].drawn) &&
      (forall u :: 0 <= u < |s.threads| && Numbered(s.threads[u].pc) && tr.rv < s.threads[u].wv ==> tr.began <= s.threads[u].drawn)
  }

  /** A new attempt, with a fresh sample. */
  ghost predicate Fresh(sh: Shared, sh': Shared, tr': Thread) {
    tr'.rv == sh.clock && tr'.began == sh.now < sh'.now && !Numbered(tr'.pc)
  }

  /** The attempt goes on; if it draws its write version it does so now. */
  ghost predicate GoesOn(sh: Shared, tr: Thread, sh': Shared, tr': Thread) {
    !tr.pc.Idle? && tr'.rv == tr.rv && tr'.began == tr.began &&
    (Numbered(tr'.pc) ==> (Numbered(tr.pc) && tr'.wv == tr.wv && tr'.drawn == tr.drawn) || tr'.drawn == sh.now)
  }

  ghost predicate TimesKept(sh: Shared, tr: Thread, sh': Shared, tr': Thread) {
    sh.now <= sh'.now && (tr'.pc.Idle? || Fresh(sh, sh', tr') || GoesOn(sh, tr, sh', tr'))
  }

  lemma BodyTimes(sh: Shared, tr: Thread, sh': Shared, tr': Thread)
    requires BodyStep(sh, tr, sh', tr')
    ensures TimesKept(sh, tr, sh', tr')
  {
  }

  lemma CommitTimes(sh: Shared, tr: Thread, sh': Shared, tr': Thread)
    requires CommitStep(sh, tr, sh', tr')
    ensures TimesKept(sh, tr, sh', tr')
  {
  }

  lemma PublishTimes(sh: Shared, tr: Thread, sh': Shared, tr': Thread)
    requires PublishStep(sh, tr, sh', tr')
    ensures TimesKept(sh, tr, sh', tr')
  {
  }

  lemma StepTimes(s: State, t: nat, sh': Shared, tr': Thread)
    requires ThreadStep(s, t, sh', tr')
    ensures TimesKept(s.sh, s.threads[t], sh', tr')
  {
    var sh, tr := s.sh, s.threads[t];
    if BodyStep(sh, tr, sh', tr') {
      BodyTimes(sh, tr, sh', tr');
    } else if CommitStep(sh, tr, sh', tr') {
      CommitTimes(sh, tr, sh', tr');
    } else if PublishStep(sh, tr, sh', tr') {
      PublishTimes(sh, tr, sh', tr');
    }
  }

  /** All write versions in use are at most the clock. */
  ghost predicate Bounded(s: State) {
    (forall w :: w in s.sh.history ==> w <= s.sh.clock) &&
    (forall u :: 0 <= u < |s.threads| && Numbered(s.threads[u].pc) ==> s.threads[u].wv <= s.sh.clock)
  }

  lemma InvBounded(s: State)
    requires Inv(s)
    ensures Bounded(s)
  {
    forall u | 0 <= u < |s.threads| && Numbered(s.threads[u].pc)
      ensures s.threads[u].wv <= s.sh.clock
    {
      assert ThreadOk(s.sh, s.threads[u]);
    }
  }

  ghost predicate FilesOwn(s: State, t: nat, sh': Shared)
    requires t < |s.threads|
  {
    sh'.history == s.sh.history || (Numbered(s.threads[t].pc) && sh'.history == s.sh.history[s.threads[t].wv := TxnOf(s.threads[t])])
  }

  lemma TimesNext(s: State, s': State, t: nat, tr': Thread, u: nat)
    requires Bounded(s) && t < |s.threads| && u < |s.threads| && s'.threads == s.threads[t := tr']
    requires TimesOk(s, t) && TimesOk(s, u) && TimesKept(s.sh, s.threads[t], s'.sh, tr') && FilesOwn(s, t, s'.sh)
    ensures TimesOk(s', u)
  {
  }

  // ---------------------------------------------------------------- culprits

  predicate Failed(pc: Pc) {
    pc == Release(false) || pc.Retry?
  }

  /** Transaction w of another call, drawn since the attempt began, wrote an address under the
      lock of one that the attempt read. */
  ghost predicate Culprit(sh: Shared, tr: Thread, w: nat, read: Addr, written: Addr) {
    w in sh.history && tr.rv < w && tr.began <= sh.history[w].drawn && sh.history[w].call != tr.call &&
    WasGot(tr.trace, read) && written in Writes(sh.history[w].trace) &&
    read in sh.lockOf && written in sh.lockOf && sh.lockOf[read] == sh.lockOf[written]
  }

  ghost predicate HasCulprit(sh: Shared, tr: Thread) {
    exists w, read, written :: Culprit(sh, tr, w, read, written)
  }

  ghost predicate AbortsInv(s: State) {
    forall t {:trigger s.threads[t]} :: 0 <= t < |s.threads| ==>
      MarksOk(s.threads[t]) && TimesOk(s, t) && (Failed(s.threads[t].pc) ==> HasCulprit(s.sh, s.threads[t]))
  }

  /** A failed validation names its culprit. */
  lemma CheckFailCulprit(s: State, t: nat, sh': Shared, tr': Thread)
    requires Inv(s) && CallsInv(s) && t < |s.threads| && MarksOk(s.threads[t]) && TimesOk(s, t)
    requires CheckFail(s.sh, s.threads[t], sh', tr')
    ensures HasCulprit(s.sh, s.threads[t])
  {
    var sh, tr := s.sh, s.threads[t];
    assert ThreadOk(sh, tr) && CallOk(sh, tr);
    var read := tr.order[tr.pc.i];
    var l := sh.lockOf[read];
    var w := sh.words[l].version;
    assert Witness(sh, l);
    var written :| written in sh.lockOf && Writes?(sh.history[w].log, written) && sh.lockOf[written] == l;
    assert TxnOk(sh, w);
    assert !CommittedBy(sh, tr.call, w);
    assert Culprit(sh, tr, w, read, written);
  }

  ghost predicate SameFailure(sh: Shared, tr: Thread, sh': Shared, tr': Thread) {
    Failed(tr.pc) && tr'.rv == tr.rv && tr'.began == tr.began && tr'.call == tr.call && tr'.trace == tr.trace &&
    sh'.history == sh.history && sh'.lockOf == sh.lockOf
  }

  lemma CommitFailures(sh: Shared, tr: Thread, sh': Shared, tr': Thread)
    requires CommitStep(sh, tr, sh', tr') && Failed(tr'.pc)
    ensures CheckFail(sh, tr, sh', tr')
  {
  }

  lemma PublishFailures(sh: Shared, tr: Thread, sh': Shared, tr': Thread)
    requires PublishStep(sh, tr, sh', tr') && Failed(tr'.pc)
    ensures SameFailure(sh, tr, sh', tr')
  {
    if ReleaseOne(sh, tr, sh', tr') {
    } else if EndAttempt(sh, tr, sh', tr') {
    } else {
      WritingSucceeds(sh, tr, sh', tr');
    }
  }

  lemma WritingSucceeds(sh: Shared, tr: Thread, sh': Shared, tr': Thread)
    requires PublishStep(sh, tr, sh', tr') && !ReleaseOne(sh, tr, sh', tr') && !EndAttempt(sh, tr, sh', tr')
    ensures !Failed(tr'.pc)
  {
  }

  lemma OwnMarks(sh: Shared, tr: Thread, sh': Shared, tr': Thread)
    requires MarksOk(tr) && (Begin(sh, tr, sh', tr') || Progress(sh, tr, sh', tr'))
    ensures MarksOk(tr')
  {
    if BodyStep(sh, tr, sh', tr') {
      BodyMarks(sh, tr, sh', tr');
    } else if CommitStep(sh, tr, sh', tr') {
      CommitMarks(sh, tr, sh', tr');
    } else if PublishStep(sh, tr, sh', tr') {
      PublishMarks(sh, tr, sh', tr');
    }
  }

  lemma BodyFailures(sh: Shared, tr: Thread, sh': Shared, tr': Thread)
    requires BodyStep(sh, tr, sh', tr')
    ensures !Failed(tr'.pc)
  {
  }

  /** An attempt fails in validation or not at all. */
  lemma FailureKind(sh: Shared, tr: Thread, sh': Shared, tr': Thread)
    requires (Begin(sh, tr, sh', tr') || Progress(sh, tr, sh', tr')) && Failed(tr'.pc)
    ensures CheckFail(sh, tr, sh', tr') || SameFailure(sh, tr, sh', tr')
  {
    if BodyStep(sh, tr, sh', tr') {
      BodyFailures(sh, tr, sh', tr');
    } else if CommitStep(sh, tr, sh', tr') {
      CommitFailures(sh, tr, sh', tr');
    } else if PublishStep(sh, tr, sh', tr') {
      PublishFailures(sh, tr, sh', tr');
    }
  }

  lemma OwnFailure(s: State, t: nat, sh': Shared, tr': Thread)
    requires Inv(s) && CallsInv(s) && ThreadStep(s, t, sh', tr') && Failed(tr'.pc)
    requires MarksOk(s.threads[t]) && TimesOk(s, t) && (Failed(s.threads[t].pc) ==> HasCulprit(s.sh, s.threads[t]))
    ensures HasCulprit(sh', tr')
  {
    FailureKind(s.sh, s.threads[t], sh', tr');
    if CheckFail(s.sh, s.threads[t], sh', tr') {
      CheckFailCulprit(s, t, sh', tr');
    }
    CulpritKept(s.sh, s.threads[t], sh', tr');
  }

  lemma CulpritKept(sh: Shared, tr: Thread, sh': Shared, tr': Thread)
    requires HasCulprit(sh, tr) && tr'.rv == tr.rv && tr'.began == tr.began && tr'.call == tr.call && tr'.trace == tr.trace
    requires sh'.lockOf == sh.lockOf && forall w :: w in sh.history ==> w in sh'.history && sh'.history[w] == sh.history[w]
    ensures HasCulprit(sh', tr')
  {
    var w, read, written :| Culprit(sh, tr, w, read, written);
    assert Culprit(sh', tr', w, read, written);
  }

  lemma StepFiles(s: State, t: nat, sh': Shared, tr': Thread)
    requires Inv(s) && ThreadStep(s, t, sh', tr')
    ensures FilesOwn(s, t, sh') && sh'.lockOf == s.sh.lockOf
    ensures forall w :: w in s.sh.history ==> w in sh'.history && sh'.history[w] == s.sh.history[w]
  {
    OwnStep(s, t, sh', tr');
    StepKind(s, t, sh', tr');
  }

  lemma AbortsNext(s: State, s': State)
    requires Inv(s) && CallsInv(s) && AbortsInv(s) && Next(s, s')
    ensures AbortsInv(s')
  {
    var t: nat, tr' :| ThreadStep(s, t, s'.sh, tr') && s'.threads == s.threads[t := tr'];
    StepTimes(s, t, s'.sh, tr');
    StepFiles(s, t, s'.sh, tr');
    InvBounded(s);
    OwnMarks(s.sh, s.threads[t], s'.sh, tr');
    if Failed(tr'.pc) {
      OwnFailure(s, t, s'.sh, tr');
    }
    forall u | 0 <= u < |s'.threads|
      ensures MarksOk(s'.threads[u]) && TimesOk(s', u) && (Failed(s'.threads[u].pc) ==> HasCulprit(s'.sh, s'.threads[u]))
    {
      assert s.threads[u] == s.threads[u];
      TimesNext(s, s', t, tr', u);
      if u != t && Failed(s.threads[u].pc) {
        CulpritKept(s.sh, s.threads[u], s'.sh, s.threads[u]);
      }
    }
  }

  lemma {:induction false} AbortsRun(run: seq<State>)
    requires Run(run)
    ensures AbortsInv(run[|run| - 1])
    decreases |run|
  {
    if |run| > 1 {
      var before := run[..|run| - 1];
      AbortsRun(before);
      InvRun(before);
      CallsRun(before);
      AbortsNext(before[|before| - 1], run[|run| - 1]);
    }
  }

  /** Whenever an attempt has failed, there is a culprit: a transaction of another call, with a
      write version above the attempt's sample and drawn after the attempt began, that wrote an
      address under the lock of one the attempt's body read. */
  lemma AbortHasCulprit(s: State, t: nat) returns (w: nat, read: Addr, written: Addr)
    requires Reachable(s) && t < |s.threads| && Failed(s.threads[t].pc)
    ensures Culprit(s.sh, s.threads[t], w, read, written)
    ensures forall p :: Reachable(p) && p.sh.clock <= s.threads[t].rv ==> w !in p.sh.history
  {
    forall p | Reachable(p)
      ensures Bounded(p)
    {
      InvReachable(p);
      InvBounded(p);
    }
    var run :| Run(run) && run[|run| - 1] == s;
    AbortsRun(run);
    assert HasCulprit(s.sh, s.threads[t]);
    w, read, written :| Culprit(s.sh, s.threads[t], w, read, written);
  }
}
