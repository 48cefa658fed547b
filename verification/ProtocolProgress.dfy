/**
  Attempts are finite (tl2/stm.h): every step of an attempt brings it nearer its end, so that
  a thread which keeps taking steps gets to the end of its attempt, as a success or a failure.
 */
module ProtocolProgress {
  import opened Options
  import opened LockTable
  import opened Protocol
  import opened ProtocolInvariant
  import opened ProtocolProof

  /** The stages of an attempt, counted down. */
  function Stage(pc: Pc): nat {
    match pc
    case Acquire(_) => 4
    case Decide => 3
    case Check(_) => 2
    case Publish(_) => 1
    case StoreWord(_, _) => 1
    case BeginMove(_) => 1
    case EndMove(_) => 1
    case Release(_) => 0
    case _ => 5
  }

  /** What is left to do in the stage, for a body of at most `limit` operations. */
  function Left(tr: Thread, limit: nat): int {
    match tr.pc
    case Await(_) => 4 * (limit - |tr.trace|) - 1
    case WantLoad(_) => 4 * (limit - |tr.trace|) - 2
    case WantCopy(_) => 4 * (limit - |tr.trace|) - 2
    case Load(_, _, _) => 4 * (limit - |tr.trace|) - 3
    case Copy(_) => 4 * (limit - |tr.trace|) - 3
    case Acquire(i) => |tr.order| - i
    case Check(i) => |tr.order| - i
    case Publish(i) => 4 * (|tr.order| - i)
    case StoreWord(i, _) => 4 * (|tr.order| - i) - 1
    case BeginMove(i) => 4 * (|tr.order| - i) - 2
    case EndMove(i) => 4 * (|tr.order| - i) - 3
    case Release(_) => |tr.taken|
    case _ => 4 * (limit - |tr.trace|)
  }

  /** The attempt has come nearer its end. */
  predicate Nearer(tr: Thread, tr': Thread, limit: nat) {
    Stage(tr'.pc) < Stage(tr.pc) || (Stage(tr'.pc) == Stage(tr.pc) && Left(tr', limit) < Left(tr, limit))
  }

  /** The body finishes within `limit` operations, whatever it reads. */
  ghost predicate StopsWithin(body: Body, limit: nat) {
    forall trace :: |trace| >= limit ==> body(trace).Finish?
  }

  lemma BodyLeft(sh: Shared, tr: Thread, limit: nat)
    requires LogOk(sh, tr) && InBody(tr.pc) && StopsWithin(tr.body, limit) && |tr.trace| <= limit
    ensures Left(tr, limit) >= 0
  {
    if !tr.pc.Running? {
      assert !tr.body(tr.trace).Finish?;
    }
  }

  lemma LaterLeft(sh: Shared, tr: Thread, limit: nat)
    requires ShapeOk(sh) && AcquiringOk(sh, tr) && PublishOk(sh, tr) && (tr.pc.Check? ==> ReadsOk(sh, tr)) && InCommit(tr.pc)
    requires |tr.trace| <= limit
    ensures Left(tr, limit) >= 0
  {
  }

  /** What is left never is negative. */
  lemma LeftIsNat(sh: Shared, tr: Thread, limit: nat)
    requires ShapeOk(sh) && ThreadOk(sh, tr) && Active(tr.pc) && StopsWithin(tr.body, limit) && |tr.trace| <= limit
    ensures Left(tr, limit) >= 0
  {
    if InBody(tr.pc) {
      BodyLeft(sh, tr, limit);
    } else {
      LaterLeft(sh, tr, limit);
    }
  }

  lemma BodyNearer(sh: Shared, tr: Thread, sh': Shared, tr': Thread, limit: nat)
    requires BodyStep(sh, tr, sh', tr')
    ensures Nearer(tr, tr', limit) && (tr'.trace == tr.trace || |tr'.trace| == |tr.trace| + 1)
  {
  }

  lemma CommitNearer(sh: Shared, tr: Thread, sh': Shared, tr': Thread, limit: nat)
    requires CommitStep(sh, tr, sh', tr')
    ensures Nearer(tr, tr', limit) && tr'.trace == tr.trace
  {
  }

  lemma PublishNearer(sh: Shared, tr: Thread, sh': Shared, tr': Thread, limit: nat)
    requires PublishStep(sh, tr, sh', tr')
    ensures Nearer(tr, tr', limit) || tr'.pc.Idle? || tr'.pc.Retry?
    ensures tr'.trace == tr.trace
  {
  }

  /** Every step of an attempt ends it or brings it nearer its end, and that is never more than
      a body's limit away: no thread can take steps for ever without ending its attempt. */
  lemma AttemptShrinks(s: State, t: nat, sh': Shared, tr': Thread, limit: nat)
    requires Reachable(s) && ThreadStep(s, t, sh', tr') && Active(s.threads[t].pc)
    requires StopsWithin(s.threads[t].body, limit) && |s.threads[t].trace| <= limit
    ensures Left(s.threads[t], limit) >= 0 && |tr'.trace| <= limit
    ensures Nearer(s.threads[t], tr', limit) || tr'.pc.Idle? || tr'.pc.Retry?
  {
    InvReachable(s);
    var sh, tr := s.sh, s.threads[t];
    assert ThreadOk(sh, tr);
    LeftIsNat(sh, tr, limit);
    if BodyStep(sh, tr, sh', tr') {
      BodyNearer(sh, tr, sh', tr', limit);
      if tr'.trace != tr.trace {
        BodyGoesOn(sh, tr, sh', tr');
      }
    } else if CommitStep(sh, tr, sh', tr') {
      CommitNearer(sh, tr, sh', tr', limit);
    } else {
      PublishNearer(sh, tr, sh', tr', limit);
    }
  }

  lemma BodyGoesOn(sh: Shared, tr: Thread, sh': Shared, tr': Thread)
    requires LogOk(sh, tr) && BodyStep(sh, tr, sh', tr') && tr'.trace != tr.trace
    ensures !tr.body(tr.trace).Finish?
  {
  }
}
