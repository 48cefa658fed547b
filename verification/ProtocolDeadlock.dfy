/**
  When commits can deadlock. The guard takes locks in address order, but the lock of an
  address is its bits above the second masked to the table size, so address order is lock
  order only while the mask does not wrap.
 */
module ProtocolDeadlock {
  import opened Options
  import opened LockTable
  import opened Protocol
  import opened ProtocolInvariant
  import opened ProtocolSteps
  import opened ProtocolProof

  // ---------------------------------------------------------------- waiting

  /** The thread spins on lock l: in a read, in the guard, or in a version access to a
      location it is not marked as owning. */
  predicate WaitsFor(sh: Shared, tr: Thread, l: nat) {
    l < |sh.words| && sh.words[l].locked &&
    match tr.pc
    case Await(a) => a in sh.lockOf && sh.lockOf[a] == l
    case WantCopy(a) => a in sh.lockOf && sh.lockOf[a] == l
    case Acquire(i) => Indexed(sh, tr, i) && !AlreadyTaken(sh, tr, i) && Under(sh.lockOf, tr.order, i, l)
    case Check(i) => Indexed(sh, tr, i) && tr.order[i] !in tr.owned && Under(sh.lockOf, tr.order, i, l)
    case Publish(i) => Indexed(sh, tr, i) && tr.order[i] !in tr.owned && Under(sh.lockOf, tr.order, i, l)
    case _ => false
  }

  /** Thread t spins on lock l, which thread u holds. */
  predicate WaitsOn(s: State, t: nat, u: nat, l: nat) {
    t < |s.threads| && u < |s.threads| && WaitsFor(s.sh, s.threads[t], l) && l in s.threads[u].taken
  }

  ghost predicate WaitsWithin(s: State, D: set<nat>, t: nat) {
    exists u, l :: u in D && WaitsOn(s, t, u, l)
  }

  /** Every thread of D waits for a lock that a thread of D holds. */
  ghost predicate Deadlocked(s: State, D: set<nat>) {
    D != {} && forall t {:trigger WaitsWithin(s, D, t)} :: t in D ==> WaitsWithin(s, D, t)
  }

  /** The thread has a transaction under way and can take its next step. */
  ghost predicate CanProceed(s: State, t: nat) {
    t < |s.threads| && !s.threads[t].pc.Idle? && exists sh', tr' :: ThreadStep(s, t, sh', tr')
  }

  /** What the body does next is to a `TVar` that exists. */
  predicate ActionInPlay(sh: Shared, tr: Thread) {
    tr.pc.Running? ==>
      match tr.body(tr.trace)
      case DoGet(a) => a in sh.mem
      case DoPut(a, _) => a in sh.mem
      case Finish => true
  }

  /** No address in play lies between two addresses of another lock. */
  ghost predicate Contiguous(vars: set<Addr>) {
    forall a, b, d :: a in vars && b in vars && d in vars && a < b < d && LockIndex(a) == LockIndex(d) ==>
      LockIndex(a) == LockIndex(b)
  }

  /** The same of the lock mapping a state carries. */
  ghost predicate Runs(lockOf: map<Addr, nat>) {
    forall a, b, d :: a in lockOf && b in lockOf && d in lockOf && a < b < d && lockOf[a] == lockOf[d] ==>
      lockOf[a] == lockOf[b]
  }

  // ---------------------------------------------------------------- locks have holders

  ghost predicate HeldBy(s: State, l: nat, t: nat) {
    t < |s.threads| && l in s.threads[t].taken
  }

  ghost predicate HoldersOk(s: State) {
    forall l :: 0 <= l < |s.sh.words| && s.sh.words[l].locked ==> exists t :: HeldBy(s, l, t)
  }

  /** A lock found set after a step is held by the stepping thread, or was set before and
      not held by it. */
  ghost predicate LockStep(sh: Shared, tr: Thread, sh': Shared, tr': Thread, l: nat) {
    l < |sh.words| && |sh'.words| == |sh.words| &&
    (sh'.words[l].locked ==> l in tr'.taken || (sh.words[l].locked && l !in tr.taken))
  }

  lemma LocksOfBody(sh: Shared, tr: Thread, sh': Shared, tr': Thread, l: nat)
    requires TakenOk(sh, tr) && l < |sh.words| && (Begin(sh, tr, sh', tr') || BodyStep(sh, tr, sh', tr'))
    ensures LockStep(sh, tr, sh', tr', l)
  {
  }

  lemma LocksOfCommit(sh: Shared, tr: Thread, sh': Shared, tr': Thread, l: nat)
    requires l < |sh.words| && CommitStep(sh, tr, sh', tr')
    ensures LockStep(sh, tr, sh', tr', l)
  {
  }

  lemma LocksOfRelease(sh: Shared, tr: Thread, sh': Shared, tr': Thread, l: nat)
    requires l < |sh.words| && ReleaseOne(sh, tr, sh', tr')
    ensures LockStep(sh, tr, sh', tr', l)
  {
    if l in tr.taken && sh'.words[l].locked {
      var k :| 0 <= k < |tr.taken| && tr.taken[k] == l;
      assert tr'.taken[k] == l;
    }
  }

  lemma LocksOfPublish(sh: Shared, tr: Thread, sh': Shared, tr': Thread, l: nat)
    requires ShapeOk(sh) && HoldingOk(sh, tr) && l < |sh.words| && PublishStep(sh, tr, sh', tr')
    ensures LockStep(sh, tr, sh', tr', l)
  {
    if ReleaseOne(sh, tr, sh', tr') {
      LocksOfRelease(sh, tr, sh', tr', l);
    }
  }

  lemma HoldersNext(s: State, s': State)
    requires Inv(s) && HoldersOk(s) && Next(s, s')
    ensures HoldersOk(s')
  {
    var t: nat, tr' :| ThreadStep(s, t, s'.sh, tr') && s'.threads == s.threads[t := tr'];
    var tr := s.threads[t];
    OwnStep(s, t, s'.sh, tr');
    forall l | 0 <= l < |s'.sh.words| && s'.sh.words[l].locked
      ensures exists u :: HeldBy(s', l, u)
    {
      LockStepOf(s.sh, tr, s'.sh, tr', l);
      if l in tr'.taken {
        assert HeldBy(s', l, t);
      } else {
        var u :| HeldBy(s, l, u);
        assert HeldBy(s', l, u);
      }
    }
  }

  lemma LockStepOf(sh: Shared, tr: Thread, sh': Shared, tr': Thread, l: nat)
    requires ShapeOk(sh) && LocksOk(sh, tr) && l < |sh.words| && (Begin(sh, tr, sh', tr') || Progress(sh, tr, sh', tr'))
    ensures LockStep(sh, tr, sh', tr', l)
  {
    if CommitStep(sh, tr, sh', tr') {
      LocksOfCommit(sh, tr, sh', tr', l);
    } else if PublishStep(sh, tr, sh', tr') {
      LocksOfPublish(sh, tr, sh', tr', l);
    } else {
      LocksOfBody(sh, tr, sh', tr', l);
    }
  }

  lemma {:induction false} HoldersRun(run: seq<State>)
    requires Run(run)
    ensures Inv(run[|run| - 1]) && HoldersOk(run[|run| - 1])
    decreases |run|
  {
    if |run| == 1 {
      InvInit(run[0]);
    } else {
      var before := run[..|run| - 1];
      HoldersRun(before);
      InvNext(before[|before| - 1], run[|run| - 1]);
      HoldersNext(before[|before| - 1], run[|run| - 1]);
    }
  }

  // ---------------------------------------------------------------- no deadlock

  function Rank(threads: seq<Thread>, t: nat): nat {
    if t < |threads| && threads[t].pc.Acquire? && threads[t].pc.i < |threads[t].order|
    then threads[t].order[threads[t].pc.i] else 0
  }

  lemma {:induction false} HighestRank(threads: seq<Thread>, D: set<nat>) returns (m: nat)
    requires D != {}
    ensures m in D && forall t :: t in D ==> Rank(threads, t) <= Rank(threads, m)
  {
    m :| m in D;
    if D != {m} {
      var n := HighestRank(threads, D - {m});
      if Rank(threads, m) < Rank(threads, n) {
        m := n;
      }
    }
  }

  /** A thread that holds a lock and waits is in the guard. */
  lemma HolderAcquires(sh: Shared, ur: Thread, l: nat, l': nat)
    requires ShapeOk(sh) && ThreadOk(sh, ur) && l in ur.taken && WaitsFor(sh, ur, l')
    ensures ur.pc.Acquire? && AcquiringOk(sh, ur) && Ascending(ur.order)
  {
  }

  /** What the guard waits for is above everything it holds. */
  lemma WaitsAbove(sh: Shared, tr: Thread, ur: Thread, l: nat, l': nat)
    requires Runs(sh.lockOf) && tr.pc.Acquire? && ur.pc.Acquire?
    requires AcquiringOk(sh, ur) && Ascending(ur.order)
    requires WaitsFor(sh, tr, l) && l in ur.taken && WaitsFor(sh, ur, l')
    ensures tr.order[tr.pc.i] < ur.order[ur.pc.i]
  {
    var i := ur.pc.i;
    var j :| 0 <= j < i && Under(sh.lockOf, ur.order, j, l);
    assert l != l';
    assert ur.order[j] < ur.order[i];
    assert sh.lockOf[tr.order[tr.pc.i]] == l;
  }

  lemma RankRises(s: State, t: nat, u: nat, l: nat, u': nat, l': nat)
    requires ShapeOk(s.sh) && Runs(s.sh.lockOf) && WaitsOn(s, t, u, l) && WaitsOn(s, u, u', l')
    requires s.threads[u].pc.Acquire? && AcquiringOk(s.sh, s.threads[u]) && Ascending(s.threads[u].order)
    ensures Rises(s, t, u)
  {
    if s.threads[t].pc.Acquire? {
      WaitsAbove(s.sh, s.threads[t], s.threads[u], l, l');
    }
  }

  ghost predicate Rises(s: State, t: nat, u: nat) {
    t < |s.threads| && u < |s.threads| && s.threads[u].pc.Acquire? &&
    (s.threads[t].pc.Acquire? ==> Rank(s.threads, t) < Rank(s.threads, u))
  }

  lemma WaitingChainRises(s: State, t: nat, u: nat, l: nat, u': nat, l': nat)
    requires Inv(s) && Runs(s.sh.lockOf) && WaitsOn(s, t, u, l) && WaitsOn(s, u, u', l')
    ensures Rises(s, t, u)
  {
    assert ThreadOk(s.sh, s.threads[u]);
    HolderAcquires(s.sh, s.threads[u], l, l');
    RankRises(s, t, u, l, u', l');
  }

  /** From the highest rank of a waiting cycle the next one or two steps cannot rise. */
  lemma CycleFalls(s: State, D: set<nat>) returns (t: nat, u: nat, l: nat, u': nat, l': nat)
    requires Deadlocked(s, D)
    ensures WaitsOn(s, t, u, l) && WaitsOn(s, u, u', l') && !Rises(s, t, u)
  {
    t := HighestRank(s.threads, D);
    assert WaitsWithin(s, D, t);
    u, l :| u in D && WaitsOn(s, t, u, l);
    assert WaitsWithin(s, D, u);
    u', l' :| u' in D && WaitsOn(s, u, u', l');
    if Rises(s, t, u) {
      assert WaitsWithin(s, D, u');
      var u'', l'' :| u'' in D && WaitsOn(s, u', u'', l'');
      t, u, l, u', l' := u, u', l', u'', l'';
    }
  }

  /** Threads over addresses in contiguous runs cannot deadlock. */
  lemma RunsDoNotDeadlock(s: State, D: set<nat>)
    requires Inv(s) && Runs(s.sh.lockOf)
    ensures !Deadlocked(s, D)
  {
    if Deadlocked(s, D) {
      var t, u, l, u', l' := CycleFalls(s, D);
      WaitingChainRises(s, t, u, l, u', l');
    }
  }

  // ---------------------------------------------------------------- progress

  lemma {:induction false} SortKeys(log: map<Addr, Entry>, keys: set<Addr>) returns (order: seq<Addr>)
    requires keys <= log.Keys
    ensures Ascending(order) && forall a :: a in order <==> a in keys
  {
    if keys == {} {
      order := [];
    } else {
      var m := Largest(keys);
      var rest := SortKeys(log, keys - {m});
      order := rest + [m];
      forall i | 0 <= i < |rest|
        ensures rest[i] < m
      {
        assert rest[i] in rest;
      }
    }
  }

  lemma {:induction false} Largest(keys: set<Addr>) returns (m: Addr)
    requires keys != {}
    ensures m in keys && forall a :: a in keys ==> a <= m
  {
    m :| m in keys;
    if keys != {m} {
      var n := Largest(keys - {m});
      assert forall a :: a in keys ==> a == m || a in keys - {m};
      m := if m < n then n else m;
    }
  }

  lemma BodyProceeds(sh: Shared, tr: Thread) returns (sh': Shared, tr': Thread)
    requires ShapeOk(sh) && ThreadOk(sh, tr) && InBody(tr.pc) && ActionInPlay(sh, tr)
    requires !exists l :: WaitsFor(sh, tr, l)
    ensures BodyStep(sh, tr, sh', tr')
  {
    match tr.pc
    case Running =>
      match tr.body(tr.trace) {
        case DoPut(a, v) =>
          sh', tr' := sh, tr.(log := tr.log[a := Entry(WasRead(tr, a), Some(v))], trace := tr.trace + [Put(a, v)]);
          assert Stage(sh, tr, sh', tr');
        case DoGet(a) =>
          sh', tr' := sh, tr.(pc := Await(a), log := tr.log[a := Entry(true, Staged(tr, a))]);
          assert RegisterRead(sh, tr, sh', tr');
        case Finish =>
          var order := SortKeys(tr.log, tr.log.Keys);
          sh', tr' := sh, tr.(pc := Acquire(0), order := order);
          assert SortLog(sh, tr, sh', tr');
      }
    case Await(a) =>
      assert Unlocked(sh, a) by {
        assert !WaitsFor(sh, tr, sh.lockOf[a]);
      }
      if Staged(tr, a).Some? {
        sh', tr' := sh, tr.(pc := Running, seen := tr.seen + {a}, trace := tr.trace + [Get(a, Staged(tr, a).value)]);
        assert ReadStaged(sh, tr, sh', tr');
      } else {
        sh', tr' := sh, tr.(pc := WantLoad(a), seen := tr.seen + {a});
        assert ChooseLoad(sh, tr, sh', tr');
      }
    case WantLoad(a) =>
      sh', tr' := sh, tr.(pc := Load(a, sh.mem[a].busy, sh.mem[a].moves));
      assert StartLoad(sh, tr, sh', tr');
    case Load(a, _, _) =>
      var v := sh.mem[a].val;
      sh', tr' := sh, tr.(pc := Running, fetched := tr.fetched + {(a, v)}, trace := tr.trace + [Get(a, v)]);
      assert EndLoad(sh, tr, v, sh', tr');
    case WantCopy(a) =>
      assert Unlocked(sh, a) by {
        assert !WaitsFor(sh, tr, sh.lockOf[a]);
      }
      var l := sh.lockOf[a];
      sh', tr' := SetLocked(sh, l, true), tr.(pc := Copy(a), taken := [l]);
      assert CopyLock(sh, tr, sh', tr');
    case Copy(a) =>
      var v := sh.mem[a].val;
      sh' := SetLocked(sh, sh.lockOf[a], false);
      tr' := tr.(pc := Running, taken := [], fetched := tr.fetched + {(a, v)}, trace := tr.trace + [Get(a, v)]);
      assert EndCopy(sh, tr, sh', tr');
  }

  lemma IndexedLog(sh: Shared, tr: Thread, i: nat)
    requires ShapeOk(sh) && LogOk(sh, tr) && InCommit(tr.pc) && i < |tr.order|
    ensures Indexed(sh, tr, i)
  {
    assert tr.order[i] in tr.order;
  }

  lemma AcquireProceeds(sh: Shared, tr: Thread) returns (sh': Shared, tr': Thread)
    requires ShapeOk(sh) && ThreadOk(sh, tr) && tr.pc.Acquire?
    requires !exists l :: WaitsFor(sh, tr, l)
    ensures CommitStep(sh, tr, sh', tr')
  {
    var i := tr.pc.i;
    if i == |tr.order| {
      sh', tr' := sh.(clock := sh.clock + 1, now := sh.now + 1), tr.(pc := Decide, wv := sh.clock + 1, drawn := sh.now);
      assert Increment(sh, tr, sh', tr');
    } else {
      IndexedLog(sh, tr, i);
      var a := tr.order[i];
      if AlreadyTaken(sh, tr, i) {
        sh', tr' := sh, tr.(pc := Acquire(i + 1), owned := tr.owned + {a});
        assert MarkOwner(sh, tr, sh', tr');
      } else {
        assert !WaitsFor(sh, tr, sh.lockOf[a]);
        sh' := SetLocked(sh, sh.lockOf[a], true);
        tr' := tr.(pc := Acquire(i + 1), taken := tr.taken + [sh.lockOf[a]], owned := tr.owned + {a});
        assert AcquireLock(sh, tr, sh', tr');
      }
    }
  }

  lemma ValidationProceeds(sh: Shared, tr: Thread) returns (sh': Shared, tr': Thread)
    requires ShapeOk(sh) && ThreadOk(sh, tr) && Validating(tr.pc)
    ensures CommitStep(sh, tr, sh', tr')
  {
    if tr.pc.Decide? {
      if tr.wv == tr.rv + 1 {
        sh', tr' := sh.(history := sh.history[tr.wv := TxnOf(tr)]), tr.(pc := Publish(0));
        assert FastPath(sh, tr, sh', tr');
      } else {
        sh', tr' := sh, tr.(pc := Check(0));
        assert SlowPath(sh, tr, sh', tr');
      }
    } else if tr.pc.i == |tr.order| {
      sh', tr' := sh.(history := sh.history[tr.wv := TxnOf(tr)]), tr.(pc := Publish(0));
      assert CheckDone(sh, tr, sh', tr');
    } else {
      IndexedLog(sh, tr, tr.pc.i);
      if ValidatesAt(sh, tr, tr.pc.i) {
        sh', tr' := sh, tr.(pc := Check(tr.pc.i + 1));
        assert CheckPass(sh, tr, sh', tr');
      } else {
        sh', tr' := sh, tr.(pc := Release(false));
        assert CheckFail(sh, tr, sh', tr');
      }
    }
  }

  lemma StoreProceeds(sh: Shared, tr: Thread) returns (sh': Shared, tr': Thread)
    requires ShapeOk(sh) && ThreadOk(sh, tr) && (tr.pc.Publish? || tr.pc.StoreWord?)
    ensures PublishStep(sh, tr, sh', tr')
  {
    if tr.pc.i < |tr.order| {
      IndexedLog(sh, tr, tr.pc.i);
    }
    match tr.pc
    case Publish(i) =>
      if i == |tr.order| {
        sh', tr' := sh, tr.(pc := Release(true));
        assert PublishDone(sh, tr, sh', tr');
      } else if Staged(tr, tr.order[i]).None? {
        sh', tr' := sh, tr.(pc := Publish(i + 1));
        assert SkipUnwritten(sh, tr, sh', tr');
      } else {
        sh', tr' := sh, tr.(pc := StoreWord(i, WordOf(sh, tr, i)));
        assert ReadWord(sh, tr, sh', tr');
      }
    case StoreWord(i, w) =>
      sh' := sh.(words := sh.words[sh.lockOf[tr.order[i]] := Word(tr.wv, w.locked)]);
      tr' := tr.(pc := BeginMove(i));
      assert WriteWord(sh, tr, sh', tr');
  }

  lemma StartMoveProceeds(sh: Shared, tr: Thread) returns (sh': Shared, tr': Thread)
    requires ShapeOk(sh) && ThreadOk(sh, tr) && tr.pc.BeginMove?
    ensures StartMove(sh, tr, sh.mem[tr.order[tr.pc.i]].val, sh', tr')
  {
    IndexedLog(sh, tr, tr.pc.i);
    var a := tr.order[tr.pc.i];
    sh' := sh.(mem := sh.mem[a := Cell(sh.mem[a].val, true, sh.mem[a].moves + 1)]);
    tr' := tr.(pc := EndMove(tr.pc.i));
  }

  lemma FinishMoveProceeds(sh: Shared, tr: Thread) returns (sh': Shared, tr': Thread)
    requires ShapeOk(sh) && ThreadOk(sh, tr) && tr.pc.EndMove?
    ensures FinishMove(sh, tr, sh', tr')
  {
    IndexedLog(sh, tr, tr.pc.i);
    var a := tr.order[tr.pc.i];
    sh' := sh.(mem := sh.mem[a := Cell(Staged(tr, a).value, false, sh.mem[a].moves)]);
    tr' := tr.(pc := Publish(tr.pc.i + 1), moved := tr.moved + {a});
  }

  lemma ReleaseProceeds(sh: Shared, tr: Thread) returns (sh': Shared, tr': Thread)
    requires ShapeOk(sh) && ThreadOk(sh, tr) && tr.pc.Release?
    ensures PublishStep(sh, tr, sh', tr')
  {
    if tr.taken == [] {
      sh' := if tr.pc.ok then sh.(now := sh.now + 1, done := sh.done[tr.wv := sh.now]) else sh;
      tr' := tr.(pc := if tr.pc.ok then Idle else Retry);
      assert EndAttempt(sh, tr, sh', tr');
    } else {
      sh' := SetLocked(sh, tr.taken[|tr.taken| - 1], false);
      tr' := tr.(taken := tr.taken[..|tr.taken| - 1]);
      assert ReleaseOne(sh, tr, sh', tr');
    }
  }

  lemma PublishProceeds(sh: Shared, tr: Thread) returns (sh': Shared, tr': Thread)
    requires ShapeOk(sh) && ThreadOk(sh, tr) && (Publishing(tr.pc) || tr.pc.Release?)
    ensures PublishStep(sh, tr, sh', tr')
  {
    if tr.pc.Publish? || tr.pc.StoreWord? {
      sh', tr' := StoreProceeds(sh, tr);
    } else if tr.pc.Release? {
      sh', tr' := ReleaseProceeds(sh, tr);
    } else if tr.pc.BeginMove? {
      sh', tr' := StartMoveProceeds(sh, tr);
    } else {
      sh', tr' := FinishMoveProceeds(sh, tr);
    }
  }

  /** A thread with a transaction under way spins on a lock or can take its next step. */
  lemma WaitsOrProceeds(s: State, t: nat)
    requires Inv(s) && t < |s.threads| && Active(s.threads[t].pc) && ActionInPlay(s.sh, s.threads[t])
    ensures CanProceed(s, t) || exists l :: WaitsFor(s.sh, s.threads[t], l)
  {
    var sh, tr := s.sh, s.threads[t];
    assert ThreadOk(sh, tr);
    if !exists l :: WaitsFor(sh, tr, l) {
      var sh', tr' := NextOf(sh, tr);
      assert ThreadStep(s, t, sh', tr');
    }
  }

  lemma NextOf(sh: Shared, tr: Thread) returns (sh': Shared, tr': Thread)
    requires ShapeOk(sh) && ThreadOk(sh, tr) && Active(tr.pc) && ActionInPlay(sh, tr)
    requires !exists l :: WaitsFor(sh, tr, l)
    ensures Progress(sh, tr, sh', tr')
  {
    if InBody(tr.pc) {
      sh', tr' := BodyProceeds(sh, tr);
    } else if tr.pc.Acquire? {
      sh', tr' := AcquireProceeds(sh, tr);
    } else if Validating(tr.pc) {
      sh', tr' := ValidationProceeds(sh, tr);
    } else {
      sh', tr' := PublishProceeds(sh, tr);
    }
  }

  /** Once its log is locked a thread never waits: every version access finds the location
      marked as owned. */
  lemma OwnerNeverWaits(s: State, t: nat, l: nat)
    requires Reachable(s) && t < |s.threads| && Numbered(s.threads[t].pc)
    ensures !WaitsFor(s.sh, s.threads[t], l)
  {
    InvReachable(s);
    assert ThreadOk(s.sh, s.threads[t]);
  }

  /** A thread waiting in the read phase holds no lock. */
  lemma ReaderWaitsEmptyHanded(s: State, t: nat, l: nat)
    requires Reachable(s) && t < |s.threads| && WaitsFor(s.sh, s.threads[t], l) && InBody(s.threads[t].pc)
    ensures s.threads[t].taken == []
  {
    InvReachable(s);
    assert ThreadOk(s.sh, s.threads[t]);
  }

  // ---------------------------------------------------------------- the exact condition

  /** The lock mapping and the `TVar`s never change during a run. */
  lemma {:induction false} MappingFixed(run: seq<State>)
    requires Run(run)
    ensures run[|run| - 1].sh.lockOf == run[0].sh.lockOf
    ensures run[|run| - 1].sh.mem.Keys == run[0].sh.mem.Keys
    decreases |run|
  {
    if |run| > 1 {
      var before := run[..|run| - 1];
      MappingFixed(before);
      InvRun(before);
      var s, s' := before[|before| - 1], run[|run| - 1];
      var t: nat, tr' :| ThreadStep(s, t, s'.sh, tr') && s'.threads == s.threads[t := tr'];
      OwnStep(s, t, s'.sh, tr');
    }
  }

  lemma ReachableMapping(s: State)
    requires Reachable(s)
    ensures s.sh.lockOf.Keys == s.sh.mem.Keys
    ensures forall a :: a in s.sh.lockOf ==> s.sh.lockOf[a] == LockIndex(a)
  {
    var run :| Run(run) && run[|run| - 1] == s;
    MappingFixed(run);
  }

  lemma ContiguousRuns(lockOf: map<Addr, nat>)
    requires Contiguous(lockOf.Keys) && forall a :: a in lockOf ==> lockOf[a] == LockIndex(a)
    ensures Runs(lockOf)
  {
  }

  lemma ContiguousDoesNotDeadlock(s: State, D: set<nat>)
    requires Reachable(s) && Contiguous(s.sh.mem.Keys)
    ensures !Deadlocked(s, D)
  {
    InvReachable(s);
    ReachableMapping(s);
    ContiguousRuns(s.sh.lockOf);
    RunsDoNotDeadlock(s, D);
  }

  lemma HoldersReachable(s: State)
    requires Reachable(s)
    ensures Inv(s) && HoldersOk(s)
  {
    var run :| Run(run) && run[|run| - 1] == s;
    HoldersRun(run);
  }

  lemma HolderIsActive(s: State, t: nat, l: nat)
    requires Inv(s) && HeldBy(s, l, t)
    ensures Active(s.threads[t].pc)
  {
    assert ThreadOk(s.sh, s.threads[t]);
  }

  /** A thread that cannot proceed waits for one with a transaction under way. */
  lemma WaitsOnActive(s: State, t: nat) returns (u: nat, l: nat)
    requires Inv(s) && HoldersOk(s) && t < |s.threads| && Active(s.threads[t].pc) && !CanProceed(s, t)
    requires ActionInPlay(s.sh, s.threads[t])
    ensures WaitsOn(s, t, u, l) && Active(s.threads[u].pc)
  {
    WaitsOrProceeds(s, t);
    l :| WaitsFor(s.sh, s.threads[t], l);
    u :| HeldBy(s, l, u);
    HolderIsActive(s, u, l);
  }

  lemma AllStuckDeadlocks(s: State, t0: nat) returns (D: set<nat>)
    requires Inv(s) && HoldersOk(s) && t0 < |s.threads| && Active(s.threads[t0].pc)
    requires forall t :: !CanProceed(s, t)
    requires forall t :: 0 <= t < |s.threads| ==> ActionInPlay(s.sh, s.threads[t])
    ensures Deadlocked(s, D)
  {
    D := set t | 0 <= t < |s.threads| && Active(s.threads[t].pc);
    assert t0 in D;
    forall t | t in D
      ensures WaitsWithin(s, D, t)
    {
      var u, l := WaitsOnActive(s, t);
      assert u in D && WaitsOn(s, t, u, l);
    }
  }

  lemma RetryProceeds(s: State, t: nat)
    requires t < |s.threads| && s.threads[t].pc.Retry?
    ensures CanProceed(s, t)
  {
    var sh, tr := s.sh, s.threads[t];
    var sh', tr' := sh.(now := sh.now + 1), Started(sh, tr.body, tr.call);
    assert Begin(sh, tr, sh', tr');
    assert ThreadStep(s, t, sh', tr');
  }

  /** While a call of `atomically` is under way, some thread can take a step of its call. */
  lemma SomeThreadProceeds(s: State, t0: nat)
    requires Reachable(s) && Contiguous(s.sh.mem.Keys) && t0 < |s.threads| && !s.threads[t0].pc.Idle?
    requires forall t :: 0 <= t < |s.threads| ==> ActionInPlay(s.sh, s.threads[t])
    ensures exists t :: CanProceed(s, t)
  {
    HoldersReachable(s);
    if s.threads[t0].pc.Retry? {
      RetryProceeds(s, t0);
    }
    if forall t :: !CanProceed(s, t) {
      var D := AllStuckDeadlocks(s, t0);
      ContiguousDoesNotDeadlock(s, D);
    }
  }

  // ---------------------------------------------------------------- a reachable deadlock

  lemma Extend(s: State, t: nat, sh': Shared, tr': Thread) returns (s': State)
    requires Reachable(s) && ThreadStep(s, t, sh', tr')
    ensures s' == State(sh', s.threads[t := tr']) && Reachable(s')
  {
    s' := State(sh', s.threads[t := tr']);
    var run :| Run(run) && run[|run| - 1] == s;
    var run' := run + [s'];
    assert Next(s, s');
    forall i | 0 <= i < |run'| - 1
      ensures Next(run'[i], run'[i + 1])
    {
      assert i < |run| - 1 ==> Next(run[i], run[i + 1]);
    }
    assert Run(run') && run'[|run'| - 1] == s';
  }

  function WriteTwo(x: Addr, y: Addr, v: Val): Body {
    trace => if |trace| == 0 then DoPut(x, v) else if |trace| == 1 then DoPut(y, v) else Finish
  }

  /** Staging writes to x and y in an idle thread. */
  lemma StageTwo(sh: Shared, t0: Thread, x: Addr, y: Addr, v: Val)
    returns (sh1: Shared, t1: Thread, t2: Thread, t3: Thread)
    requires t0.pc.Idle? && x in sh.mem && y in sh.mem && x < y
    ensures Begin(sh, t0, sh1, t1) && Stage(sh1, t1, sh1, t2) && Stage(sh1, t2, sh1, t3)
    ensures sh1 == sh.(now := sh.now + 1, calls := sh.calls + [t1.body]) && t3.pc.Running? && t3.body(t3.trace).Finish?
    ensures t3.log.Keys == {x, y} && t3.taken == [] && t3.owned == {}
  {
    t1 := Started(sh, WriteTwo(x, y, v), |sh.calls|);
    sh1 := sh.(now := sh.now + 1, calls := sh.calls + [t1.body]);
    t2 := t1.(log := map[x := Entry(false, Some(v))], trace := [Put(x, v)]);
    t3 := t2.(log := t2.log[y := Entry(false, Some(v))], trace := t2.trace + [Put(y, v)]);
  }

  /** Sorting such a log and taking its first lock. */
  lemma TakeFirst(sh: Shared, t3: Thread, x: Addr, y: Addr) returns (t4: Thread, sh5: Shared, t5: Thread)
    requires x in sh.mem && Unlocked(sh, x) && x < y
    requires t3.pc.Running? && t3.body(t3.trace).Finish? && t3.log.Keys == {x, y} && t3.taken == []
    ensures SortLog(sh, t3, sh, t4) && AcquireLock(sh, t4, sh5, t5)
    ensures sh5 == SetLocked(sh, sh.lockOf[x], true)
    ensures t5.pc == Acquire(1) && t5.order == [x, y] && t5.taken == [sh.lockOf[x]] && t5.log == t3.log
  {
    t4 := t3.(pc := Acquire(0), order := [x, y]);
    sh5 := SetLocked(sh, sh.lockOf[x], true);
    t5 := t4.(pc := Acquire(1), taken := [sh.lockOf[x]], owned := t4.owned + {x});
  }

  ghost predicate HoldsFirst(tr: Thread, l: nat, x: Addr, y: Addr) {
    tr.pc == Acquire(1) && tr.order == [x, y] && tr.taken == [l] && tr.log.Keys == {x, y}
  }

  lemma HaveStaged(s: State, t: nat, x: Addr, y: Addr, v: Val) returns (s': State)
    requires Reachable(s) && t < |s.threads| && s.threads[t].pc.Idle? && x in s.sh.mem && y in s.sh.mem && x < y
    ensures Reachable(s') && |s'.threads| == |s.threads|
    ensures s'.sh.lockOf == s.sh.lockOf && s'.sh.mem == s.sh.mem && s'.sh.words == s.sh.words
    ensures forall u :: 0 <= u < |s.threads| && u != t ==> s'.threads[u] == s.threads[u]
    ensures var tr := s'.threads[t];
      tr.pc.Running? && tr.body(tr.trace).Finish? && tr.log.Keys == {x, y} && tr.taken == []
  {
    var sh1, t1, t2, t3 := StageTwo(s.sh, s.threads[t], x, y, v);
    var s1 := Extend(s, t, sh1, t1);
    var s2 := Extend(s1, t, sh1, t2);
    s' := Extend(s2, t, sh1, t3);
  }

  /** An idle thread can run a body that writes x and y, up to the point where the guard
      holds the lock of x. */
  lemma HoldFirst(s: State, t: nat, x: Addr, y: Addr, v: Val) returns (s': State)
    requires Reachable(s) && t < |s.threads| && s.threads[t].pc.Idle?
    requires x in s.sh.mem && y in s.sh.mem && x < y && Unlocked(s.sh, x)
    ensures Reachable(s') && |s'.threads| == |s.threads| && s'.sh.lockOf == s.sh.lockOf && s'.sh.mem == s.sh.mem
    ensures s'.sh.words == SetLocked(s.sh, s.sh.lockOf[x], true).words
    ensures forall u :: 0 <= u < |s.threads| && u != t ==> s'.threads[u] == s.threads[u]
    ensures HoldsFirst(s'.threads[t], s.sh.lockOf[x], x, y)
  {
    var s3 := HaveStaged(s, t, x, y, v);
    var t4, sh5, t5 := TakeFirst(s3.sh, s3.threads[t], x, y);
    var s4 := Extend(s3, t, s3.sh, t4);
    s' := Extend(s4, t, sh5, t5);
  }

  lemma StartState(vars: set<Addr>, v: Val) returns (s: State)
    ensures Reachable(s) && s.sh.mem.Keys == vars && s.sh.lockOf.Keys == vars && |s.threads| == 2
    ensures s.threads[0].pc.Idle? && s.threads[1].pc.Idle?
    ensures forall a :: a in vars ==> Unlocked(s.sh, a) && s.sh.lockOf[a] == LockIndex(a)
  {
    var idle := Thread(Idle, trace => Finish, map[], 0, 0, [], {}, [], {}, 0, [], {}, {}, 0, 0);
    var sh := Shared(0, seq(LOCKTABLE_SIZE, _ => Word(0, false)), map a | a in vars :: LockIndex(a),
      map a | a in vars :: Cell(v, false, 0), map a | a in vars :: v, [], map[], 0, map[]);
    s := State(sh, [idle, idle]);
    assert sh.mem.Keys == vars && sh.lockOf.Keys == vars && sh.init.Keys == vars;
    InitReachable(s);
  }

  lemma InitReachable(s: State)
    requires Init(s)
    ensures Reachable(s)
  {
    assert Run([s]) && [s][|[s]| - 1] == s;
  }

  lemma CrossedWait(s: State, t: nat, u: nat, x: Addr, y: Addr)
    requires t < |s.threads| && u < |s.threads| && x in s.sh.lockOf && y in s.sh.lockOf && y in s.sh.mem
    requires HoldsFirst(s.threads[t], s.sh.lockOf[x], x, y) && s.threads[u].taken == [s.sh.lockOf[y]]
    requires s.sh.lockOf[x] != s.sh.lockOf[y] && s.sh.lockOf[y] < |s.sh.words| && s.sh.words[s.sh.lockOf[y]].locked
    ensures WaitsOn(s, t, u, s.sh.lockOf[y])
  {
  }

  lemma CrossedDeadlock(s: State, a: Addr, b: Addr, d: Addr)
    requires |s.threads| == 2 && a in s.sh.lockOf && b in s.sh.lockOf && d in s.sh.lockOf && b in s.sh.mem && d in s.sh.mem
    requires s.sh.lockOf[a] == s.sh.lockOf[d] != s.sh.lockOf[b]
    requires HoldsFirst(s.threads[0], s.sh.lockOf[a], a, b) && HoldsFirst(s.threads[1], s.sh.lockOf[b], b, d)
    requires s.sh.lockOf[a] < |s.sh.words| && s.sh.words[s.sh.lockOf[a]].locked
    requires s.sh.lockOf[b] < |s.sh.words| && s.sh.words[s.sh.lockOf[b]].locked
    ensures Deadlocked(s, {0, 1})
  {
    CrossedWait(s, 0, 1, a, b);
    CrossedWait(s, 1, 0, b, d);
    assert WaitsWithin(s, {0, 1}, 0) && WaitsWithin(s, {0, 1}, 1);
  }

  /** If an address lies between two of another lock, two writers can deadlock. */
  lemma CrossingDeadlocks(vars: set<Addr>, a: Addr, b: Addr, d: Addr, v: Val) returns (s: State)
    requires a in vars && b in vars && d in vars && a < b < d
    requires LockIndex(a) == LockIndex(d) && LockIndex(a) != LockIndex(b)
    ensures Reachable(s) && s.sh.mem.Keys == vars && Deadlocked(s, {0, 1})
  {
    var s0 := StartState(vars, v);
    var s1 := HoldFirst(s0, 0, a, b, v);
    s := HoldFirst(s1, 1, b, d, v);
    CrossedDeadlock(s, a, b, d);
  }

  /** Deadlock is impossible over a set of addresses if and only if no address of the set
      lies between two addresses of another lock. */
  lemma DeadlockFreeIffContiguous(vars: set<Addr>, v: Val)
    ensures Contiguous(vars) <==>
      (forall s, D :: Reachable(s) && s.sh.mem.Keys == vars ==> !Deadlocked(s, D))
  {
    if Contiguous(vars) {
      forall s, D | Reachable(s) && s.sh.mem.Keys == vars
        ensures !Deadlocked(s, D)
      {
        ContiguousDoesNotDeadlock(s, D);
      }
    } else {
      var a, b, d :| a in vars && b in vars && d in vars && a < b < d &&
        LockIndex(a) == LockIndex(d) && LockIndex(a) != LockIndex(b);
      var s := CrossingDeadlocks(vars, a, b, d, v);
    }
  }

  /** Addresses in one aligned window of 2^24 bytes are safe. */
  lemma WindowIsContiguous(vars: set<Addr>, w: nat)
    requires forall a :: a in vars ==> a / 0x100_0000 == w
    ensures Contiguous(vars)
  {
    forall a, b, d | a in vars && b in vars && d in vars && a < b < d && LockIndex(a) == LockIndex(d)
      ensures LockIndex(a) == LockIndex(b)
    {
      WindowIndex(a, w);
      WindowIndex(b, w);
      WindowIndex(d, w);
    }
  }

  lemma WindowIndex(a: Addr, w: nat)
    requires a / 0x100_0000 == w
    ensures LockIndex(a) == a / 4 - w * 0x40_0000
  {
  }

  /** Addresses that straddle a window need not be: 0 and 2^24 share a lock that 4 lacks. */
  lemma StraddlingDeadlocks(v: Val) returns (s: State)
    ensures Reachable(s) && s.sh.mem.Keys == {0, 4, 0x100_0000} && Deadlocked(s, {0, 1})
  {
    s := CrossingDeadlocks({0, 4, 0x100_0000}, 0, 4, 0x100_0000, v);
  }
}
