/**
  Each step keeps what is known of the thread that takes it, and changes the shared state
  only as `Guarantee` allows.
 */
module ProtocolSteps {
  import opened Options
  import opened LockTable
  import opened Protocol
  import opened ProtocolInvariant

  ghost predicate OwnOk(sh: Shared, tr: Thread, sh': Shared, tr': Thread)
    requires ShapeOk(sh)
  {
    Guarantee(sh, sh', tr) && ThreadOk(sh', tr')
  }

  lemma NothingShared(sh: Shared, tr: Thread)
    requires ShapeOk(sh)
    ensures Guarantee(sh, sh, tr)
  {
  }

  // ---------------------------------------------------------------- traces

  lemma {:induction false} ConformsMore(body: Body, trace: seq<Op>, fetched: set<(Addr, Val)>, fetched': set<(Addr, Val)>)
    requires Conforms(body, trace, fetched) && fetched <= fetched'
    ensures Conforms(body, trace, fetched')
  {
    if trace != [] {
      ConformsMore(body, trace[..|trace| - 1], fetched, fetched');
    }
  }

  lemma AppendGet(tr: Thread, a: Addr, v: Val, fetched': set<(Addr, Val)>)
    requires Conforms(tr.body, tr.trace, tr.fetched) && tr.fetched <= fetched'
    requires tr.body(tr.trace) == DoGet(a)
    requires if a in Writes(tr.trace) then v == Writes(tr.trace)[a] else (a, v) in fetched'
    ensures Conforms(tr.body, tr.trace + [Get(a, v)], fetched')
    ensures Writes(tr.trace + [Get(a, v)]) == Writes(tr.trace)
  {
    ConformsMore(tr.body, tr.trace, tr.fetched, fetched');
    var trace' := tr.trace + [Get(a, v)];
    assert trace'[..|trace'| - 1] == tr.trace;
  }

  lemma AppendPut(tr: Thread, a: Addr, v: Val)
    requires Conforms(tr.body, tr.trace, tr.fetched)
    requires tr.body(tr.trace) == DoPut(a, v)
    ensures Conforms(tr.body, tr.trace + [Put(a, v)], tr.fetched)
    ensures Writes(tr.trace + [Put(a, v)]) == Writes(tr.trace)[a := v]
  {
    var trace' := tr.trace + [Put(a, v)];
    assert trace'[..|trace'| - 1] == tr.trace;
  }

  // ---------------------------------------------------------------- the body

  lemma BeginOk(sh: Shared, tr: Thread, sh': Shared, tr': Thread)
    requires SharedOk(sh) && ThreadOk(sh, tr) && Begin(sh, tr, sh', tr')
    ensures OwnOk(sh, tr, sh', tr')
  {
    StartedOk(sh, tr, sh', tr');
  }

  lemma StartedOk(sh: Shared, tr: Thread, sh': Shared, tr': Thread)
    requires SharedOk(sh) && ThreadOk(sh, tr) && !Active(tr.pc)
    requires sh' == sh.(now := sh'.now, calls := sh'.calls) && sh.now < sh'.now && tr' == Started(sh, tr'.body, tr'.call)
    ensures OwnOk(sh, tr, sh', tr')
  {
  }

  lemma StageOk(sh: Shared, tr: Thread, sh': Shared, tr': Thread)
    requires ShapeOk(sh) && ThreadOk(sh, tr) && Stage(sh, tr, sh', tr')
    ensures OwnOk(sh, tr, sh', tr')
  {
    NothingShared(sh, tr);
    StageLog(sh, tr, tr');
  }

  lemma StageLog(sh: Shared, tr: Thread, tr': Thread)
    requires ShapeOk(sh) && LogOk(sh, tr) && Stage(sh, tr, sh, tr')
    ensures LogOk(sh, tr')
  {
    var act := tr.body(tr.trace);
    AppendPut(tr, act.addr, act.val);
  }

  lemma RegisterReadOk(sh: Shared, tr: Thread, sh': Shared, tr': Thread)
    requires ShapeOk(sh) && ThreadOk(sh, tr) && RegisterRead(sh, tr, sh', tr')
    ensures OwnOk(sh, tr, sh', tr')
  {
    NothingShared(sh, tr);
    RegisterReadLog(sh, tr, tr');
  }

  lemma RegisterReadLog(sh: Shared, tr: Thread, tr': Thread)
    requires ShapeOk(sh) && LogOk(sh, tr) && RegisterRead(sh, tr, sh, tr')
    ensures LogOk(sh, tr')
  {
  }

  lemma ReadStagedOk(sh: Shared, tr: Thread, sh': Shared, tr': Thread)
    requires ShapeOk(sh) && ThreadOk(sh, tr) && ReadStaged(sh, tr, sh', tr')
    ensures OwnOk(sh, tr, sh', tr')
  {
    NothingShared(sh, tr);
    ReadStagedLog(sh, tr, tr');
  }

  lemma ReadStagedLog(sh: Shared, tr: Thread, tr': Thread)
    requires ShapeOk(sh) && LogOk(sh, tr) && ReadStaged(sh, tr, sh, tr')
    ensures LogOk(sh, tr')
  {
    assert Writes?(tr.log, tr.pc.addr);
    AppendGet(tr, tr.pc.addr, Staged(tr, tr.pc.addr).value, tr.fetched);
  }

  lemma ChooseLoadOk(sh: Shared, tr: Thread, sh': Shared, tr': Thread)
    requires ShapeOk(sh) && ThreadOk(sh, tr) && ChooseLoad(sh, tr, sh', tr')
    ensures OwnOk(sh, tr, sh', tr')
  {
  }

  /** A cell is busy only under a version above the sampled clock, so a copy that starts on
      a busy cell is already doomed. */
  lemma StartLoadOk(sh: Shared, tr: Thread, sh': Shared, tr': Thread)
    requires ShapeOk(sh) && ThreadOk(sh, tr) && StartLoad(sh, tr, sh', tr')
    requires tr.pc.addr in sh.mem && (sh.mem[tr.pc.addr].busy ==> tr.rv < Version(sh, tr.pc.addr))
    ensures OwnOk(sh, tr, sh', tr')
  {
  }

  lemma EndLoadOk(sh: Shared, tr: Thread, v: Val, sh': Shared, tr': Thread)
    requires ShapeOk(sh) && ThreadOk(sh, tr) && EndLoad(sh, tr, v, sh', tr')
    ensures OwnOk(sh, tr, sh', tr')
  {
    NothingShared(sh, tr);
    EndLoadLog(sh, tr, v, tr');
  }

  lemma EndLoadLog(sh: Shared, tr: Thread, v: Val, tr': Thread)
    requires ShapeOk(sh) && LogOk(sh, tr) && EndLoad(sh, tr, v, sh, tr')
    ensures LogOk(sh, tr')
  {
    assert !Writes?(tr.log, tr.pc.addr);
    AppendGet(tr, tr.pc.addr, v, tr'.fetched);
  }

  lemma ChooseCopyOk(sh: Shared, tr: Thread, sh': Shared, tr': Thread)
    requires ShapeOk(sh) && ThreadOk(sh, tr) && ChooseCopy(sh, tr, sh', tr')
    ensures OwnOk(sh, tr, sh', tr')
  {
  }

  lemma CopyLockOk(sh: Shared, tr: Thread, sh': Shared, tr': Thread)
    requires ShapeOk(sh) && ThreadOk(sh, tr) && CopyLock(sh, tr, sh', tr')
    ensures OwnOk(sh, tr, sh', tr')
  {
  }

  lemma EndCopyOk(sh: Shared, tr: Thread, sh': Shared, tr': Thread)
    requires ShapeOk(sh) && ThreadOk(sh, tr) && EndCopy(sh, tr, sh', tr')
    requires !sh.mem[tr.pc.addr].busy
    ensures OwnOk(sh, tr, sh', tr')
  {
    EndCopyLog(sh, tr, sh', tr');
  }

  lemma EndCopyLog(sh: Shared, tr: Thread, sh': Shared, tr': Thread)
    requires ShapeOk(sh) && LogOk(sh, tr) && EndCopy(sh, tr, sh', tr')
    ensures LogOk(sh', tr')
  {
    assert !Writes?(tr.log, tr.pc.addr);
    AppendGet(tr, tr.pc.addr, sh.mem[tr.pc.addr].val, tr'.fetched);
  }

  lemma SortLogOk(sh: Shared, tr: Thread, sh': Shared, tr': Thread)
    requires ShapeOk(sh) && ThreadOk(sh, tr) && SortLog(sh, tr, sh', tr')
    ensures OwnOk(sh, tr, sh', tr')
  {
  }

  // ---------------------------------------------------------------- frames of the commit phase

  ghost predicate SameAttempt(tr: Thread, tr': Thread) {
    tr'.call == tr.call && tr'.drawn == tr.drawn && tr'.body == tr.body && tr'.log == tr.log && tr'.rv == tr.rv && tr'.wv == tr.wv && tr'.order == tr.order &&
    tr'.trace == tr.trace && tr'.fetched == tr.fetched && tr'.seen == tr.seen && tr'.began == tr.began &&
    (tr'.moved == tr.moved || Publishing(tr'.pc))
  }

  ghost predicate SameRecord(sh: Shared, sh': Shared) {
    sh'.mem.Keys == sh.mem.Keys && sh'.history == sh.history && sh'.done == sh.done &&
    sh'.clock == sh.clock && sh'.now == sh.now && sh'.lockOf == sh.lockOf
  }

  lemma FrameLog(sh: Shared, tr: Thread, sh': Shared, tr': Thread)
    requires SameAttempt(tr, tr') && SameRecord(sh, sh') && InCommit(tr.pc) && InCommit(tr'.pc)
    requires Undecided(tr'.pc) ==> Undecided(tr.pc)
    requires LogOk(sh, tr)
    ensures LogOk(sh', tr')
  {
  }

  lemma FrameClock(sh: Shared, tr: Thread, sh': Shared, tr': Thread)
    requires SameAttempt(tr, tr') && SameRecord(sh, sh') && (Numbered(tr'.pc) ==> Numbered(tr.pc))
    requires ClockOk(sh, tr)
    ensures ClockOk(sh', tr')
  {
  }

  lemma FrameCommit(sh: Shared, tr: Thread, sh': Shared, tr': Thread)
    requires SameAttempt(tr, tr') && SameRecord(sh, sh')
    requires Validating(tr.pc) == Validating(tr'.pc) && Publishing(tr.pc) == Publishing(tr'.pc)
    requires !tr.pc.Release? && !tr'.pc.Release?
    requires CommitOk(sh, tr)
    ensures CommitOk(sh', tr')
  {
  }

  // ---------------------------------------------------------------- acquisition

  lemma AcquireLockLocks(sh: Shared, tr: Thread, sh': Shared, tr': Thread)
    requires ShapeOk(sh) && LocksOk(sh, tr) && AcquireLock(sh, tr, sh', tr')
    ensures LocksOk(sh', tr')
  {
    var i := tr.pc.i;
    forall l | l in tr'.taken
      ensures exists j :: 0 <= j < i + 1 && Under(sh.lockOf, tr.order, j, l)
    {
      if l in tr.taken {
        var j :| 0 <= j < i && Under(sh.lockOf, tr.order, j, l);
      } else {
        assert Under(sh.lockOf, tr.order, i, l);
      }
    }
    forall j, l | 0 <= j < i + 1 && Under(sh.lockOf, tr.order, j, l)
      ensures l in tr'.taken
    {
    }
  }

  lemma AcquireLockShares(sh: Shared, tr: Thread, sh': Shared, tr': Thread)
    requires ShapeOk(sh) && AcquireLock(sh, tr, sh', tr')
    ensures Guarantee(sh, sh', tr)
  {
  }

  lemma AcquireLockReads(sh: Shared, tr: Thread, sh': Shared, tr': Thread)
    requires ShapeOk(sh) && ReadsOk(sh, tr) && AcquireLock(sh, tr, sh', tr')
    ensures ReadsOk(sh', tr')
  {
  }

  lemma AcquireLockOk(sh: Shared, tr: Thread, sh': Shared, tr': Thread)
    requires ShapeOk(sh) && ThreadOk(sh, tr) && AcquireLock(sh, tr, sh', tr')
    ensures OwnOk(sh, tr, sh', tr')
  {
    AcquireLockShares(sh, tr, sh', tr');
    AcquireLockThread(sh, tr, sh', tr');
  }

  lemma AcquireLockThread(sh: Shared, tr: Thread, sh': Shared, tr': Thread)
    requires ShapeOk(sh) && ShapeOk(sh') && ThreadOk(sh, tr) && AcquireLock(sh, tr, sh', tr')
    ensures ThreadOk(sh', tr')
  {
    AcquireLockLocks(sh, tr, sh', tr');
    AcquireLockReads(sh, tr, sh', tr');
    FrameLog(sh, tr, sh', tr');
    FrameClock(sh, tr, sh', tr');
  }

  lemma MarkOwnerLocks(sh: Shared, tr: Thread, sh': Shared, tr': Thread)
    requires ShapeOk(sh) && LocksOk(sh, tr) && MarkOwner(sh, tr, sh', tr')
    ensures LocksOk(sh', tr')
  {
    var i := tr.pc.i;
    forall l | l in tr'.taken
      ensures exists j :: 0 <= j < i + 1 && Under(sh.lockOf, tr.order, j, l)
    {
      var j :| 0 <= j < i && Under(sh.lockOf, tr.order, j, l);
    }
    forall j, l | 0 <= j < i + 1 && Under(sh.lockOf, tr.order, j, l)
      ensures l in tr'.taken
    {
      if j == i {
        var j' :| 0 <= j' < i && Under(sh.lockOf, tr.order, j', l);
      }
    }
  }

  lemma MarkOwnerOk(sh: Shared, tr: Thread, sh': Shared, tr': Thread)
    requires ShapeOk(sh) && ThreadOk(sh, tr) && MarkOwner(sh, tr, sh', tr')
    ensures OwnOk(sh, tr, sh', tr')
  {
    NothingShared(sh, tr);
    MarkOwnerThread(sh, tr, sh', tr');
  }

  lemma MarkOwnerThread(sh: Shared, tr: Thread, sh': Shared, tr': Thread)
    requires ShapeOk(sh) && ThreadOk(sh, tr) && MarkOwner(sh, tr, sh', tr')
    ensures ThreadOk(sh', tr')
  {
    MarkOwnerLocks(sh, tr, sh', tr');
    FrameLog(sh, tr, sh', tr');
    FrameClock(sh, tr, sh', tr');
  }

  lemma IncrementLocks(sh: Shared, tr: Thread, sh': Shared, tr': Thread)
    requires ShapeOk(sh) && LocksOk(sh, tr) && LogOk(sh, tr) && Increment(sh, tr, sh', tr')
    ensures LocksOk(sh', tr')
  {
    forall a | a in tr.log
      ensures a in tr.owned && sh.lockOf[a] in tr.taken
    {
      var j :| 0 <= j < |tr.order| && tr.order[j] == a;
      assert Under(sh.lockOf, tr.order, j, sh.lockOf[a]);
    }
  }

  lemma IncrementOk(sh: Shared, tr: Thread, sh': Shared, tr': Thread)
    requires SharedOk(sh) && ThreadOk(sh, tr) && Increment(sh, tr, sh', tr')
    ensures OwnOk(sh, tr, sh', tr')
  {
    IncrementShares(sh, tr, sh', tr');
    IncrementLocks(sh, tr, sh', tr');
  }

  lemma IncrementShares(sh: Shared, tr: Thread, sh': Shared, tr': Thread)
    requires ShapeOk(sh) && Increment(sh, tr, sh', tr')
    ensures Guarantee(sh, sh', tr)
  {
  }

  // ---------------------------------------------------------------- validation

  lemma SlowPathOk(sh: Shared, tr: Thread, sh': Shared, tr': Thread)
    requires ShapeOk(sh) && ThreadOk(sh, tr) && SlowPath(sh, tr, sh', tr')
    ensures OwnOk(sh, tr, sh', tr')
  {
    NothingShared(sh, tr);
    FrameLog(sh, tr, sh', tr');
    FrameClock(sh, tr, sh', tr');
  }

  lemma CheckFailOk(sh: Shared, tr: Thread, sh': Shared, tr': Thread)
    requires ShapeOk(sh) && ThreadOk(sh, tr) && CheckFail(sh, tr, sh', tr')
    ensures OwnOk(sh, tr, sh', tr')
  {
    NothingShared(sh, tr);
    FrameLog(sh, tr, sh', tr');
    FrameClock(sh, tr, sh', tr');
  }

  lemma CheckPassReads(sh: Shared, tr: Thread, sh': Shared, tr': Thread)
    requires ShapeOk(sh) && ReadsOk(sh, tr) && CheckPass(sh, tr, sh', tr')
    ensures ReadsOk(sh', tr')
  {
    forall j | 0 <= j < tr'.pc.i && Indexed(sh, tr', j)
      ensures ValidatesAt(sh, tr', j)
    {
      assert Indexed(sh, tr, j);
    }
  }

  lemma CheckPassOk(sh: Shared, tr: Thread, sh': Shared, tr': Thread)
    requires ShapeOk(sh) && ThreadOk(sh, tr) && CheckPass(sh, tr, sh', tr')
    ensures OwnOk(sh, tr, sh', tr')
  {
    NothingShared(sh, tr);
    CheckPassReads(sh, tr, sh', tr');
    FrameLog(sh, tr, sh', tr');
    FrameClock(sh, tr, sh', tr');
    FrameCommit(sh, tr, sh', tr');
  }

  /** Filing the attempt in the history, on either path. */
  lemma CommitsOk(sh: Shared, tr: Thread, sh': Shared, tr': Thread)
    requires SharedOk(sh) && ThreadOk(sh, tr) && Validating(tr.pc) && Commits(sh, tr, sh', tr')
    requires forall a :: a in tr.log && a in sh.mem ==> !sh.mem[a].busy
    ensures OwnOk(sh, tr, sh', tr')
  {
    CommitsShares(sh, tr, sh', tr');
    CommitsRecord(sh, tr, sh', tr');
  }

  lemma CommitsShares(sh: Shared, tr: Thread, sh': Shared, tr': Thread)
    requires ShapeOk(sh) && HoldingOk(sh, tr) && Validating(tr.pc) && Commits(sh, tr, sh', tr')
    ensures Guarantee(sh, sh', tr)
  {
  }

  lemma CommitsRecord(sh: Shared, tr: Thread, sh': Shared, tr': Thread)
    requires HistoryOk(sh) && LogOk(sh, tr) && CommitOk(sh, tr) && Validating(tr.pc) && Commits(sh, tr, sh', tr')
    ensures LogOk(sh', tr') && CommitOk(sh', tr')
  {
  }

  // ---------------------------------------------------------------- write-back

  lemma SkipUnwrittenLocks(sh: Shared, tr: Thread, sh': Shared, tr': Thread)
    requires ShapeOk(sh) && LocksOk(sh, tr) && SkipUnwritten(sh, tr, sh', tr')
    ensures LocksOk(sh', tr')
  {
  }

  lemma SkipUnwrittenVersions(sh: Shared, tr: Thread, sh': Shared, tr': Thread)
    requires ShapeOk(sh) && ShapeOk(sh') && LogOk(sh, tr) && VersionsOk(sh, tr) && SkipUnwritten(sh, tr, sh', tr')
    ensures VersionsOk(sh', tr')
  {
  }

  lemma SkipUnwrittenPlaces(sh: Shared, tr: Thread, sh': Shared, tr': Thread)
    requires ShapeOk(sh) && LogOk(sh, tr) && PublishOk(sh, tr) && SkipUnwritten(sh, tr, sh', tr')
    ensures PublishOk(sh', tr')
  {
  }

  lemma SkipUnwrittenOk(sh: Shared, tr: Thread, sh': Shared, tr': Thread)
    requires ShapeOk(sh) && ThreadOk(sh, tr) && SkipUnwritten(sh, tr, sh', tr')
    ensures OwnOk(sh, tr, sh', tr')
  {
    NothingShared(sh, tr);
    SkipUnwrittenLocks(sh, tr, sh', tr');
    SkipUnwrittenVersions(sh, tr, sh', tr');
    SkipUnwrittenPlaces(sh, tr, sh', tr');
    FrameLog(sh, tr, sh', tr');
    FrameClock(sh, tr, sh', tr');
    FrameCommit(sh, tr, sh', tr');
  }

  lemma ReadWordLocks(sh: Shared, tr: Thread, sh': Shared, tr': Thread)
    requires ShapeOk(sh) && LocksOk(sh, tr) && ReadWord(sh, tr, sh', tr')
    ensures LocksOk(sh', tr')
  {
  }

  lemma ReadWordVersions(sh: Shared, tr: Thread, sh': Shared, tr': Thread)
    requires ShapeOk(sh) && ShapeOk(sh') && LogOk(sh, tr) && VersionsOk(sh, tr) && ReadWord(sh, tr, sh', tr')
    ensures VersionsOk(sh', tr')
  {
  }

  lemma ReadWordPlaces(sh: Shared, tr: Thread, sh': Shared, tr': Thread)
    requires ShapeOk(sh) && LogOk(sh, tr) && PublishOk(sh, tr) && ReadWord(sh, tr, sh', tr')
    ensures PublishOk(sh', tr')
  {
  }

  lemma ReadWordOk(sh: Shared, tr: Thread, sh': Shared, tr': Thread)
    requires ShapeOk(sh) && ThreadOk(sh, tr) && ReadWord(sh, tr, sh', tr')
    ensures OwnOk(sh, tr, sh', tr')
  {
    NothingShared(sh, tr);
    ReadWordLocks(sh, tr, sh', tr');
    ReadWordVersions(sh, tr, sh', tr');
    ReadWordPlaces(sh, tr, sh', tr');
    FrameLog(sh, tr, sh', tr');
    FrameClock(sh, tr, sh', tr');
    FrameCommit(sh, tr, sh', tr');
  }

  lemma WriteWordShares(sh: Shared, tr: Thread, sh': Shared, tr': Thread)
    requires ShapeOk(sh) && LocksOk(sh, tr) && LogOk(sh, tr) && VersionsOk(sh, tr) && WriteWord(sh, tr, sh', tr')
    ensures Guarantee(sh, sh', tr)
  {
  }

  lemma WriteWordLocks(sh: Shared, tr: Thread, sh': Shared, tr': Thread)
    requires ShapeOk(sh) && LocksOk(sh, tr) && VersionsOk(sh, tr) && WriteWord(sh, tr, sh', tr')
    ensures LocksOk(sh', tr')
  {
  }

  lemma WriteWordVersions(sh: Shared, tr: Thread, sh': Shared, tr': Thread)
    requires ShapeOk(sh) && ShapeOk(sh') && LogOk(sh, tr) && VersionsOk(sh, tr) && WriteWord(sh, tr, sh', tr')
    ensures VersionsOk(sh', tr')
  {
  }

  lemma WriteWordPlaces(sh: Shared, tr: Thread, sh': Shared, tr': Thread)
    requires ShapeOk(sh) && LogOk(sh, tr) && PublishOk(sh, tr) && WriteWord(sh, tr, sh', tr')
    ensures PublishOk(sh', tr')
  {
  }

  lemma WriteWordOk(sh: Shared, tr: Thread, sh': Shared, tr': Thread)
    requires ShapeOk(sh) && ThreadOk(sh, tr) && WriteWord(sh, tr, sh', tr')
    ensures OwnOk(sh, tr, sh', tr')
  {
    WriteWordShares(sh, tr, sh', tr');
    WriteWordLocks(sh, tr, sh', tr');
    WriteWordVersions(sh, tr, sh', tr');
    WriteWordPlaces(sh, tr, sh', tr');
    FrameLog(sh, tr, sh', tr');
    FrameClock(sh, tr, sh', tr');
    FrameCommit(sh, tr, sh', tr');
  }

  lemma StartMoveShares(sh: Shared, tr: Thread, garbage: Val, sh': Shared, tr': Thread)
    requires ShapeOk(sh) && LocksOk(sh, tr) && LogOk(sh, tr) && VersionsOk(sh, tr) && StartMove(sh, tr, garbage, sh', tr')
    ensures Guarantee(sh, sh', tr)
  {
  }

  lemma StartMoveLocks(sh: Shared, tr: Thread, garbage: Val, sh': Shared, tr': Thread)
    requires ShapeOk(sh) && LocksOk(sh, tr) && StartMove(sh, tr, garbage, sh', tr')
    ensures LocksOk(sh', tr')
  {
  }

  lemma StartMoveVersions(sh: Shared, tr: Thread, garbage: Val, sh': Shared, tr': Thread)
    requires ShapeOk(sh) && ShapeOk(sh') && LogOk(sh, tr) && VersionsOk(sh, tr) && StartMove(sh, tr, garbage, sh', tr')
    ensures VersionsOk(sh', tr')
  {
  }

  lemma StartMovePlaces(sh: Shared, tr: Thread, garbage: Val, sh': Shared, tr': Thread)
    requires ShapeOk(sh) && LogOk(sh, tr) && PublishOk(sh, tr) && StartMove(sh, tr, garbage, sh', tr')
    ensures PublishOk(sh', tr')
  {
  }

  lemma StartMoveOk(sh: Shared, tr: Thread, garbage: Val, sh': Shared, tr': Thread)
    requires ShapeOk(sh) && ThreadOk(sh, tr) && StartMove(sh, tr, garbage, sh', tr')
    ensures OwnOk(sh, tr, sh', tr')
  {
    StartMoveShares(sh, tr, garbage, sh', tr');
    StartMoveLocks(sh, tr, garbage, sh', tr');
    StartMoveVersions(sh, tr, garbage, sh', tr');
    StartMovePlaces(sh, tr, garbage, sh', tr');
    FrameLog(sh, tr, sh', tr');
    FrameClock(sh, tr, sh', tr');
    FrameCommit(sh, tr, sh', tr');
  }

  lemma FinishMoveShares(sh: Shared, tr: Thread, sh': Shared, tr': Thread)
    requires ShapeOk(sh) && LocksOk(sh, tr) && LogOk(sh, tr) && VersionsOk(sh, tr) && FinishMove(sh, tr, sh', tr')
    ensures Guarantee(sh, sh', tr)
  {
  }

  lemma FinishMoveLocks(sh: Shared, tr: Thread, sh': Shared, tr': Thread)
    requires ShapeOk(sh) && LocksOk(sh, tr) && FinishMove(sh, tr, sh', tr')
    ensures LocksOk(sh', tr')
  {
  }

  lemma FinishMoveVersions(sh: Shared, tr: Thread, sh': Shared, tr': Thread)
    requires ShapeOk(sh) && ShapeOk(sh') && LogOk(sh, tr) && VersionsOk(sh, tr) && FinishMove(sh, tr, sh', tr')
    ensures VersionsOk(sh', tr')
  {
  }

  lemma FinishMovePlaces(sh: Shared, tr: Thread, sh': Shared, tr': Thread)
    requires ShapeOk(sh) && LogOk(sh, tr) && PublishOk(sh, tr) && FinishMove(sh, tr, sh', tr')
    ensures PublishOk(sh', tr')
  {
  }

  lemma FinishMoveOk(sh: Shared, tr: Thread, sh': Shared, tr': Thread)
    requires ShapeOk(sh) && ThreadOk(sh, tr) && FinishMove(sh, tr, sh', tr')
    ensures OwnOk(sh, tr, sh', tr')
  {
    FinishMoveShares(sh, tr, sh', tr');
    FinishMoveLocks(sh, tr, sh', tr');
    FinishMoveVersions(sh, tr, sh', tr');
    FinishMovePlaces(sh, tr, sh', tr');
    FrameLog(sh, tr, sh', tr');
    FrameClock(sh, tr, sh', tr');
    FrameCommit(sh, tr, sh', tr');
  }

  lemma PublishDoneOk(sh: Shared, tr: Thread, sh': Shared, tr': Thread)
    requires ShapeOk(sh) && ThreadOk(sh, tr) && PublishDone(sh, tr, sh', tr')
    ensures OwnOk(sh, tr, sh', tr')
  {
    FrameLog(sh, tr, sh', tr');
    FrameClock(sh, tr, sh', tr');
  }

  // ---------------------------------------------------------------- release

  lemma ReleaseOneOk(sh: Shared, tr: Thread, sh': Shared, tr': Thread)
    requires ShapeOk(sh) && ThreadOk(sh, tr) && ReleaseOne(sh, tr, sh', tr')
    ensures OwnOk(sh, tr, sh', tr')
  {
    ReleaseOneShares(sh, tr, sh', tr');
  }

  lemma ReleaseOneShares(sh: Shared, tr: Thread, sh': Shared, tr': Thread)
    requires ShapeOk(sh) && ReleaseOne(sh, tr, sh', tr')
    ensures Guarantee(sh, sh', tr)
  {
    assert tr.taken[|tr.taken| - 1] in tr.taken;
  }

  lemma EndAttemptOk(sh: Shared, tr: Thread, sh': Shared, tr': Thread)
    requires ShapeOk(sh) && ThreadOk(sh, tr) && EndAttempt(sh, tr, sh', tr')
    ensures OwnOk(sh, tr, sh', tr')
  {
  }
}
