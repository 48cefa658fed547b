/** Every reachable state of the protocol satisfies `Inv`. */
module ProtocolProof {
  import opened Options
  import opened LockTable
  import opened Protocol
  import opened ProtocolInvariant
  import opened ProtocolSteps

  // ---------------------------------------------------------------- committed values

  lemma {:induction false} ValAtFlat(init: map<Addr, Val>, h: map<nat, Txn>, a: Addr, m: nat, n: nat)
    requires a in init && m <= n
    requires forall w :: w in h && m <= w < n ==> !Writes?(h[w].log, a)
    ensures ValAt(init, h, a, n) == ValAt(init, h, a, m)
  {
    if m < n {
      ValAtFlat(init, h, a, m, n - 1);
    }
  }

  /** A new transaction that does not write `a`, or comes later, is invisible. */
  lemma {:induction false} ValAtSkips(init: map<Addr, Val>, h: map<nat, Txn>, w: nat, tx: Txn, a: Addr, n: nat)
    requires a in init && w !in h
    requires n <= w || !Writes?(tx.log, a)
    ensures ValAt(init, h[w := tx], a, n) == ValAt(init, h, a, n)
  {
    if n > 0 {
      ValAtSkips(init, h, w, tx, a, n - 1);
    }
  }

  // ---------------------------------------------------------------- pairs

  lemma PairsKept(lockOf: map<Addr, nat>, tr: Thread, tr': Thread, u: Thread)
    requires PairOk(lockOf, tr, u) && PairOk(lockOf, u, tr)
    requires forall l :: l in tr'.taken ==> l in tr.taken
    requires Numbered(tr'.pc) ==> Numbered(tr.pc) && tr'.wv == tr.wv
    requires Undecided(tr'.pc) ==> tr'.seen == {} || (Undecided(tr.pc) && tr'.rv == tr.rv && tr'.seen <= tr.seen)
    ensures PairOk(lockOf, tr', u) && PairOk(lockOf, u, tr')
  {
  }

  /** Seeing a word unlocked: whoever has drawn a write version does not hold that lock. */
  lemma PairsSeeing(sh: Shared, tr: Thread, tr': Thread, u: Thread, a: Addr)
    requires PairOk(sh.lockOf, tr, u) && PairOk(sh.lockOf, u, tr) && LocksOk(sh, u)
    requires Unlocked(sh, a) && tr'.taken == tr.taken && InBody(tr.pc) && InBody(tr'.pc)
    requires tr'.rv == tr.rv && tr'.seen <= tr.seen + {a}
    ensures PairOk(sh.lockOf, tr', u) && PairOk(sh.lockOf, u, tr')
  {
    assert sh.lockOf[a] !in u.taken;
  }

  lemma PairsLocking(sh: Shared, tr: Thread, tr': Thread, u: Thread, l: nat)
    requires PairOk(sh.lockOf, tr, u) && PairOk(sh.lockOf, u, tr) && LocksOk(sh, u)
    requires l < |sh.words| && !sh.words[l].locked && tr'.taken == tr.taken + [l]
    requires Undecided(tr.pc) && Undecided(tr'.pc) && !Numbered(tr'.pc) && tr'.rv == tr.rv && tr'.seen == tr.seen
    ensures PairOk(sh.lockOf, tr', u) && PairOk(sh.lockOf, u, tr')
  {
    assert l !in u.taken;
  }

  lemma PairsIncrement(sh: Shared, tr: Thread, sh': Shared, tr': Thread, u: Thread)
    requires ShapeOk(sh) && PairOk(sh.lockOf, tr, u) && PairOk(sh.lockOf, u, tr) && ThreadOk(sh, u)
    requires Increment(sh, tr, sh', tr')
    ensures PairOk(sh.lockOf, tr', u) && PairOk(sh.lockOf, u, tr')
  {
  }

  lemma PairsBody(sh: Shared, tr: Thread, sh': Shared, tr': Thread, u: Thread)
    requires PairOk(sh.lockOf, tr, u) && PairOk(sh.lockOf, u, tr) && LocksOk(sh, u)
    requires BodyStep(sh, tr, sh', tr')
    ensures PairOk(sh.lockOf, tr', u) && PairOk(sh.lockOf, u, tr')
  {
    if ReadStaged(sh, tr, sh', tr') || ChooseLoad(sh, tr, sh', tr') || ChooseCopy(sh, tr, sh', tr') {
      PairsSeeing(sh, tr, tr', u, tr.pc.addr);
    } else if CopyLock(sh, tr, sh', tr') {
      assert tr'.taken == [sh.lockOf[tr.pc.addr]];
      assert sh.lockOf[tr.pc.addr] !in u.taken;
    } else {
      PairsKept(sh.lockOf, tr, tr', u);
    }
  }

  lemma PairsCommit(sh: Shared, tr: Thread, sh': Shared, tr': Thread, u: Thread)
    requires ShapeOk(sh) && PairOk(sh.lockOf, tr, u) && PairOk(sh.lockOf, u, tr) && ThreadOk(sh, u)
    requires CommitStep(sh, tr, sh', tr')
    ensures PairOk(sh.lockOf, tr', u) && PairOk(sh.lockOf, u, tr')
  {
    if AcquireLock(sh, tr, sh', tr') {
      PairsLocking(sh, tr, tr', u, sh.lockOf[tr.order[tr.pc.i]]);
    } else if Increment(sh, tr, sh', tr') {
      PairsIncrement(sh, tr, sh', tr', u);
    } else {
      PairsKept(sh.lockOf, tr, tr', u);
    }
  }

  lemma PairsPublish(sh: Shared, tr: Thread, sh': Shared, tr': Thread, u: Thread)
    requires PairOk(sh.lockOf, tr, u) && PairOk(sh.lockOf, u, tr)
    requires PublishStep(sh, tr, sh', tr')
    ensures PairOk(sh.lockOf, tr', u) && PairOk(sh.lockOf, u, tr')
  {
    PairsKept(sh.lockOf, tr, tr', u);
  }

  // ---------------------------------------------------------------- shared state

  /** Steps that leave versions, history and clock alone. */
  lemma SharedKept(sh: Shared, sh': Shared)
    requires SharedOk(sh) && ShapeOk(sh')
    requires sh'.clock == sh.clock && sh'.lockOf == sh.lockOf && sh'.init == sh.init
    requires sh'.history == sh.history && sh'.done == sh.done && sh.now <= sh'.now
    requires |sh'.words| == |sh.words| && forall l :: 0 <= l < |sh.words| ==> sh'.words[l].version == sh.words[l].version
    ensures SharedOk(sh')
  {
    forall l | 0 <= l < |sh'.words|
      ensures Witness(sh', l)
    {
      assert Witness(sh, l);
    }
    forall w | w in sh'.history
      ensures TxnOk(sh', w) && ReadsLatest(sh', w)
    {
      assert TxnOk(sh, w) && ReadsLatest(sh, w);
    }
  }

  lemma SharedIncrement(sh: Shared, tr: Thread, sh': Shared, tr': Thread)
    requires SharedOk(sh) && Increment(sh, tr, sh', tr')
    ensures SharedOk(sh')
  {
    forall l | 0 <= l < |sh'.words|
      ensures Witness(sh', l)
    {
      assert Witness(sh, l);
    }
    forall w | w in sh'.history
      ensures TxnOk(sh', w) && ReadsLatest(sh', w)
    {
      assert TxnOk(sh, w) && ReadsLatest(sh, w);
    }
  }

  lemma SharedWriteWord(sh: Shared, tr: Thread, sh': Shared, tr': Thread)
    requires SharedOk(sh) && ThreadOk(sh, tr) && WriteWord(sh, tr, sh', tr')
    ensures SharedOk(sh')
  {
    var l0 := sh.lockOf[tr.order[tr.pc.i]];
    forall l | 0 <= l < |sh'.words|
      ensures sh'.words[l].version <= sh'.clock && Witness(sh', l)
    {
      if l == l0 {
        assert Writes?(sh'.history[tr.wv].log, tr.order[tr.pc.i]);
      } else {
        assert Witness(sh, l);
      }
    }
    forall w | w in sh'.history
      ensures TxnOk(sh', w) && ReadsLatest(sh', w)
    {
      assert TxnOk(sh, w) && ReadsLatest(sh, w);
    }
  }

  lemma SharedEnd(sh: Shared, tr: Thread, sh': Shared, tr': Thread)
    requires SharedOk(sh) && ThreadOk(sh, tr) && EndAttempt(sh, tr, sh', tr')
    ensures SharedOk(sh')
  {
    forall l | 0 <= l < |sh'.words|
      ensures Witness(sh', l)
    {
      assert Witness(sh, l);
    }
    forall w | w in sh'.history
      ensures TxnOk(sh', w) && ReadsLatest(sh', w)
    {
      assert TxnOk(sh, w) && ReadsLatest(sh, w);
    }
  }

  // ---------------------------------------------------------------- committing

  /** What the holder of all locks of its log fetched is what the writers below its write
      version left there. */
  ghost predicate Fetched(sh: Shared, tr: Thread) {
    forall a, v :: (a, v) in tr.fetched && a in sh.init ==> v == ValAt(sh.init, sh.history, a, tr.wv)
  }

  lemma CommitsHistory(sh: Shared, tr: Thread, sh': Shared, tr': Thread)
    requires SharedOk(sh) && ThreadOk(sh, tr) && Validating(tr.pc) && Commits(sh, tr, sh', tr')
    requires Fetched(sh, tr)
    ensures HistoryOk(sh')
  {
    forall w | w in sh'.history
      ensures TxnOk(sh', w) && ReadsLatest(sh', w)
    {
      if w in sh.history {
        assert TxnOk(sh, w) && ReadsLatest(sh, w);
        forall a, v | (a, v) in sh.history[w].fetched && a in sh.init
          ensures v == ValAt(sh.init, sh'.history, a, w)
        {
          ValAtSkips(sh.init, sh.history, tr.wv, TxnOf(tr), a, w);
        }
      } else {
        forall a, v | (a, v) in tr.fetched && a in sh.init
          ensures v == ValAt(sh.init, sh'.history, a, w)
        {
          ValAtSkips(sh.init, sh.history, tr.wv, TxnOf(tr), a, w);
        }
      }
    }
  }

  lemma SharedCommits(sh: Shared, tr: Thread, sh': Shared, tr': Thread)
    requires SharedOk(sh) && ThreadOk(sh, tr) && Validating(tr.pc) && Commits(sh, tr, sh', tr')
    requires Fetched(sh, tr)
    ensures SharedOk(sh')
  {
    CommitsHistory(sh, tr, sh', tr');
    CommitsWords(sh, tr, sh', tr');
  }

  lemma CommitsWords(sh: Shared, tr: Thread, sh': Shared, tr': Thread)
    requires ShapeOk(sh) && WordsOk(sh) && tr.wv !in sh.history && Commits(sh, tr, sh', tr')
    ensures ShapeOk(sh') && WordsOk(sh')
  {
    forall l | 0 <= l < |sh'.words|
      ensures Witness(sh', l)
    {
      assert Witness(sh, l);
    }
  }

  // ---------------------------------------------------------------- who may be writing back

  /** A write-back into `a` is pending only in a thread that holds the lock of `a`. */
  lemma HolderQuiet(s: State, t: nat, a: Addr)
    requires Inv(s) && t < |s.threads| && a in s.sh.lockOf
    requires s.sh.lockOf[a] in s.threads[t].taken && !Pending(s.threads[t], a)
    ensures Quiet(s, a)
  {
    forall u | 0 <= u < |s.threads|
      ensures !Pending(s.threads[u], a)
    {
      if u != t {
        assert ThreadOk(s.sh, s.threads[u]);
        assert PairOk(s.sh.lockOf, s.threads[t], s.threads[u]);
      }
    }
  }

  /** Whoever sampled the clock before seeing the lock free cannot trust a busy cell. */
  lemma BusyIsNewer(sh: Shared, u: Thread, tr: Thread, a: Addr)
    requires ShapeOk(sh) && LocksOk(sh, u) && VersionsOk(sh, u) && PublishOk(sh, u)
    requires PairOk(sh.lockOf, u, tr) && Pending(u, a)
    requires a in sh.mem && sh.mem[a].busy && Undecided(tr.pc) && a in tr.seen
    ensures tr.rv < Version(sh, a)
  {
  }

  /** What a thread fetching from memory relies on. */
  ghost predicate FetchOk(sh: Shared, tr: Thread)
    requires ShapeOk(sh)
  {
    (tr.pc.WantLoad? && tr.pc.addr in sh.mem && sh.mem[tr.pc.addr].busy ==> tr.rv < Version(sh, tr.pc.addr)) &&
    (tr.pc.Copy? && tr.pc.addr in sh.mem ==> !sh.mem[tr.pc.addr].busy)
  }

  lemma WriterOf(s: State, a: Addr) returns (u: nat)
    requires ShapeOk(s.sh) && MemoryOk(s) && a in s.sh.mem && s.sh.mem[a].busy
    ensures u < |s.threads| && Pending(s.threads[u], a)
  {
    u :| 0 <= u < |s.threads| && Pending(s.threads[u], a);
  }

  lemma LoadsWhatItSaw(s: State, t: nat)
    requires Inv(s) && t < |s.threads| && s.threads[t].pc.WantLoad?
    ensures s.threads[t].pc.addr in s.threads[t].seen
  {
    assert ThreadOk(s.sh, s.threads[t]);
  }

  lemma LoadIsSafe(s: State, t: nat)
    requires Inv(s) && t < |s.threads|
    requires var tr := s.threads[t]; tr.pc.WantLoad? && tr.pc.addr in tr.seen
    requires var a := s.threads[t].pc.addr; a in s.sh.mem && s.sh.mem[a].busy
    ensures s.threads[t].rv < Version(s.sh, s.threads[t].pc.addr)
  {
    var u := WriterOf(s, s.threads[t].pc.addr);
    BusyIsNewer(s.sh, s.threads[u], s.threads[t], s.threads[t].pc.addr);
  }

  lemma CopyIsSafe(s: State, t: nat)
    requires Inv(s) && t < |s.threads| && s.threads[t].pc.Copy? && s.threads[t].pc.addr in s.sh.mem
    ensures !s.sh.mem[s.threads[t].pc.addr].busy
  {
    assert ThreadOk(s.sh, s.threads[t]);
    HolderQuiet(s, t, s.threads[t].pc.addr);
  }

  lemma FetchIsSafe(s: State, t: nat)
    requires Inv(s) && t < |s.threads|
    ensures FetchOk(s.sh, s.threads[t])
  {
    var tr := s.threads[t];
    if tr.pc.WantLoad? && tr.pc.addr in s.sh.mem && s.sh.mem[tr.pc.addr].busy {
      LoadsWhatItSaw(s, t);
      LoadIsSafe(s, t);
    } else if tr.pc.Copy? && tr.pc.addr in s.sh.mem {
      CopyIsSafe(s, t);
    }
  }

  /** No transaction at or above the write version of a holder of all locks wrote to its log. */
  lemma NoLaterWriter(sh: Shared, tr: Thread, a: Addr)
    requires ShapeOk(sh) && BoundOk(sh) && CommitOk(sh, tr) && tr.wv <= sh.clock
    requires Validating(tr.pc) && a in tr.log && a in sh.init
    ensures ValAt(sh.init, sh.history, a, sh.clock + 1) == ValAt(sh.init, sh.history, a, tr.wv)
  {
    forall w | w in sh.history && tr.wv <= w < sh.clock + 1
      ensures !Writes?(sh.history[w].log, a)
    {
      assert Apart(sh.lockOf, tr.log, sh.history[w].log);
    }
    ValAtFlat(sh.init, sh.history, a, tr.wv, sh.clock + 1);
  }

  /** Validation makes every fetched value the one left by the writers below. */
  lemma ValidatedIsLatest(s: State, t: nat)
    requires Inv(s) && t < |s.threads| && Validating(s.threads[t].pc)
    requires forall a :: a in s.threads[t].log && a in s.sh.lockOf && s.threads[t].log[a].read ==>
      Version(s.sh, a) <= s.threads[t].rv
    ensures Fetched(s.sh, s.threads[t])
  {
    var tr := s.threads[t];
    assert ThreadOk(s.sh, tr);
    forall a, v | (a, v) in tr.fetched && a in s.sh.init
      ensures v == ValAt(s.sh.init, s.sh.history, a, tr.wv)
    {
      FetchedIsLatest(s, t, a, v);
    }
  }

  lemma FetchedIsLatest(s: State, t: nat, a: Addr, v: Val)
    requires Inv(s) && t < |s.threads| && ThreadOk(s.sh, s.threads[t]) && Validating(s.threads[t].pc)
    requires (a, v) in s.threads[t].fetched && a in s.sh.init && Version(s.sh, a) <= s.threads[t].rv
    ensures v == ValAt(s.sh.init, s.sh.history, a, s.threads[t].wv)
  {
    HolderQuiet(s, t, a);
    NoLaterWriter(s.sh, s.threads[t], a);
  }

  lemma ValidatorsSeeQuiet(s: State, t: nat)
    requires Inv(s) && t < |s.threads| && Validating(s.threads[t].pc)
    ensures forall a :: a in s.threads[t].log && a in s.sh.mem ==> !s.sh.mem[a].busy
  {
    assert ThreadOk(s.sh, s.threads[t]);
    forall a | a in s.threads[t].log && a in s.sh.mem
      ensures !s.sh.mem[a].busy
    {
      HolderQuiet(s, t, a);
    }
  }

  /** On the fast path no version can exceed the sampled clock. */
  lemma FastPathValidates(s: State, t: nat)
    requires Inv(s) && t < |s.threads| && s.threads[t].pc.Decide? && s.threads[t].wv == s.threads[t].rv + 1
    ensures forall a :: a in s.threads[t].log && a in s.sh.lockOf ==> Version(s.sh, a) <= s.threads[t].rv
  {
    assert ThreadOk(s.sh, s.threads[t]);
  }

  lemma CheckedValidates(s: State, t: nat)
    requires Inv(s) && t < |s.threads| && s.threads[t].pc.Check? && s.threads[t].pc.i == |s.threads[t].order|
    ensures forall a :: a in s.threads[t].log && a in s.sh.lockOf && s.threads[t].log[a].read ==>
      Version(s.sh, a) <= s.threads[t].rv
  {
    var tr := s.threads[t];
    assert ThreadOk(s.sh, tr);
    forall a | a in tr.log && a in s.sh.lockOf && tr.log[a].read
      ensures Version(s.sh, a) <= tr.rv
    {
      var j :| 0 <= j < |tr.order| && tr.order[j] == a;
      assert Indexed(s.sh, tr, j) && ValidatesAt(s.sh, tr, j);
    }
  }

  // ---------------------------------------------------------------- one step, all threads

  lemma OwnBody(sh: Shared, tr: Thread, sh': Shared, tr': Thread)
    requires ShapeOk(sh) && ThreadOk(sh, tr) && FetchOk(sh, tr) && BodyStep(sh, tr, sh', tr')
    ensures OwnOk(sh, tr, sh', tr')
  {
    if Stage(sh, tr, sh', tr') {
      StageOk(sh, tr, sh', tr');
    } else if RegisterRead(sh, tr, sh', tr') {
      RegisterReadOk(sh, tr, sh', tr');
    } else if ReadStaged(sh, tr, sh', tr') {
      ReadStagedOk(sh, tr, sh', tr');
    } else if ChooseLoad(sh, tr, sh', tr') {
      ChooseLoadOk(sh, tr, sh', tr');
    } else if StartLoad(sh, tr, sh', tr') {
      StartLoadOk(sh, tr, sh', tr');
    } else if v :| EndLoad(sh, tr, v, sh', tr') {
      EndLoadOk(sh, tr, v, sh', tr');
    } else if ChooseCopy(sh, tr, sh', tr') {
      ChooseCopyOk(sh, tr, sh', tr');
    } else if CopyLock(sh, tr, sh', tr') {
      CopyLockOk(sh, tr, sh', tr');
    } else if EndCopy(sh, tr, sh', tr') {
      EndCopyOk(sh, tr, sh', tr');
    } else {
      SortLogOk(sh, tr, sh', tr');
    }
  }

  lemma SharedBody(sh: Shared, tr: Thread, sh': Shared, tr': Thread)
    requires SharedOk(sh) && BodyStep(sh, tr, sh', tr')
    ensures SharedOk(sh')
  {
    if CopyLock(sh, tr, sh', tr') || EndCopy(sh, tr, sh', tr') {
      SharedKept(sh, sh');
    }
  }

  /** What a thread about to commit relies on. */
  ghost predicate ReadyOk(sh: Shared, tr: Thread) {
    (forall a :: a in tr.log && a in sh.mem ==> !sh.mem[a].busy) && Fetched(sh, tr)
  }

  lemma CommitIsSafe(s: State, t: nat, sh': Shared, tr': Thread)
    requires Inv(s) && t < |s.threads|
    requires FastPath(s.sh, s.threads[t], sh', tr') || CheckDone(s.sh, s.threads[t], sh', tr')
    ensures ReadyOk(s.sh, s.threads[t])
  {
    if s.threads[t].pc.Decide? {
      FastPathValidates(s, t);
    } else {
      CheckedValidates(s, t);
    }
    ValidatorsSeeQuiet(s, t);
    ValidatedIsLatest(s, t);
  }

  lemma OwnCommit(sh: Shared, tr: Thread, sh': Shared, tr': Thread)
    requires SharedOk(sh) && ThreadOk(sh, tr) && CommitStep(sh, tr, sh', tr')
    requires FastPath(sh, tr, sh', tr') || CheckDone(sh, tr, sh', tr') ==> ReadyOk(sh, tr)
    ensures OwnOk(sh, tr, sh', tr') && SharedOk(sh')
  {
    if AcquireLock(sh, tr, sh', tr') {
      AcquireLockOk(sh, tr, sh', tr');
      SharedKept(sh, sh');
    } else if MarkOwner(sh, tr, sh', tr') {
      MarkOwnerOk(sh, tr, sh', tr');
    } else if Increment(sh, tr, sh', tr') {
      IncrementOk(sh, tr, sh', tr');
      SharedIncrement(sh, tr, sh', tr');
    } else if SlowPath(sh, tr, sh', tr') {
      SlowPathOk(sh, tr, sh', tr');
    } else if CheckPass(sh, tr, sh', tr') {
      CheckPassOk(sh, tr, sh', tr');
    } else if CheckFail(sh, tr, sh', tr') {
      CheckFailOk(sh, tr, sh', tr');
    } else {
      CommitsOk(sh, tr, sh', tr');
      SharedCommits(sh, tr, sh', tr');
    }
  }

  lemma OwnPublish(sh: Shared, tr: Thread, sh': Shared, tr': Thread)
    requires ShapeOk(sh) && ThreadOk(sh, tr) && PublishStep(sh, tr, sh', tr')
    ensures OwnOk(sh, tr, sh', tr')
  {
    if SkipUnwritten(sh, tr, sh', tr') {
      SkipUnwrittenOk(sh, tr, sh', tr');
    } else if ReadWord(sh, tr, sh', tr') {
      ReadWordOk(sh, tr, sh', tr');
    } else if WriteWord(sh, tr, sh', tr') {
      WriteWordOk(sh, tr, sh', tr');
    } else if garbage :| StartMove(sh, tr, garbage, sh', tr') {
      StartMoveOk(sh, tr, garbage, sh', tr');
    } else if FinishMove(sh, tr, sh', tr') {
      FinishMoveOk(sh, tr, sh', tr');
    } else if PublishDone(sh, tr, sh', tr') {
      PublishDoneOk(sh, tr, sh', tr');
    } else if ReleaseOne(sh, tr, sh', tr') {
      ReleaseOneOk(sh, tr, sh', tr');
    } else {
      EndAttemptOk(sh, tr, sh', tr');
    }
  }

  lemma SharedMove(sh: Shared, tr: Thread, sh': Shared, tr': Thread)
    requires SharedOk(sh) && (FinishMove(sh, tr, sh', tr') || exists garbage :: StartMove(sh, tr, garbage, sh', tr'))
    ensures SharedOk(sh')
  {
    SharedKept(sh, sh');
  }

  lemma SharedRelease(sh: Shared, tr: Thread, sh': Shared, tr': Thread)
    requires SharedOk(sh) && ReleaseOne(sh, tr, sh', tr')
    ensures SharedOk(sh')
  {
    SharedKept(sh, sh');
  }

  lemma SharedPublish(sh: Shared, tr: Thread, sh': Shared, tr': Thread)
    requires SharedOk(sh) && ThreadOk(sh, tr) && PublishStep(sh, tr, sh', tr')
    ensures SharedOk(sh')
  {
    if WriteWord(sh, tr, sh', tr') {
      SharedWriteWord(sh, tr, sh', tr');
    } else if EndAttempt(sh, tr, sh', tr') {
      SharedEnd(sh, tr, sh', tr');
    } else if ReleaseOne(sh, tr, sh', tr') {
      SharedRelease(sh, tr, sh', tr');
    } else if tr.pc.BeginMove? || tr.pc.EndMove? {
      SharedMove(sh, tr, sh', tr');
    }
  }

  // ---------------------------------------------------------------- memory

  ghost predicate Holds(sh: Shared, a: Addr)
    requires a in sh.mem && a in sh.init
  {
    !sh.mem[a].busy && sh.mem[a].val == ValAt(sh.init, sh.history, a, sh.clock + 1)
  }

  /** After the step, `a` is being written back, or holds the last committed value if it did. */
  ghost predicate CellStep(sh: Shared, tr: Thread, sh': Shared, tr': Thread, a: Addr)
    requires ShapeOk(sh) && ShapeOk(sh') && a in sh.mem && a in sh'.mem
  {
    Pending(tr', a) || Holds(sh', a) || (!Pending(tr, a) && (Holds(sh, a) ==> Holds(sh', a)))
  }

  lemma MemoryKeptAt(s: State, s': State, t: nat, tr': Thread, a: Addr)
    requires ShapeOk(s.sh) && ShapeOk(s'.sh) && t < |s.threads| && s'.threads == s.threads[t := tr']
    requires a in s.sh.mem && a in s'.sh.mem && (Quiet(s, a) ==> Holds(s.sh, a)) && Quiet(s', a)
    requires CellStep(s.sh, s.threads[t], s'.sh, tr', a)
    ensures Holds(s'.sh, a)
  {
    assert !Pending(s'.threads[t], a);
    if !Pending(s.threads[t], a) {
      forall u | 0 <= u < |s.threads|
        ensures !Pending(s.threads[u], a)
      {
        assert u != t ==> s'.threads[u] == s.threads[u];
      }
    }
  }

  lemma CellOk(s: State, a: Addr)
    requires ShapeOk(s.sh) && MemoryOk(s) && a in s.sh.mem && Quiet(s, a)
    ensures Holds(s.sh, a)
  {
  }

  lemma CellIncrement(sh: Shared, tr: Thread, sh': Shared, tr': Thread, a: Addr)
    requires ShapeOk(sh) && ShapeOk(sh') && BoundOk(sh) && Increment(sh, tr, sh', tr') && a in sh.mem
    ensures CellStep(sh, tr, sh', tr', a)
  {
    assert sh.clock + 1 !in sh.history;
  }

  lemma CellCommits(sh: Shared, tr: Thread, sh': Shared, tr': Thread, a: Addr)
    requires ShapeOk(sh) && ShapeOk(sh') && tr.wv !in sh.history && tr.moved == {} && Validating(tr.pc)
    requires Commits(sh, tr, sh', tr') && a in sh.mem
    ensures CellStep(sh, tr, sh', tr', a)
  {
    if !Writes?(tr.log, a) {
      ValAtSkips(sh.init, sh.history, tr.wv, TxnOf(tr), a, sh.clock + 1);
    }
  }

  /** The value moved in is the last committed one: later writers of an address need the lock
      its publisher still holds. */
  lemma MovedIsLatest(sh: Shared, tr: Thread, a: Addr)
    requires ShapeOk(sh) && BoundOk(sh) && CommitOk(sh, tr) && tr.wv <= sh.clock
    requires Publishing(tr.pc) && Writes?(tr.log, a) && a in sh.init
    ensures ValAt(sh.init, sh.history, a, sh.clock + 1) == tr.log[a].staged.value
  {
    forall w | w in sh.history && tr.wv + 1 <= w < sh.clock + 1
      ensures !Writes?(sh.history[w].log, a)
    {
      assert Apart(sh.lockOf, tr.log, sh.history[w].log);
    }
    ValAtFlat(sh.init, sh.history, a, tr.wv + 1, sh.clock + 1);
  }

  /** When the commit loop ends everything has been moved. */
  lemma AllMoved(tr: Thread, a: Addr)
    requires SortedLog(tr.order, tr.log)
    requires forall j :: 0 <= j < |tr.order| && Writes?(tr.log, tr.order[j]) ==> tr.order[j] in tr.moved
    ensures !Pending(tr, a)
  {
    assert a in tr.log ==> a in tr.order;
  }

  lemma CellFinishMove(sh: Shared, tr: Thread, sh': Shared, tr': Thread, a: Addr)
    requires ShapeOk(sh) && ShapeOk(sh') && BoundOk(sh) && CommitOk(sh, tr) && tr.wv <= sh.clock
    requires FinishMove(sh, tr, sh', tr') && a in sh.mem
    ensures CellStep(sh, tr, sh', tr', a)
  {
    if a == tr.order[tr.pc.i] {
      MovedIsLatest(sh, tr, a);
    }
  }

  lemma CellRest(sh: Shared, tr: Thread, sh': Shared, tr': Thread, a: Addr)
    requires ShapeOk(sh) && ShapeOk(sh') && PublishStep(sh, tr, sh', tr') && a in sh.mem
    requires !FinishMove(sh, tr, sh', tr') && (PublishDone(sh, tr, sh', tr') ==> !Pending(tr, a))
    requires tr.pc.BeginMove? && tr.pc.i < |tr.order| ==> Pending(tr, tr.order[tr.pc.i])
    ensures a in sh'.mem && CellStep(sh, tr, sh', tr', a)
  {
  }

  lemma CellPublish(sh: Shared, tr: Thread, sh': Shared, tr': Thread, a: Addr)
    requires ShapeOk(sh) && BoundOk(sh) && ShapeOk(sh') && ThreadOk(sh, tr) && PublishStep(sh, tr, sh', tr') && a in sh.mem
    ensures a in sh'.mem && CellStep(sh, tr, sh', tr', a)
  {
    if FinishMove(sh, tr, sh', tr') {
      CellFinishMove(sh, tr, sh', tr', a);
    } else {
      if PublishDone(sh, tr, sh', tr') {
        AllMoved(tr, a);
      }
      CellRest(sh, tr, sh', tr', a);
    }
  }

  lemma CellCommitRest(sh: Shared, tr: Thread, sh': Shared, tr': Thread, a: Addr)
    requires ShapeOk(sh) && ShapeOk(sh') && CommitStep(sh, tr, sh', tr') && a in sh.mem
    requires !Increment(sh, tr, sh', tr') && !FastPath(sh, tr, sh', tr') && !CheckDone(sh, tr, sh', tr')
    ensures a in sh'.mem && CellStep(sh, tr, sh', tr', a)
  {
  }

  lemma CellCommit(sh: Shared, tr: Thread, sh': Shared, tr': Thread, a: Addr)
    requires ShapeOk(sh) && BoundOk(sh) && ShapeOk(sh') && ThreadOk(sh, tr) && CommitStep(sh, tr, sh', tr') && a in sh.mem
    ensures a in sh'.mem && CellStep(sh, tr, sh', tr', a)
  {
    if Increment(sh, tr, sh', tr') {
      CellIncrement(sh, tr, sh', tr', a);
    } else if FastPath(sh, tr, sh', tr') || CheckDone(sh, tr, sh', tr') {
      CellCommits(sh, tr, sh', tr', a);
    } else {
      CellCommitRest(sh, tr, sh', tr', a);
    }
  }

  lemma CellBody(sh: Shared, tr: Thread, sh': Shared, tr': Thread, a: Addr)
    requires ShapeOk(sh) && ShapeOk(sh') && (Begin(sh, tr, sh', tr') || BodyStep(sh, tr, sh', tr')) && a in sh.mem
    ensures a in sh'.mem && CellStep(sh, tr, sh', tr', a)
  {
  }

  // ---------------------------------------------------------------- all runs

  lemma OwnStep(s: State, t: nat, sh': Shared, tr': Thread)
    requires Inv(s) && ThreadStep(s, t, sh', tr')
    ensures OwnOk(s.sh, s.threads[t], sh', tr') && SharedOk(sh')
  {
    var sh, tr := s.sh, s.threads[t];
    assert ThreadOk(sh, tr);
    if Begin(sh, tr, sh', tr') {
      BeginOk(sh, tr, sh', tr');
      SharedKept(sh, sh');
    } else if BodyStep(sh, tr, sh', tr') {
      FetchIsSafe(s, t);
      OwnBody(sh, tr, sh', tr');
      SharedBody(sh, tr, sh', tr');
    } else if CommitStep(sh, tr, sh', tr') {
      if FastPath(sh, tr, sh', tr') || CheckDone(sh, tr, sh', tr') {
        CommitIsSafe(s, t, sh', tr');
      }
      OwnCommit(sh, tr, sh', tr');
    } else {
      OwnPublish(sh, tr, sh', tr');
      SharedPublish(sh, tr, sh', tr');
    }
  }

  lemma PairsNext(s: State, s': State, t: nat, tr': Thread)
    requires Inv(s) && ThreadStep(s, t, s'.sh, tr') && s'.threads == s.threads[t := tr'] && s'.sh.lockOf == s.sh.lockOf
    ensures PairsOk(s')
  {
    var sh, tr := s.sh, s.threads[t];
    forall u | 0 <= u < |s.threads| && u != t
      ensures PairOk(sh.lockOf, tr', s.threads[u]) && PairOk(sh.lockOf, s.threads[u], tr')
    {
      var ur := s.threads[u];
      assert ThreadOk(sh, tr) && ThreadOk(sh, ur);
      assert PairOk(sh.lockOf, tr, ur) && PairOk(sh.lockOf, ur, tr);
      if Begin(sh, tr, s'.sh, tr') {
        PairsKept(sh.lockOf, tr, tr', ur);
      } else if BodyStep(sh, tr, s'.sh, tr') {
        PairsBody(sh, tr, s'.sh, tr', ur);
      } else if CommitStep(sh, tr, s'.sh, tr') {
        PairsCommit(sh, tr, s'.sh, tr', ur);
      } else {
        PairsPublish(sh, tr, s'.sh, tr', ur);
      }
    }
  }

  lemma CellNext(sh: Shared, tr: Thread, sh': Shared, tr': Thread, a: Addr)
    requires ShapeOk(sh) && BoundOk(sh) && ShapeOk(sh') && ThreadOk(sh, tr) && a in sh.mem
    requires Begin(sh, tr, sh', tr') || Progress(sh, tr, sh', tr')
    ensures a in sh'.mem && CellStep(sh, tr, sh', tr', a)
  {
    if CommitStep(sh, tr, sh', tr') {
      CellCommit(sh, tr, sh', tr', a);
    } else if PublishStep(sh, tr, sh', tr') {
      CellPublish(sh, tr, sh', tr', a);
    } else {
      CellBody(sh, tr, sh', tr', a);
    }
  }

  lemma MemoryNext(s: State, s': State, t: nat, tr': Thread)
    requires Inv(s) && ThreadStep(s, t, s'.sh, tr') && s'.threads == s.threads[t := tr']
    requires ShapeOk(s'.sh) && s'.sh.lockOf == s.sh.lockOf
    ensures MemoryOk(s')
  {
    forall a | a in s'.sh.mem && Quiet(s', a)
      ensures Holds(s'.sh, a)
    {
      assert a in s.sh.lockOf;
      CellNext(s.sh, s.threads[t], s'.sh, tr', a);
      if Quiet(s, a) {
        CellOk(s, a);
      }
      MemoryKeptAt(s, s', t, tr', a);
    }
  }

  lemma InvNext(s: State, s': State)
    requires Inv(s) && Next(s, s')
    ensures Inv(s')
  {
    var t: nat, tr' :| ThreadStep(s, t, s'.sh, tr') && s'.threads == s.threads[t := tr'];
    OwnStep(s, t, s'.sh, tr');
    forall u | 0 <= u < |s.threads|
      ensures ThreadOk(s'.sh, s'.threads[u])
    {
      if u != t {
        assert ThreadOk(s.sh, s.threads[u]);
        assert PairOk(s.sh.lockOf, s.threads[t], s.threads[u]) && PairOk(s.sh.lockOf, s.threads[u], s.threads[t]);
        StableThread(s.sh, s'.sh, s.threads[t], s.threads[u]);
      }
    }
    PairsNext(s, s', t, tr');
    MemoryNext(s, s', t, tr');
  }

  lemma InvInit(s: State)
    requires Init(s)
    ensures Inv(s)
  {
  }

  lemma {:induction false} InvRun(run: seq<State>)
    requires Run(run)
    ensures Inv(run[|run| - 1])
    decreases |run|
  {
    if |run| == 1 {
      InvInit(run[0]);
    } else {
      var before := run[..|run| - 1];
      InvRun(before);
      InvNext(before[|before| - 1], run[|run| - 1]);
    }
  }

  /** The invariant holds in every reachable state. */
  lemma InvReachable(s: State)
    requires Reachable(s)
    ensures Inv(s)
  {
    var run :| Run(run) && run[|run| - 1] == s;
    InvRun(run);
  }
}
