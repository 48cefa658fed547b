/**
  What every reachable state of the protocol satisfies. The conditions come in four groups:
  on the shared state alone, on one thread and the shared state, on two threads, and on
  memory against all pending write-backs.
 */
module ProtocolInvariant {
  import opened Options
  import opened LockTable
  import opened Protocol

  // ---------------------------------------------------------------- phases of a thread

  predicate Active(pc: Pc) { !pc.Idle? && !pc.Retry? }

  /** Past the wait, with the value still to be taken from memory. */
  predicate Fetching(pc: Pc) { pc.WantLoad? || pc.Load? || pc.WantCopy? || pc.Copy? }

  predicate InBody(pc: Pc) { pc.Running? || pc.Await? || Fetching(pc) }

  predicate Publishing(pc: Pc) { pc.Publish? || pc.StoreWord? || pc.BeginMove? || pc.EndMove? }

  predicate Validating(pc: Pc) { pc.Decide? || pc.Check? }

  /** Every lock of the log is held. */
  predicate HoldsAll(pc: Pc) { Validating(pc) || Publishing(pc) }

  /** A write version has been drawn. */
  predicate Numbered(pc: Pc) { HoldsAll(pc) || pc.Release? }

  predicate Undecided(pc: Pc) { InBody(pc) || pc.Acquire? || Validating(pc) }

  predicate InCommit(pc: Pc) { pc.Acquire? || Numbered(pc) }

  // ---------------------------------------------------------------- committed values

  predicate Writes?(log: map<Addr, Entry>, a: Addr) {
    a in log && log[a].staged.Some?
  }

  /** The value of `a` once all transactions with write version below `n` took effect. */
  ghost function ValAt(init: map<Addr, Val>, h: map<nat, Txn>, a: Addr, n: nat): Val
    requires a in init
  {
    if n == 0 then init[a]
    else if n - 1 in h && Writes?(h[n - 1].log, a) then h[n - 1].log[a].staged.value
    else ValAt(init, h, a, n - 1)
  }

  // ---------------------------------------------------------------- one attempt

  /** Every operation is what the body asked for: a value handed back is the attempt's own
      last write to that address or a value fetched from memory. */
  ghost predicate Conforms(body: Body, trace: seq<Op>, fetched: set<(Addr, Val)>) {
    trace == [] ||
    var before := trace[..|trace| - 1];
    Conforms(body, before, fetched) &&
    match trace[|trace| - 1]
    case Put(a, v) => body(before) == DoPut(a, v)
    case Get(a, v) =>
      body(before) == DoGet(a) &&
      if a in Writes(before) then v == Writes(before)[a] else (a, v) in fetched
  }

  /** The log's staged values are the last writes of the trace. */
  ghost predicate Stages(log: map<Addr, Entry>, trace: seq<Op>) {
    (forall a :: a in Writes(trace) <==> Writes?(log, a)) &&
    (forall a :: Writes?(log, a) ==> log[a].staged.value == Writes(trace)[a])
  }

  ghost predicate FetchedInLog(fetched: set<(Addr, Val)>, log: map<Addr, Entry>) {
    forall a, v :: (a, v) in fetched ==> a in log && log[a].read
  }

  // ---------------------------------------------------------------- shared state

  ghost predicate ShapeOk(sh: Shared) {
    sh.lockOf.Keys == sh.mem.Keys && sh.init.Keys == sh.mem.Keys &&
    forall a :: a in sh.lockOf ==> sh.lockOf[a] < |sh.words|
  }

  /** A nonzero version was stored by a committed writer of an address under that lock. */
  ghost predicate Witness(sh: Shared, l: nat)
    requires l < |sh.words|
  {
    var v := sh.words[l].version;
    v == 0 ||
    (v in sh.history && exists a :: a in sh.lockOf && Writes?(sh.history[v].log, a) && sh.lockOf[a] == l)
  }

  ghost predicate WordsOk(sh: Shared) {
    forall l :: 0 <= l < |sh.words| ==> sh.words[l].version <= sh.clock && Witness(sh, l)
  }

  ghost predicate TxnOk(sh: Shared, w: nat)
    requires w in sh.history
  {
    var tx := sh.history[w];
    tx.rv < w && tx.began < sh.now &&
    Conforms(tx.body, tx.trace, tx.fetched) && tx.body(tx.trace) == Finish &&
    Stages(tx.log, tx.trace) && FetchedInLog(tx.fetched, tx.log)
  }

  /** Each fetched value is what the writers below `w` left at that address. */
  ghost predicate ReadsLatest(sh: Shared, w: nat)
    requires w in sh.history
  {
    forall a, v :: (a, v) in sh.history[w].fetched && a in sh.init ==> v == ValAt(sh.init, sh.history, a, w)
  }

  ghost predicate BoundOk(sh: Shared) {
    forall w :: w in sh.history ==> w <= sh.clock && sh.history[w].log.Keys <= sh.mem.Keys
  }

  ghost predicate HistoryOk(sh: Shared) {
    BoundOk(sh) &&
    (forall w :: w in sh.history ==> TxnOk(sh, w)) &&
    (forall w :: w in sh.history ==> ReadsLatest(sh, w))
  }

  ghost predicate RealTimeOk(sh: Shared) {
    (forall w :: w in sh.done ==> w in sh.history && sh.done[w] < sh.now) &&
    (forall w, w' :: w in sh.done && w' in sh.history && sh.done[w] <= sh.history[w'].began ==> w < w')
  }

  ghost predicate SharedOk(sh: Shared) {
    ShapeOk(sh) && WordsOk(sh) && HistoryOk(sh) && RealTimeOk(sh)
  }

  // ---------------------------------------------------------------- one thread

  ghost predicate TakenOk(sh: Shared, tr: Thread) {
    (forall k :: 0 <= k < |tr.taken| ==> tr.taken[k] < |sh.words| && sh.words[tr.taken[k]].locked) &&
    (forall j, k :: 0 <= j < k < |tr.taken| ==> tr.taken[j] != tr.taken[k]) &&
    (!Active(tr.pc) || (InBody(tr.pc) && !tr.pc.Copy?) ==> tr.taken == []) &&
    (tr.pc.Copy? ==> tr.pc.addr in sh.lockOf && tr.taken == [sh.lockOf[tr.pc.addr]])
  }

  /** The locks taken are those of the locations treated so far, all marked as owned. */
  ghost predicate AcquiringOk(sh: Shared, tr: Thread) {
    tr.pc.Acquire? ==>
      tr.pc.i <= |tr.order| &&
      (forall j :: 0 <= j < tr.pc.i ==> tr.order[j] in tr.owned) &&
      (forall j, l :: 0 <= j < tr.pc.i && Under(sh.lockOf, tr.order, j, l) ==> l in tr.taken) &&
      (forall l :: l in tr.taken ==> exists j :: 0 <= j < tr.pc.i && Under(sh.lockOf, tr.order, j, l))
  }

  ghost predicate HoldingOk(sh: Shared, tr: Thread) {
    HoldsAll(tr.pc) ==>
      forall a :: a in tr.log ==> a in tr.owned && a in sh.lockOf && sh.lockOf[a] in tr.taken
  }

  ghost predicate LocksOk(sh: Shared, tr: Thread) {
    TakenOk(sh, tr) && AcquiringOk(sh, tr) && HoldingOk(sh, tr)
  }

  ghost predicate LogOk(sh: Shared, tr: Thread) {
    tr.log.Keys <= sh.mem.Keys &&
    Stages(tr.log, tr.trace) &&
    Conforms(tr.body, tr.trace, tr.fetched) &&
    FetchedInLog(tr.fetched, tr.log) &&
    (forall a, v :: (a, v) in tr.fetched ==> a in tr.seen) &&
    (tr.pc.Await? || Fetching(tr.pc) ==>
      tr.pc.addr in tr.log && tr.log[tr.pc.addr].read && tr.body(tr.trace) == DoGet(tr.pc.addr)) &&
    (Fetching(tr.pc) ==>
      tr.log[tr.pc.addr].staged.None? && tr.pc.addr in tr.seen) &&
    (InCommit(tr.pc) ==> tr.body(tr.trace) == Finish && SortedLog(tr.order, tr.log)) &&
    (Undecided(tr.pc) ==> tr.moved == {})
  }

  ghost predicate ClockOk(sh: Shared, tr: Thread) {
    tr.rv <= sh.clock && tr.began < sh.now &&
    (Numbered(tr.pc) ==> tr.rv < tr.wv <= sh.clock) &&
    (forall w :: w in sh.done && sh.done[w] <= tr.began ==> w <= tr.rv)
  }

  function Version(sh: Shared, a: Addr): nat
    requires a in sh.lockOf && sh.lockOf[a] < |sh.words|
  {
    sh.words[sh.lockOf[a]].version
  }

  ghost predicate VersionsOk(sh: Shared, tr: Thread)
    requires ShapeOk(sh)
  {
    (Validating(tr.pc) ==> forall a :: a in tr.log && a in sh.lockOf ==> Version(sh, a) < tr.wv) &&
    (Publishing(tr.pc) ==> forall a :: a in tr.log && a in sh.lockOf ==> Version(sh, a) <= tr.wv) &&
    (tr.pc.StoreWord? ==> Indexed(sh, tr, tr.pc.i) && WordOf(sh, tr, tr.pc.i) == tr.pc.seen) &&
    (tr.pc.BeginMove? || tr.pc.EndMove? ==> Indexed(sh, tr, tr.pc.i) && WordOf(sh, tr, tr.pc.i).version == tr.wv)
  }

  ghost predicate ReadsOk(sh: Shared, tr: Thread)
    requires ShapeOk(sh)
  {
    (forall a, v :: (a, v) in tr.fetched && a in sh.mem && Version(sh, a) <= tr.rv ==>
      !sh.mem[a].busy && sh.mem[a].val == v) &&
    (tr.pc.Load? && tr.pc.addr in sh.mem && Version(sh, tr.pc.addr) <= tr.rv ==>
      !tr.pc.torn && sh.mem[tr.pc.addr].moves == tr.pc.moves && !sh.mem[tr.pc.addr].busy) &&
    (tr.pc.Check? ==>
      tr.pc.i <= |tr.order| &&
      (forall j :: 0 <= j < tr.pc.i && Indexed(sh, tr, j) ==> ValidatesAt(sh, tr, j)))
  }

  /** The two logs share no lock. */
  ghost predicate Apart(lockOf: map<Addr, nat>, log: map<Addr, Entry>, log': map<Addr, Entry>) {
    forall a, b :: a in log && b in log' && a in lockOf && b in lockOf ==> lockOf[a] != lockOf[b]
  }

  ghost predicate CommitOk(sh: Shared, tr: Thread) {
    (Validating(tr.pc) || tr.pc == Release(false) ==> tr.wv !in sh.history) &&
    (Publishing(tr.pc) || tr.pc == Release(true) ==> tr.wv in sh.history && sh.history[tr.wv] == TxnOf(tr)) &&
    (HoldsAll(tr.pc) ==>
      forall w :: w in sh.history && tr.wv < w ==> Apart(sh.lockOf, tr.log, sh.history[w].log))
  }

  function Position(pc: Pc): nat
    requires Publishing(pc)
  {
    pc.i
  }

  /** `a` has been committed to but its cell does not hold the committed value yet. */
  predicate Pending(tr: Thread, a: Addr) {
    Publishing(tr.pc) && Writes?(tr.log, a) && a !in tr.moved
  }

  ghost predicate PublishOk(sh: Shared, tr: Thread) {
    Publishing(tr.pc) ==>
      Position(tr.pc) <= |tr.order| &&
      (!tr.pc.Publish? ==> Position(tr.pc) < |tr.order| && Writes?(tr.log, tr.order[Position(tr.pc)])) &&
      (forall j :: 0 <= j < Position(tr.pc) && Writes?(tr.log, tr.order[j]) ==> tr.order[j] in tr.moved) &&
      (forall j :: Position(tr.pc) <= j < |tr.order| ==> tr.order[j] !in tr.moved) &&
      (forall a :: Pending(tr, a) && a in sh.mem ==>
        (sh.mem[a].busy <==> tr.pc.EndMove? && a == tr.order[tr.pc.i]))
  }

  ghost predicate ThreadOk(sh: Shared, tr: Thread)
    requires ShapeOk(sh)
  {
    LocksOk(sh, tr) &&
    (Active(tr.pc) ==>
      LogOk(sh, tr) && ClockOk(sh, tr) && VersionsOk(sh, tr) && CommitOk(sh, tr) && PublishOk(sh, tr) &&
      (Undecided(tr.pc) ==> ReadsOk(sh, tr)))
  }

  // ---------------------------------------------------------------- two threads

  /** No lock is held twice, write versions differ, and a lock that `u` saw free since it
      sampled the clock is now held only under a write version above that sample. */
  ghost predicate PairOk(lockOf: map<Addr, nat>, t: Thread, u: Thread) {
    (forall l :: l in t.taken ==> l !in u.taken) &&
    (Numbered(t.pc) && Numbered(u.pc) ==> t.wv != u.wv) &&
    (Numbered(t.pc) && Undecided(u.pc) ==>
      forall a :: a in u.seen && a in lockOf && lockOf[a] in t.taken ==> u.rv < t.wv)
  }

  ghost predicate PairsOk(s: State) {
    forall t, u :: 0 <= t < |s.threads| && 0 <= u < |s.threads| && t != u ==>
      PairOk(s.sh.lockOf, s.threads[t], s.threads[u])
  }

  // ---------------------------------------------------------------- memory

  ghost predicate Quiet(s: State, a: Addr) {
    forall t :: 0 <= t < |s.threads| ==> !Pending(s.threads[t], a)
  }

  /** A cell nobody is still writing back holds the last committed value. */
  ghost predicate MemoryOk(s: State)
    requires ShapeOk(s.sh)
  {
    forall a :: a in s.sh.mem && Quiet(s, a) ==>
      !s.sh.mem[a].busy && s.sh.mem[a].val == ValAt(s.sh.init, s.sh.history, a, s.sh.clock + 1)
  }

  // ---------------------------------------------------------------- all of it

  ghost predicate Inv(s: State) {
    SharedOk(s.sh) &&
    (forall t :: 0 <= t < |s.threads| ==> ThreadOk(s.sh, s.threads[t])) &&
    PairsOk(s) &&
    MemoryOk(s)
  }

  // ---------------------------------------------------------------- other threads' steps

  /** What a step of a thread in local state `t` may do to the shared state. */
  ghost predicate Guarantee(sh: Shared, sh': Shared, t: Thread)
    requires ShapeOk(sh)
  {
    ShapeOk(sh') && sh'.lockOf == sh.lockOf && sh'.init == sh.init && |sh'.words| == |sh.words| &&
    sh.clock <= sh'.clock && sh.now <= sh'.now &&
    (forall w :: w in sh'.done ==> (w in sh.done && sh'.done[w] == sh.done[w]) || sh.now <= sh'.done[w]) &&
    (forall l :: 0 <= l < |sh.words| ==> sh.words[l].version <= sh'.words[l].version) &&
    (forall l :: 0 <= l < |sh.words| && l !in t.taken && sh.words[l].locked ==> sh'.words[l] == sh.words[l]) &&
    (forall l :: 0 <= l < |sh.words| && l !in t.taken ==> sh'.words[l].version == sh.words[l].version) &&
    (forall a :: a in sh.mem && sh'.mem[a] != sh.mem[a] ==>
      Numbered(t.pc) && sh.lockOf[a] in t.taken && Version(sh', a) == t.wv) &&
    (sh'.history == sh.history ||
      (Validating(t.pc) && sh'.history == sh.history[t.wv := TxnOf(t)] &&
       forall a :: a in t.log ==> a in sh.lockOf && sh.lockOf[a] in t.taken))
  }

  lemma StableLocks(sh: Shared, sh': Shared, t: Thread, u: Thread)
    requires ShapeOk(sh) && Guarantee(sh, sh', t)
    requires PairOk(sh.lockOf, t, u)
    requires LocksOk(sh, u)
    ensures LocksOk(sh', u)
  {
    forall k | 0 <= k < |u.taken|
      ensures u.taken[k] < |sh'.words| && sh'.words[u.taken[k]].locked
    {
      assert u.taken[k] in u.taken;
    }
  }

  lemma StableVersions(sh: Shared, sh': Shared, t: Thread, u: Thread)
    requires ShapeOk(sh) && Guarantee(sh, sh', t)
    requires PairOk(sh.lockOf, t, u)
    requires LocksOk(sh, u) && VersionsOk(sh, u)
    ensures VersionsOk(sh', u)
  {
    forall a | HoldsAll(u.pc) && a in u.log
      ensures a in sh.lockOf && sh.words[sh.lockOf[a]] == sh'.words[sh.lockOf[a]]
    {
      assert sh.lockOf[a] !in t.taken;
    }
  }

  lemma StableReads(sh: Shared, sh': Shared, t: Thread, u: Thread)
    requires ShapeOk(sh) && Guarantee(sh, sh', t)
    requires PairOk(sh.lockOf, t, u)
    requires Undecided(u.pc) && LocksOk(sh, u) && LogOk(sh, u) && ReadsOk(sh, u)
    ensures ReadsOk(sh', u)
  {
    forall a | a in u.seen && a in sh.mem && Version(sh', a) <= u.rv
      ensures Version(sh, a) <= u.rv && sh'.mem[a] == sh.mem[a]
    {
      assert sh'.mem[a] != sh.mem[a] ==> u.rv < t.wv;
    }
    if u.pc.Check? {
      forall j | 0 <= j < u.pc.i && Indexed(sh', u, j)
        ensures ValidatesAt(sh', u, j)
      {
        assert Indexed(sh, u, j) && ValidatesAt(sh, u, j);
        assert sh.lockOf[u.order[j]] !in t.taken;
      }
    }
  }

  lemma StableCommit(sh: Shared, sh': Shared, t: Thread, u: Thread)
    requires ShapeOk(sh) && Guarantee(sh, sh', t)
    requires PairOk(sh.lockOf, t, u) && PairOk(sh.lockOf, u, t)
    requires LocksOk(sh, u) && LogOk(sh, u) && CommitOk(sh, u)
    ensures CommitOk(sh', u)
  {
    if HoldsAll(u.pc) {
      StableApart(sh, sh', t, u);
    }
  }

  lemma StableApart(sh: Shared, sh': Shared, t: Thread, u: Thread)
    requires ShapeOk(sh) && Guarantee(sh, sh', t) && HoldsAll(u.pc) && HoldingOk(sh, u)
    requires forall l :: l in t.taken ==> l !in u.taken
    requires forall w :: w in sh.history && u.wv < w ==> Apart(sh.lockOf, u.log, sh.history[w].log)
    ensures forall w :: w in sh'.history && u.wv < w ==> Apart(sh.lockOf, u.log, sh'.history[w].log)
  {
    forall w | w in sh'.history && u.wv < w
      ensures Apart(sh.lockOf, u.log, sh'.history[w].log)
    {
      if w !in sh.history || sh'.history[w] != sh.history[w] {
        assert sh'.history[w].log == t.log;
      }
    }
  }

  lemma StablePublish(sh: Shared, sh': Shared, t: Thread, u: Thread)
    requires ShapeOk(sh) && Guarantee(sh, sh', t)
    requires PairOk(sh.lockOf, t, u)
    requires LocksOk(sh, u) && PublishOk(sh, u)
    ensures PublishOk(sh', u)
  {
    forall a | Pending(u, a) && a in sh.mem
      ensures sh'.mem[a] == sh.mem[a]
    {
      assert sh.lockOf[a] in u.taken;
    }
  }

  /** A step of one thread keeps what is known of another. */
  lemma StableThread(sh: Shared, sh': Shared, t: Thread, u: Thread)
    requires ShapeOk(sh) && Guarantee(sh, sh', t)
    requires PairOk(sh.lockOf, t, u) && PairOk(sh.lockOf, u, t)
    requires ThreadOk(sh, u)
    ensures ThreadOk(sh', u)
  {
    StableLocks(sh, sh', t, u);
    if Active(u.pc) {
      StableVersions(sh, sh', t, u);
      StableCommit(sh, sh', t, u);
      StablePublish(sh, sh', t, u);
      if Undecided(u.pc) {
        StableReads(sh, sh', t, u);
      }
    }
  }
}
