/**
  The commit protocol of the STM as a state machine.

  Every thread runs `atomically` (tl2/stm.h) over a shared table of versioned locks
  (tl2/version_lock.h, tl2/hash_table.h), one global clock and the memory of the `TVar`s.
  A step is one atomic access to shared state together with the thread-local work up to
  the next access; any thread may take the next step.
 */
module Protocol {
  import opened Options
  import opened LockTable

  /** The values stored in `TVar`s; nothing is assumed about them. */
  type Val(==,0,!new)

  // ---------------------------------------------------------------- transaction bodies

  /** What a body has done so far: values it was handed and values it assigned. */
  datatype Op = Get(addr: Addr, val: Val) | Put(addr: Addr, val: Val)

  /** What a body does next. */
  datatype Action = DoGet(addr: Addr) | DoPut(addr: Addr, val: Val) | Finish

  /** A deterministic body: what it does next depends on what it has done and seen. */
  type Body = seq<Op> -> Action

  /** The last value assigned to each address. */
  function Writes(trace: seq<Op>): map<Addr, Val> {
    if trace == [] then map[]
    else
      var w := Writes(trace[..|trace| - 1]);
      match trace[|trace| - 1]
      case Get(_, _) => w
      case Put(a, v) => w[a := v]
  }

  /** The reference meaning of a body: up to `n` operations straight on memory `m`. */
  function RunDirect(body: Body, m: map<Addr, Val>, n: nat): (seq<Op>, map<Addr, Val>) {
    if n == 0 then ([], m)
    else
      var (trace, now) := RunDirect(body, m, n - 1);
      match body(trace)
      case DoGet(a) => if a in now then (trace + [Get(a, now[a])], now) else (trace, now)
      case DoPut(a, v) => (trace + [Put(a, v)], now[a := v])
      case Finish => (trace, now)
  }

  // ---------------------------------------------------------------- shared state

  /** A lock word, unpacked; module VersionLock packs one into 64 bits. */
  datatype Word = Word(version: nat, locked: bool)

  /** The data of one `TVar`. While `busy` a move into it is under way and `val` is
      garbage; `moves` counts the moves that have begun. */
  datatype Cell = Cell(val: Val, busy: bool, moves: nat)

  /** A transaction that passed validation, filed under its write version. It belongs to a call
      of `atomically`, began at time `began` and drew its write version at time `drawn`. */
  datatype Txn = Txn(call: nat, body: Body, trace: seq<Op>, fetched: set<(Addr, Val)>, log: map<Addr, Entry>,
    rv: nat, began: nat, drawn: nat)

  datatype Shared = Shared(
    clock: nat,
    words: seq<Word>,
    lockOf: map<Addr, nat>,
    mem: map<Addr, Cell>,
    // The rest records what happened; no step depends on it.
    init: map<Addr, Val>,
    calls: seq<Body>,       // the calls of `atomically`, in the order in which they started
    history: map<nat, Txn>,
    now: nat,
    done: map<nat, nat>)

  // ---------------------------------------------------------------- threads

  /** A `Location` in the log: whether it was read, and the staged value if written. */
  datatype Entry = Entry(read: bool, staged: Option<Val>)

  datatype Pc =
    | Idle
    | Retry                               // try_commit returned false
    | Running                             // in the body
    | Await(addr: Addr)                   // Location::read waits for an unlocked word
    | WantLoad(addr: Addr)                // trivial type: about to copy m_data
    | Load(addr: Addr, torn: bool, moves: nat) // copying m_data without the lock
    | WantCopy(addr: Addr)                // non-trivial type: waits for the lock
    | Copy(addr: Addr)                    // non-trivial type: copies under the lock
    | Acquire(i: nat)                     // LockGuard is about to treat location i
    | Decide                              // clock incremented, fast path to be tested
    | Check(i: nat)                       // about to validate location i
    | Publish(i: nat)                     // commit() is about to treat location i
    | StoreWord(i: nat, seen: Word)       // unsafe_set_version between load and store
    | BeginMove(i: nat)
    | EndMove(i: nat)
    | Release(ok: bool)                   // ~LockGuard

  datatype Thread = Thread(
    pc: Pc,
    body: Body,
    log: map<Addr, Entry>,
    rv: nat,
    wv: nat,
    order: seq<Addr>,       // the log's addresses after stable_sort
    owned: set<Addr>,       // locations whose m_owner is this thread
    taken: seq<nat>,        // m_locked, as the lock indices it stands for
    moved: set<Addr>,       // locations already written back
    // The current call, and what its current attempt has done; no step depends on it.
    call: nat,
    trace: seq<Op>,
    fetched: set<(Addr, Val)>,
    seen: set<Addr>,
    began: nat,
    drawn: nat)

  datatype State = State(sh: Shared, threads: seq<Thread>)

  // ---------------------------------------------------------------- steps
  //
  // Each predicate relates the shared state and the stepping thread before and after.

  predicate Unlocked(sh: Shared, a: Addr) {
    a in sh.lockOf && sh.lockOf[a] < |sh.words| && !sh.words[sh.lockOf[a]].locked
  }

  function SetLocked(sh: Shared, l: nat, locked: bool): Shared
    requires l < |sh.words|
  {
    sh.(words := sh.words[l := Word(sh.words[l].version, locked)])
  }

  function Staged(tr: Thread, a: Addr): Option<Val> {
    if a in tr.log then tr.log[a].staged else None
  }

  function WasRead(tr: Thread, a: Addr): bool {
    a in tr.log && tr.log[a].read
  }

  /** TMan::start_transaction: clear the log and sample the clock. */
  function Started(sh: Shared, body: Body, call: nat): Thread {
    Thread(Running, body, map[], sh.clock, 0, [], {}, [], {}, call, [], {}, {}, sh.now, 0)
  }

  /** A call of `atomically` starts, or reruns its body after a failed attempt. */
  ghost predicate Begin(sh: Shared, tr: Thread, sh': Shared, tr': Thread) {
    if tr.pc.Idle? then
      sh' == sh.(now := sh.now + 1, calls := sh.calls + [tr'.body]) && tr' == Started(sh, tr'.body, |sh.calls|)
    else
      tr.pc.Retry? && sh' == sh.(now := sh.now + 1) && tr' == Started(sh, tr.body, tr.call)
  }

  /** TVar::operator=: stage the value. */
  ghost predicate Stage(sh: Shared, tr: Thread, sh': Shared, tr': Thread) {
    tr.pc.Running? && tr.body(tr.trace).DoPut? && tr.body(tr.trace).addr in sh.mem &&
    var act := tr.body(tr.trace);
    sh' == sh &&
    tr' == tr.(log := tr.log[act.addr := Entry(WasRead(tr, act.addr), Some(act.val))],
               trace := tr.trace + [Put(act.addr, act.val)])
  }

  /** TVar::operator T: register the read. */
  ghost predicate RegisterRead(sh: Shared, tr: Thread, sh': Shared, tr': Thread) {
    tr.pc.Running? && tr.body(tr.trace).DoGet? && tr.body(tr.trace).addr in sh.mem &&
    var a := tr.body(tr.trace).addr;
    sh' == sh &&
    tr' == tr.(pc := Await(a), log := tr.log[a := Entry(true, Staged(tr, a))])
  }

  /** The word was unlocked and the log holds a staged value: return it. */
  ghost predicate ReadStaged(sh: Shared, tr: Thread, sh': Shared, tr': Thread) {
    tr.pc.Await? && Unlocked(sh, tr.pc.addr) && Staged(tr, tr.pc.addr).Some? &&
    var a := tr.pc.addr;
    sh' == sh &&
    tr' == tr.(pc := Running, seen := tr.seen + {a}, trace := tr.trace + [Get(a, Staged(tr, a).value)])
  }

  /** The word was unlocked and nothing is staged: a trivial type is copied without the lock. */
  ghost predicate ChooseLoad(sh: Shared, tr: Thread, sh': Shared, tr': Thread) {
    tr.pc.Await? && Unlocked(sh, tr.pc.addr) && Staged(tr, tr.pc.addr).None? &&
    var a := tr.pc.addr;
    sh' == sh &&
    tr' == tr.(pc := WantLoad(a), seen := tr.seen + {a})
  }

  /** The copy starts; by now the word may be locked again. */
  ghost predicate StartLoad(sh: Shared, tr: Thread, sh': Shared, tr': Thread) {
    tr.pc.WantLoad? && tr.pc.addr in sh.mem &&
    var a := tr.pc.addr;
    sh' == sh &&
    tr' == tr.(pc := Load(a, sh.mem[a].busy, sh.mem[a].moves))
  }

  /** The copy ends. If a move into the cell overlapped it, the result may be anything. */
  ghost predicate EndLoad(sh: Shared, tr: Thread, v: Val, sh': Shared, tr': Thread) {
    tr.pc.Load? && tr.pc.addr in sh.mem &&
    var a := tr.pc.addr;
    (!tr.pc.torn && sh.mem[a].moves == tr.pc.moves ==> v == sh.mem[a].val) &&
    sh' == sh &&
    tr' == tr.(pc := Running, fetched := tr.fetched + {(a, v)}, trace := tr.trace + [Get(a, v)])
  }

  /** The word was unlocked and nothing is staged: a non-trivial type is copied under the lock. */
  ghost predicate ChooseCopy(sh: Shared, tr: Thread, sh': Shared, tr': Thread) {
    tr.pc.Await? && Unlocked(sh, tr.pc.addr) && Staged(tr, tr.pc.addr).None? &&
    var a := tr.pc.addr;
    sh' == sh &&
    tr' == tr.(pc := WantCopy(a), seen := tr.seen + {a})
  }

  ghost predicate CopyLock(sh: Shared, tr: Thread, sh': Shared, tr': Thread) {
    tr.pc.WantCopy? && Unlocked(sh, tr.pc.addr) &&
    var l := sh.lockOf[tr.pc.addr];
    sh' == SetLocked(sh, l, true) &&
    tr' == tr.(pc := Copy(tr.pc.addr), taken := [l])
  }

  ghost predicate EndCopy(sh: Shared, tr: Thread, sh': Shared, tr': Thread) {
    tr.pc.Copy? && tr.pc.addr in sh.mem && tr.pc.addr in sh.lockOf && sh.lockOf[tr.pc.addr] < |sh.words| &&
    var a := tr.pc.addr;
    var v := sh.mem[a].val;
    sh' == SetLocked(sh, sh.lockOf[a], false) &&
    tr' == tr.(pc := Running, taken := [], fetched := tr.fetched + {(a, v)}, trace := tr.trace + [Get(a, v)])
  }

  /** Address order without repetition. */
  predicate Ascending(order: seq<Addr>) {
    forall i, j :: 0 <= i < j < |order| ==> order[i] < order[j]
  }

  ghost predicate SortedLog(order: seq<Addr>, log: map<Addr, Entry>) {
    Ascending(order) && (forall a :: a in order <==> a in log)
  }

  /** The body returned; the guard sorts the log. */
  ghost predicate SortLog(sh: Shared, tr: Thread, sh': Shared, tr': Thread) {
    tr.pc.Running? && tr.body(tr.trace).Finish? && SortedLog(tr'.order, tr.log) &&
    sh' == sh && tr' == tr.(pc := Acquire(0), order := tr'.order)
  }

  predicate Indexed(sh: Shared, tr: Thread, i: nat) {
    i < |tr.order| && tr.order[i] in tr.log && tr.order[i] in sh.mem &&
    tr.order[i] in sh.lockOf && sh.lockOf[tr.order[i]] < |sh.words|
  }

  function WordOf(sh: Shared, tr: Thread, i: nat): Word
    requires Indexed(sh, tr, i)
  {
    sh.words[sh.lockOf[tr.order[i]]]
  }

  /** Location j of the sorted log is under lock l. */
  predicate Under(lockOf: map<Addr, nat>, order: seq<Addr>, j: nat, l: nat) {
    j < |order| && order[j] in lockOf && lockOf[order[j]] == l
  }

  /** An earlier location of the log has the same lock. */
  predicate AlreadyTaken(sh: Shared, tr: Thread, i: nat)
    requires Indexed(sh, tr, i)
  {
    exists j :: 0 <= j < i && Under(sh.lockOf, tr.order, j, sh.lockOf[tr.order[i]])
  }

  ghost predicate AcquireLock(sh: Shared, tr: Thread, sh': Shared, tr': Thread) {
    tr.pc.Acquire? && Indexed(sh, tr, tr.pc.i) && !AlreadyTaken(sh, tr, tr.pc.i) && !WordOf(sh, tr, tr.pc.i).locked &&
    var a := tr.order[tr.pc.i];
    sh' == SetLocked(sh, sh.lockOf[a], true) &&
    tr' == tr.(pc := Acquire(tr.pc.i + 1), taken := tr.taken + [sh.lockOf[a]], owned := tr.owned + {a})
  }

  ghost predicate MarkOwner(sh: Shared, tr: Thread, sh': Shared, tr': Thread) {
    tr.pc.Acquire? && Indexed(sh, tr, tr.pc.i) && AlreadyTaken(sh, tr, tr.pc.i) &&
    sh' == sh &&
    tr' == tr.(pc := Acquire(tr.pc.i + 1), owned := tr.owned + {tr.order[tr.pc.i]})
  }

  /** The guard is complete: draw a write version. */
  ghost predicate Increment(sh: Shared, tr: Thread, sh': Shared, tr': Thread) {
    tr.pc.Acquire? && tr.pc.i == |tr.order| &&
    sh' == sh.(clock := sh.clock + 1, now := sh.now + 1) &&
    tr' == tr.(pc := Decide, wv := sh.clock + 1, drawn := sh.now)
  }

  function TxnOf(tr: Thread): Txn {
    Txn(tr.call, tr.body, tr.trace, tr.fetched, tr.log, tr.rv, tr.began, tr.drawn)
  }

  /** The attempt is going to commit: it is filed in the history. */
  ghost predicate Commits(sh: Shared, tr: Thread, sh': Shared, tr': Thread) {
    sh' == sh.(history := sh.history[tr.wv := TxnOf(tr)]) &&
    tr' == tr.(pc := Publish(0))
  }

  ghost predicate FastPath(sh: Shared, tr: Thread, sh': Shared, tr': Thread) {
    tr.pc.Decide? && tr.wv == tr.rv + 1 && Commits(sh, tr, sh', tr')
  }

  ghost predicate SlowPath(sh: Shared, tr: Thread, sh': Shared, tr': Thread) {
    tr.pc.Decide? && tr.wv != tr.rv + 1 && sh' == sh && tr' == tr.(pc := Check(0))
  }

  /** The word of location i, for a location marked as owned. For one that is not, the code
      would spin on the lock word for ever: no step is possible. */
  predicate Owns(sh: Shared, tr: Thread, i: nat) {
    Indexed(sh, tr, i) && tr.order[i] in tr.owned
  }

  predicate ValidatesAt(sh: Shared, tr: Thread, i: nat)
    requires Indexed(sh, tr, i)
  {
    tr.log[tr.order[i]].read ==> WordOf(sh, tr, i).version <= tr.rv
  }

  ghost predicate CheckPass(sh: Shared, tr: Thread, sh': Shared, tr': Thread) {
    tr.pc.Check? && Owns(sh, tr, tr.pc.i) && ValidatesAt(sh, tr, tr.pc.i) &&
    sh' == sh && tr' == tr.(pc := Check(tr.pc.i + 1))
  }

  ghost predicate CheckFail(sh: Shared, tr: Thread, sh': Shared, tr': Thread) {
    tr.pc.Check? && Owns(sh, tr, tr.pc.i) && !ValidatesAt(sh, tr, tr.pc.i) &&
    sh' == sh && tr' == tr.(pc := Release(false))
  }

  ghost predicate CheckDone(sh: Shared, tr: Thread, sh': Shared, tr': Thread) {
    tr.pc.Check? && tr.pc.i == |tr.order| && Commits(sh, tr, sh', tr')
  }

  ghost predicate SkipUnwritten(sh: Shared, tr: Thread, sh': Shared, tr': Thread) {
    tr.pc.Publish? && Indexed(sh, tr, tr.pc.i) && Staged(tr, tr.order[tr.pc.i]).None? &&
    sh' == sh && tr' == tr.(pc := Publish(tr.pc.i + 1))
  }

  /** unsafe_set_version: the load. */
  ghost predicate ReadWord(sh: Shared, tr: Thread, sh': Shared, tr': Thread) {
    tr.pc.Publish? && Owns(sh, tr, tr.pc.i) && Staged(tr, tr.order[tr.pc.i]).Some? &&
    sh' == sh && tr' == tr.(pc := StoreWord(tr.pc.i, WordOf(sh, tr, tr.pc.i)))
  }

  /** unsafe_set_version: the store, with the lock bit of the loaded word. */
  ghost predicate WriteWord(sh: Shared, tr: Thread, sh': Shared, tr': Thread) {
    tr.pc.StoreWord? && Owns(sh, tr, tr.pc.i) &&
    sh' == sh.(words := sh.words[sh.lockOf[tr.order[tr.pc.i]] := Word(tr.wv, tr.pc.seen.locked)]) &&
    tr' == tr.(pc := BeginMove(tr.pc.i))
  }

  ghost predicate StartMove(sh: Shared, tr: Thread, garbage: Val, sh': Shared, tr': Thread) {
    tr.pc.BeginMove? && Indexed(sh, tr, tr.pc.i) &&
    var a := tr.order[tr.pc.i];
    sh' == sh.(mem := sh.mem[a := Cell(garbage, true, sh.mem[a].moves + 1)]) &&
    tr' == tr.(pc := EndMove(tr.pc.i))
  }

  ghost predicate FinishMove(sh: Shared, tr: Thread, sh': Shared, tr': Thread) {
    tr.pc.EndMove? && Indexed(sh, tr, tr.pc.i) && Staged(tr, tr.order[tr.pc.i]).Some? &&
    var a := tr.order[tr.pc.i];
    sh' == sh.(mem := sh.mem[a := Cell(Staged(tr, a).value, false, sh.mem[a].moves)]) &&
    tr' == tr.(pc := Publish(tr.pc.i + 1), moved := tr.moved + {a})
  }

  ghost predicate PublishDone(sh: Shared, tr: Thread, sh': Shared, tr': Thread) {
    tr.pc.Publish? && tr.pc.i == |tr.order| && sh' == sh && tr' == tr.(pc := Release(true))
  }

  /** ~LockGuard releases in reverse order. */
  ghost predicate ReleaseOne(sh: Shared, tr: Thread, sh': Shared, tr': Thread) {
    tr.pc.Release? && tr.taken != [] && tr.taken[|tr.taken| - 1] < |sh.words| &&
    sh' == SetLocked(sh, tr.taken[|tr.taken| - 1], false) &&
    tr' == tr.(taken := tr.taken[..|tr.taken| - 1])
  }

  /** try_commit returns; on success `atomically` ends the transaction. */
  ghost predicate EndAttempt(sh: Shared, tr: Thread, sh': Shared, tr': Thread) {
    tr.pc.Release? && tr.taken == [] &&
    sh' == (if tr.pc.ok then sh.(now := sh.now + 1, done := sh.done[tr.wv := sh.now]) else sh) &&
    tr' == tr.(pc := if tr.pc.ok then Idle else Retry)
  }

  ghost predicate BodyStep(sh: Shared, tr: Thread, sh': Shared, tr': Thread) {
    Stage(sh, tr, sh', tr') || RegisterRead(sh, tr, sh', tr') || ReadStaged(sh, tr, sh', tr') ||
    ChooseLoad(sh, tr, sh', tr') || StartLoad(sh, tr, sh', tr') || (exists v :: EndLoad(sh, tr, v, sh', tr')) ||
    ChooseCopy(sh, tr, sh', tr') || CopyLock(sh, tr, sh', tr') || EndCopy(sh, tr, sh', tr') ||
    SortLog(sh, tr, sh', tr')
  }

  ghost predicate CommitStep(sh: Shared, tr: Thread, sh': Shared, tr': Thread) {
    AcquireLock(sh, tr, sh', tr') || MarkOwner(sh, tr, sh', tr') || Increment(sh, tr, sh', tr') ||
    FastPath(sh, tr, sh', tr') || SlowPath(sh, tr, sh', tr') ||
    CheckPass(sh, tr, sh', tr') || CheckFail(sh, tr, sh', tr') || CheckDone(sh, tr, sh', tr')
  }

  ghost predicate PublishStep(sh: Shared, tr: Thread, sh': Shared, tr': Thread) {
    SkipUnwritten(sh, tr, sh', tr') || ReadWord(sh, tr, sh', tr') || WriteWord(sh, tr, sh', tr') ||
    (exists garbage :: StartMove(sh, tr, garbage, sh', tr')) || FinishMove(sh, tr, sh', tr') ||
    PublishDone(sh, tr, sh', tr') || ReleaseOne(sh, tr, sh', tr') || EndAttempt(sh, tr, sh', tr')
  }

  /** A step other than starting an attempt. */
  ghost predicate Progress(sh: Shared, tr: Thread, sh': Shared, tr': Thread) {
    BodyStep(sh, tr, sh', tr') || CommitStep(sh, tr, sh', tr') || PublishStep(sh, tr, sh', tr')
  }

  // ---------------------------------------------------------------- runs

  ghost predicate Init(s: State) {
    s.sh.clock == 0 &&
    s.sh.words == seq(LOCKTABLE_SIZE, _ => Word(0, false)) &&
    s.sh.lockOf.Keys == s.sh.mem.Keys &&
    (forall a :: a in s.sh.lockOf ==> s.sh.lockOf[a] == LockIndex(a)) &&
    s.sh.init.Keys == s.sh.mem.Keys &&
    (forall a :: a in s.sh.mem ==> s.sh.mem[a] == Cell(s.sh.init[a], false, 0)) &&
    s.sh.calls == [] && s.sh.history == map[] && s.sh.done == map[] && s.sh.now == 0 &&
    (forall t :: 0 <= t < |s.threads| ==> s.threads[t].pc == Idle && s.threads[t].taken == [])
  }

  ghost predicate ThreadStep(s: State, t: nat, sh': Shared, tr': Thread) {
    t < |s.threads| &&
    (Begin(s.sh, s.threads[t], sh', tr') || Progress(s.sh, s.threads[t], sh', tr'))
  }

  ghost predicate Next(s: State, s': State) {
    exists t: nat, tr' :: ThreadStep(s, t, s'.sh, tr') && s'.threads == s.threads[t := tr']
  }

  ghost predicate Run(run: seq<State>) {
    |run| > 0 && Init(run[0]) && forall i :: 0 <= i < |run| - 1 ==> Next(run[i], run[i + 1])
  }

  ghost predicate Reachable(s: State) {
    exists run :: Run(run) && run[|run| - 1] == s
  }
}
