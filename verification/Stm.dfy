/**
  `atomically` from the point of view of its caller (tl2/stm.h, tl2/state.h, tl2/t_var.h): the
  log stands in for memory while the body runs, the commit makes memory what the body saw,
  and a failed attempt leaves nothing behind. Other threads act between the steps of module
  Protocol; here they set the world that each attempt finds.
 */
module Stm {
  import opened Options
  import opened LockTable
  import opened Protocol
  import opened RadixKeys
  import opened TransactionLog
  import opened LockGuard

  const ADDRESSES: nat := 0x1_0000_0000_0000_0000

  /** Memory as a transaction with this log sees it. */
  function Seen(log: map<Addr, Entry>, mem: map<Addr, Val>): map<Addr, Val> {
    map a | a in mem :: if StagedIn(log, a).Some? then StagedIn(log, a).value else mem[a]
  }

  lemma SeenRead(log: map<Addr, Entry>, mem: map<Addr, Val>, a: Addr)
    ensures Seen(WithRead(log, a), mem) == Seen(log, mem)
  {
  }

  lemma SeenWrite(log: map<Addr, Entry>, mem: map<Addr, Val>, a: Addr, v: Val)
    requires a in mem
    ensures Seen(WithWrite(log, a, v), mem) == Seen(log, mem)[a := v]
  {
  }

  // ---------------------------------------------------------------- commit

  class World {
    var clock: nat
    const words: array<Word>
    var memory: map<Addr, Val>

    constructor (memory: map<Addr, Val>)
      ensures this.memory == memory && clock == 0 && fresh(words) && words.Length == LOCKTABLE_SIZE
    {
      this.memory, clock := memory, 0;
      words := new Word[LOCKTABLE_SIZE](_ => Word(0, false));
    }
  }

  /** Memory after writing back the first n locations. */
  function WriteBack(vec: seq<Item>, mem: map<Addr, Val>, n: nat): map<Addr, Val>
    requires n <= |vec|
  {
    if n == 0 then mem
    else if vec[n - 1].entry.staged.Some? then WriteBack(vec, mem, n - 1)[vec[n - 1].key as Addr := vec[n - 1].entry.staged.value]
    else WriteBack(vec, mem, n - 1)
  }

  /** A location among the first n is written, under lock l. */
  ghost predicate WritesUnder(vec: seq<Item>, n: nat, l: nat) {
    exists i :: 0 <= i < n && i < |vec| && vec[i].entry.staged.Some? && LockAt(vec, i) == l
  }

  lemma WritesUnderMore(vec: seq<Item>, n: nat, l: nat)
    requires n < |vec|
    ensures WritesUnder(vec, n + 1, l) <==> WritesUnder(vec, n, l) || (vec[n].entry.staged.Some? && LockAt(vec, n) == l)
  {
  }

  ghost predicate StagedInMemory(log: map<Addr, Entry>, mem: map<Addr, Val>) {
    forall a :: a in log ==> a in mem
  }

  /** An address whose location is not among the first n keeps its value. */
  lemma {:induction false} WriteBackElsewhere(vec: seq<Item>, mem: map<Addr, Val>, n: nat, a: Addr)
    requires n <= |vec| && forall j :: 0 <= j < n ==> vec[j].key != a
    ensures a in WriteBack(vec, mem, n) <==> a in mem
    ensures a in mem ==> WriteBack(vec, mem, n)[a] == mem[a]
  {
    if n > 0 {
      WriteBackElsewhere(vec, mem, n - 1, a);
    }
  }

  lemma {:induction false} WriteBackAt(vec: seq<Item>, mem: map<Addr, Val>, n: nat, i: nat)
    requires DistinctAddrs(vec) && i < n <= |vec| && vec[i].key in mem
    ensures vec[i].key in WriteBack(vec, mem, n)
    ensures WriteBack(vec, mem, n)[vec[i].key] ==
      if vec[i].entry.staged.Some? then vec[i].entry.staged.value else mem[vec[i].key]
  {
    if i == n - 1 {
      WriteBackElsewhere(vec, mem, n - 1, vec[i].key);
    } else {
      WriteBackAt(vec, mem, n - 1, i);
    }
  }

  /** Writing back makes memory what the transaction saw. */
  lemma WriteBackIsSeen(vec: seq<Item>, mem: map<Addr, Val>)
    requires DistinctAddrs(vec) && StagedInMemory(ViewOf(vec), mem)
    ensures WriteBack(vec, mem, |vec|) == Seen(ViewOf(vec), mem)
  {
    forall a | a in mem
      ensures a in WriteBack(vec, mem, |vec|) && WriteBack(vec, mem, |vec|)[a] == Seen(ViewOf(vec), mem)[a]
    {
      if a in ViewOf(vec) {
        var i := ViewFrom(vec, a);
        ViewHas(vec, i);
        WriteBackAt(vec, mem, |vec|, i);
      } else {
        forall j | 0 <= j < |vec|
          ensures vec[j].key != a
        {
          ViewHas(vec, j);
        }
        WriteBackElsewhere(vec, mem, |vec|, a);
      }
    }
    forall a | a in WriteBack(vec, mem, |vec|)
      ensures a in mem
    {
      if a !in ViewOf(vec) {
        forall j | 0 <= j < |vec|
          ensures vec[j].key != a
        {
          ViewHas(vec, j);
        }
        WriteBackElsewhere(vec, mem, |vec|, a);
      }
    }
  }

  /** The locks of the written locations among the first n hold the new version; nothing else
      about the table has changed. */
  ghost predicate StoredTo(before: seq<Word>, now: seq<Word>, vec: seq<Item>, n: nat, writeVersion: nat) {
    |before| == |now| &&
    forall l :: 0 <= l < |now| ==> now[l] == Word(VersionAfter(before, vec, n, writeVersion, l), before[l].locked)
  }

  ghost function VersionAfter(before: seq<Word>, vec: seq<Item>, n: nat, writeVersion: nat, l: nat): nat
    requires l < |before|
  {
    if WritesUnder(vec, n, l) then writeVersion else before[l].version
  }

  /** Stores the write version of every written location, then its value. */
  method Commit(world: World, vec: seq<Item>, writeVersion: nat)
    requires world.words.Length == LOCKTABLE_SIZE
    modifies world`memory, world.words
    ensures world.memory == WriteBack(vec, old(world.memory), |vec|)
    ensures StoredTo(old(world.words[..]), world.words[..], vec, |vec|, writeVersion)
  {
    ghost var before := world.words[..];
    var i: nat := 0;
    while i < |vec|
      invariant i <= |vec| && world.memory == WriteBack(vec, old(world.memory), i)
      invariant StoredTo(before, world.words[..], vec, i, writeVersion)
    {
      forall l
        ensures WritesUnder(vec, i + 1, l) <==> WritesUnder(vec, i, l) || (vec[i].entry.staged.Some? && LockAt(vec, i) == l)
      {
        WritesUnderMore(vec, i, l);
      }
      if vec[i].entry.staged.Some? {
        LockInTable(vec[i].key);
        world.words[LockAt(vec, i)] := Word(writeVersion, world.words[LockAt(vec, i)].locked);
        world.memory := world.memory[vec[i].key as Addr := vec[i].entry.staged.value];
      }
      i := i + 1;
    }
  }

  /** Every location read has a version not above rv. */
  ghost predicate Validates(words: seq<Word>, vec: seq<Item>, n: nat, rv: nat) {
    |words| == LOCKTABLE_SIZE &&
    forall i :: 0 <= i < n && i < |vec| && vec[i].entry.read ==> words[LockAtInTable(vec, i)].version <= rv
  }

  /** The loop over the read locations. */
  method Validate(world: World, vec: seq<Item>, rv: nat) returns (ok: bool)
    requires world.words.Length == LOCKTABLE_SIZE
    ensures ok == Validates(world.words[..], vec, |vec|, rv)
  {
    var i: nat := 0;
    while i < |vec|
      invariant i <= |vec| && Validates(world.words[..], vec, i, rv)
    {
      if vec[i].entry.read && world.words[LockAtInTable(vec, i)].version > rv {
        return false;
      }
      i := i + 1;
    }
    return true;
  }

  /** No lock of the log's addresses is held. */
  ghost predicate LogUnlocked(log: map<Addr, Entry>, words: seq<Word>) {
    |words| == LOCKTABLE_SIZE && forall a {:trigger LockFree(words, a)} :: a in log ==> LockFree(words, a)
  }

  predicate LockFree(words: seq<Word>, a: Addr)
    requires |words| == LOCKTABLE_SIZE
  {
    LockInTable(a);
    !words[LockIndex(a)].locked
  }

  function VersionOf(words: seq<Word>, a: Addr): nat
    requires |words| == LOCKTABLE_SIZE
  {
    LockInTable(a);
    words[LockIndex(a)].version
  }

  /** Lock l is that of an address in the log, or of one that the log has a value for. */
  ghost predicate LockOfLog(log: map<Addr, Entry>, l: nat) {
    exists a :: a in log && LockIndex(a) == l
  }

  ghost predicate LockOfWritten(log: map<Addr, Entry>, l: nat) {
    exists a :: a in log && log[a].staged.Some? && LockIndex(a) == l
  }

  /** What an attempt to commit does to a lock word: the lock of a written address gets the new
      version if it succeeds; other versions stay; the log's locks come out free, and the rest
      of the table untouched. */
  ghost predicate WordAfter(log: map<Addr, Entry>, ok: bool, clock: nat, before: Word, found: Word, now: Word, l: nat) {
    if !LockOfLog(log, l) then now == before
    else !now.locked && now.version == if ok && LockOfWritten(log, l) then clock else found.version
  }

  lemma {:induction false} LockOfLocation(vec: seq<Item>, l: nat)
    requires DistinctAddrs(vec)
    ensures UsesAtAll(vec, l) ==> LockOfLog(ViewOf(vec), l)
    ensures WritesUnder(vec, |vec|, l) ==> LockOfWritten(ViewOf(vec), l)
  {
    if UsesAtAll(vec, l) {
      var i :| 0 <= i < |vec| && LockAt(vec, i) == l;
      ViewHas(vec, i);
    }
    if WritesUnder(vec, |vec|, l) {
      var i :| 0 <= i < |vec| && vec[i].entry.staged.Some? && LockAt(vec, i) == l;
      ViewHas(vec, i);
    }
  }

  lemma {:induction false} LocationOfLock(vec: seq<Item>, l: nat)
    requires DistinctAddrs(vec)
    ensures LockOfLog(ViewOf(vec), l) ==> UsesAtAll(vec, l)
    ensures LockOfWritten(ViewOf(vec), l) ==> WritesUnder(vec, |vec|, l)
  {
    var log := ViewOf(vec);
    if LockOfLog(log, l) {
      var a :| a in log && LockIndex(a) == l;
      var i := ViewFrom(vec, a);
      assert LockAt(vec, i) == l;
    }
    if LockOfWritten(log, l) {
      var a :| a in log && log[a].staged.Some? && LockIndex(a) == l;
      var i := ViewFrom(vec, a);
      ViewHas(vec, i);
      assert LockAt(vec, i) == l;
    }
  }

  lemma {:induction false} UsedUnlocked(vec: seq<Item>, found: seq<Word>, l: nat)
    requires DistinctAddrs(vec) && LogUnlocked(ViewOf(vec), found) && l < LOCKTABLE_SIZE
    ensures UsesAtAll(vec, l) ==> !found[l].locked
  {
    LocationsUnlocked(vec, found);
    if UsesAtAll(vec, l) {
      var i :| 0 <= i < |vec| && LockAt(vec, i) == l;
      assert !found[LockAtInTable(vec, i)].locked;
    }
  }

  lemma {:induction false} WordsByAddress(vec: seq<Item>, before: seq<Word>, found: seq<Word>, now: seq<Word>, ok: bool, clock: nat, l: nat)
    requires |before| == |found| == |now| == LOCKTABLE_SIZE && DistinctAddrs(vec) && LogUnlocked(ViewOf(vec), found)
    requires StoredTo(AsFound(before, found, vec), now, vec, if ok then |vec| else 0, clock) && l < LOCKTABLE_SIZE
    ensures WordAfter(ViewOf(vec), ok, clock, before[l], found[l], now[l], l)
  {
    LockOfLocation(vec, l);
    LocationOfLock(vec, l);
    UsedUnlocked(vec, found, l);
    assert AsFound(before, found, vec)[l] == if UsesAtAll(vec, l) then found[l] else before[l];
    assert WritesUnder(vec, |vec|, l) ==> UsesAtAll(vec, l);
  }

  /** Validation, by address. */
  lemma ValidatesByAddress(vec: seq<Item>, found: seq<Word>, rv: nat)
    requires DistinctAddrs(vec) && |found| == LOCKTABLE_SIZE
    ensures Validates(found, vec, |vec|, rv) <==> forall a :: ReadIn(ViewOf(vec), a) ==> VersionOf(found, a) <= rv
  {
    if Validates(found, vec, |vec|, rv) {
      forall a | ReadIn(ViewOf(vec), a)
        ensures VersionOf(found, a) <= rv
      {
        var i := ViewFrom(vec, a);
        ViewHas(vec, i);
      }
    }
    if forall a :: ReadIn(ViewOf(vec), a) ==> VersionOf(found, a) <= rv {
      forall i | 0 <= i < |vec| && vec[i].entry.read
        ensures found[LockAtInTable(vec, i)].version <= rv
      {
        ViewHas(vec, i);
        assert ReadIn(ViewOf(vec), vec[i].key);
      }
    }
  }

  lemma {:induction false} LocationsUnlocked(vec: seq<Item>, words: seq<Word>)
    requires DistinctAddrs(vec) && LogUnlocked(ViewOf(vec), words)
    ensures forall i :: 0 <= i < |vec| ==> !words[LockAtInTable(vec, i)].locked
  {
    forall i | 0 <= i < |vec|
      ensures !words[LockAtInTable(vec, i)].locked
    {
      ViewHas(vec, i);
      assert LockFree(words, vec[i].key);
    }
  }

  /** One attempt to commit: guard, write version, fast path or validation, write-back, release.
      `found` is the log's locks as they are when the wait for them ends; the table may be in
      any state at first. */
  method TryCommit(world: World, log: LocationHashVectorSet, rv: nat, found: seq<Word>) returns (ok: bool)
    requires log.Valid() && world.words.Length == LOCKTABLE_SIZE && StagedInMemory(log.View(), world.memory)
    requires LogUnlocked(log.View(), found)
    modifies log`vec, world`clock, world`memory, world.words
    ensures log.View() == old(log.View()) && world.clock == old(world.clock) + 1
    ensures SortedLog(Addrs(log.vec), log.View()) && DistinctAddrs(log.vec)
    ensures ok <==> old(world.clock) == rv || forall a :: ReadIn(log.View(), a) ==> VersionOf(found, a) <= rv
    ensures world.memory == if ok then Seen(log.View(), old(world.memory)) else old(world.memory)
    ensures forall l {:trigger world.words[l]} :: 0 <= l < LOCKTABLE_SIZE ==>
      WordAfter(log.View(), ok, world.clock, old(world.words[l]), found[l], world.words[l], l)
  {
    ghost var before := world.words[..];
    log.StableSort();
    LocationsUnlocked(log.vec, found);
    ok := CommitUnderGuard(world, log.vec, rv, found);
    ValidatesByAddress(log.vec, found, rv);
    forall l | 0 <= l < LOCKTABLE_SIZE
      ensures WordAfter(log.View(), ok, world.clock, before[l], found[l], world.words[l], l)
    {
      WordsByAddress(log.vec, before, found, world.words[..], ok, world.clock, l);
    }
  }

  /** A commit turns away whoever sampled the clock before it and read what it wrote. */
  method StaleReaderFails(world: World, writer: LocationHashVectorSet, reader: LocationHashVectorSet, writerRv: nat, readerRv: nat,
      found: seq<Word>, ghost a: Addr) returns (committed: bool, admitted: bool)
    requires writer.Valid() && reader.Valid() && writer != reader && world.words.Length == LOCKTABLE_SIZE
    requires StagedInMemory(writer.View(), world.memory) && StagedInMemory(reader.View(), world.memory)
    requires LogUnlocked(writer.View(), found) && LogUnlocked(reader.View(), world.words[..]) && readerRv <= world.clock
    requires a in writer.View() && writer.View()[a].staged.Some? && ReadIn(reader.View(), a)
    modifies writer`vec, reader`vec, world`clock, world`memory, world.words
    ensures committed ==> !admitted
    ensures committed <==> old(world.clock) == writerRv || forall b :: ReadIn(writer.View(), b) ==> VersionOf(found, b) <= writerRv
  {
    ghost var before := world.words[..];
    committed := TryCommit(world, writer, writerRv, found);
    ghost var table := world.words[..];
    forall b | b in reader.View()
      ensures LockFree(table, b)
    {
      LockInTable(b);
      assert LockFree(before, b);
      assert WordAfter(writer.View(), committed, world.clock, before[LockIndex(b)], found[LockIndex(b)], table[LockIndex(b)], LockIndex(b));
    }
    LockInTable(a);
    assert WordAfter(writer.View(), committed, world.clock, before[LockIndex(a)], found[LockIndex(a)], table[LockIndex(a)], LockIndex(a));
    admitted := TryCommit(world, reader, readerRv, world.words[..]);
  }

  /** The rest of the attempt, with the locations sorted. */
  method CommitUnderGuard(world: World, vec: seq<Item>, rv: nat, found: seq<Word>) returns (ok: bool)
    requires world.words.Length == |found| == LOCKTABLE_SIZE && DistinctAddrs(vec) && StagedInMemory(ViewOf(vec), world.memory)
    requires forall i :: 0 <= i < |vec| ==> !found[LockAtInTable(vec, i)].locked
    modifies world`clock, world`memory, world.words
    ensures world.clock == old(world.clock) + 1
    ensures ok == (old(world.clock) == rv || Validates(found, vec, |vec|, rv))
    ensures world.memory == if ok then Seen(ViewOf(vec), old(world.memory)) else old(world.memory)
    ensures StoredTo(AsFound(old(world.words[..]), found, vec), world.words[..], vec, if ok then |vec| else 0, world.clock)
  {
    ghost var before := AsFound(world.words[..], found, vec);
    FoundWords(world.words[..], found, vec);
    var guard := new Guard(world.words, vec, found);
    ghost var taken := world.words[..];
    world.clock := world.clock + 1;
    ok := world.clock == rv + 1;
    if !ok {
      ok := Validate(world, vec, rv);
      SameValidation(before, taken, found, vec, rv);
    }
    if ok {
      WriteBackIsSeen(vec, world.memory);
      Commit(world, vec, world.clock);
    }
    GuardStillHolds(before, taken, world.words[..], vec, if ok then |vec| else 0, world.clock);
    guard.Release(before);
  }

  lemma FoundWords(before: seq<Word>, found: seq<Word>, vec: seq<Item>)
    requires |before| == |found| == LOCKTABLE_SIZE
    ensures forall i :: 0 <= i < |vec| ==> AsFound(before, found, vec)[LockAtInTable(vec, i)] == found[LockAtInTable(vec, i)]
  {
  }

  /** Validation under the guard looks at the versions as the locks were found. */
  lemma SameValidation(before: seq<Word>, taken: seq<Word>, found: seq<Word>, vec: seq<Item>, rv: nat)
    requires |before| == |found| == LOCKTABLE_SIZE && TakenTo(before, taken, vec, |vec|)
    requires forall i :: 0 <= i < |vec| ==> before[LockAtInTable(vec, i)] == found[LockAtInTable(vec, i)]
    ensures Validates(taken, vec, |vec|, rv) == Validates(found, vec, |vec|, rv)
  {
    forall i | 0 <= i < |vec|
      ensures taken[LockAtInTable(vec, i)].version == found[LockAtInTable(vec, i)].version
    {
      assert before[LockAtInTable(vec, i)] == found[LockAtInTable(vec, i)];
    }
  }

  /** Storing versions leaves the guard's locks taken. */
  lemma GuardStillHolds(before: seq<Word>, taken: seq<Word>, now: seq<Word>, vec: seq<Item>, n: nat, writeVersion: nat)
    requires |before| == LOCKTABLE_SIZE && TakenTo(before, taken, vec, |vec|) && StoredTo(taken, now, vec, n, writeVersion)
    requires forall i :: 0 <= i < |vec| ==> !before[LockAtInTable(vec, i)].locked
    ensures forall l :: 0 <= l < |now| ==> now[l].locked == (before[l].locked || UsesAtAll(vec, l))
    ensures forall l :: 0 <= l < |now| && UsesAtAll(vec, l) ==> !before[l].locked
  {
    forall l | 0 <= l < |now| && UsesAtAll(vec, l)
      ensures !before[l].locked
    {
      var i :| 0 <= i < |vec| && LockAt(vec, i) == l;
      assert LockAtInTable(vec, i) == l;
    }
  }

  // ---------------------------------------------------------------- the transaction manager

  datatype STATE = ABORT | RUNNING | ZOMBIE

  class TMan {
    var state: STATE
    var rv: nat
    const log: LocationHashVectorSet

    ghost predicate Valid()
      reads this, log
    {
      log.Valid()
    }

    constructor ()
      ensures Valid() && fresh(log) && !InTransaction() && log.View() == map[]
    {
      log := new LocationHashVectorSet();
      state, rv := ABORT, 0;
    }

    /** Clears the log, whatever state its index is in, and samples the clock. */
    method StartTransaction(clock: nat)
      modifies this, log
      ensures Valid() && state == RUNNING && rv == clock && log.View() == map[]
    {
      log.Clear();
      state, rv := RUNNING, clock;
    }

    method EndTransaction()
      modifies this, log
      ensures Valid() && state == ZOMBIE && rv == 0 && log.View() == map[]
    {
      log.Clear();
      state, rv := ZOMBIE, 0;
    }

    predicate InTransaction()
      reads this
    {
      state == RUNNING
    }

    /** False stands for the exception invalid_access. */
    method AssertInTransaction() returns (ok: bool)
      modifies this, log
      ensures ok == old(InTransaction())
      ensures ok ==> state == old(state) && rv == old(rv) && log.vec == old(log.vec) && log.index == old(log.index)
      ensures !ok ==> Valid() && state == ZOMBIE && rv == 0 && log.View() == map[]
    {
      if state != RUNNING {
        EndTransaction();
        return false;
      }
      return true;
    }

    /** Reading a TVar: the staged value if there is one, else memory's. */
    method Read(world: World, addr: Key) returns (r: Option<Val>)
      requires Valid() && addr in world.memory
      modifies this, log
      ensures Valid() && r.Some? == old(InTransaction())
      ensures r.Some? ==> state == old(state) && rv == old(rv) && log.View() == WithRead(old(log.View()), addr)
      ensures r.Some? ==> r.value == Seen(old(log.View()), world.memory)[addr]
      ensures r.None? ==> state == ZOMBIE && log.View() == map[]
    {
      var ok := AssertInTransaction();
      if !ok {
        return None;
      }
      log.RegisterRead(addr);
      r := log.FindWrite(addr);
      if r.None? {
        r := Some(world.memory[addr]);
      }
    }

    /** Assigning to a TVar: the value is staged. */
    method Write(addr: Key, val: Val) returns (ok: bool)
      requires Valid()
      modifies this, log
      ensures Valid() && ok == old(InTransaction())
      ensures ok ==> state == old(state) && rv == old(rv) && log.View() == WithWrite(old(log.View()), addr, val)
      ensures !ok ==> state == ZOMBIE && log.View() == map[]
    {
      ok := AssertInTransaction();
      if ok {
        log.RegisterWrite(addr, val);
      }
    }
  }

  /** What a thread may do with its manager. */
  datatype ManagerOp = StartOp(clock: nat) | EndOp | ReadOp(addr: Key) | WriteOp(addr: Key, val: Val)

  /** A transaction was started, and not ended since. */
  ghost predicate StartedSince(ops: seq<ManagerOp>) {
    exists i :: 0 <= i < |ops| && ops[i].StartOp? && forall j :: i < j < |ops| ==> !ops[j].EndOp?
  }

  lemma StartedSinceMore(ops: seq<ManagerOp>, op: ManagerOp)
    ensures StartedSince(ops + [op]) <==> op.StartOp? || (StartedSince(ops) && !op.EndOp?)
  {
    var ops' := ops + [op];
    if op.StartOp? {
      assert ops'[|ops|].StartOp?;
    }
    assert ops'[|ops|] == op;
    if StartedSince(ops) && !op.EndOp? {
      var i :| 0 <= i < |ops| && ops[i].StartOp? && forall j :: i < j < |ops| ==> !ops[j].EndOp?;
      assert ops'[i].StartOp?;
    }
    if StartedSince(ops') {
      var i :| 0 <= i < |ops'| && ops'[i].StartOp? && forall j :: i < j < |ops'| ==> !ops'[j].EndOp?;
      assert i < |ops| ==> ops[i].StartOp? && forall j :: i < j < |ops| ==> ops[j] == ops'[j];
    }
  }

  /** A new thread's manager, taken through any operations: accesses throw exactly if no
      transaction has been started that has not been ended, and so does it end up. */
  method Session(world: World, ops: seq<ManagerOp>) returns (running: bool, threw: seq<bool>)
    requires forall i :: 0 <= i < |ops| && ops[i].ReadOp? ==> ops[i].addr in world.memory
    ensures running <==> StartedSince(ops)
    ensures |threw| == |ops|
    ensures forall i :: 0 <= i < |ops| ==> (threw[i] <==> (ops[i].ReadOp? || ops[i].WriteOp?) && !StartedSince(ops[..i]))
  {
    var tm := new TMan();
    threw := [];
    while |threw| < |ops|
      invariant |threw| <= |ops| && fresh(tm) && fresh(tm.log) && tm.Valid()
      invariant tm.InTransaction() <==> StartedSince(ops[..|threw|])
      invariant forall i :: 0 <= i < |threw| ==> (threw[i] <==> (ops[i].ReadOp? || ops[i].WriteOp?) && !StartedSince(ops[..i]))
    {
      var n := |threw|;
      assert ops[..n + 1] == ops[..n] + [ops[n]];
      StartedSinceMore(ops[..n], ops[n]);
      var failed := false;
      match ops[n] {
        case StartOp(clock) =>
          tm.StartTransaction(clock);
        case EndOp =>
          tm.EndTransaction();
        case ReadOp(a) =>
          var r := tm.Read(world, a);
          failed := r.None?;
        case WriteOp(a, v) =>
          var ok := tm.Write(a, v);
          failed := !ok;
      }
      threw := threw + [failed];
    }
    assert ops[..|threw|] == ops;
    running := tm.InTransaction();
  }

  // ---------------------------------------------------------------- running a body

  /** What a read from memory returns, given what the body has done so far: other threads write
      between the reads, so any value at any time. */
  type Sight = (seq<Op>, Addr) -> Val

  /** Up to n operations of the body through the log. */
  function Sighted(body: Body, sight: Sight, log: map<Addr, Entry>, n: nat): (seq<Op>, map<Addr, Entry>) {
    if n == 0 then ([], log)
    else
      var (trace, now) := Sighted(body, sight, log, n - 1);
      match body(trace)
      case DoGet(a) =>
        (trace + [Get(a, if StagedIn(now, a).Some? then StagedIn(now, a).value else sight(trace, a))], WithRead(now, a))
      case DoPut(a, v) => (trace + [Put(a, v)], WithWrite(now, a, v))
      case Finish => (trace, now)
  }

  /** The next access of a body is to an address in `vars`. */
  predicate ActionIn(action: Action, vars: set<Addr>) {
    match action
    case DoGet(a) => a in vars
    case DoPut(a, _) => a in vars
    case Finish => true
  }

  /** The body's accesses are to addresses in `vars`, and it stops within `limit` operations. */
  ghost predicate StaysIn(body: Body, sight: Sight, log: map<Addr, Entry>, vars: set<Addr>, limit: nat) {
    (forall n: nat {:trigger Sighted(body, sight, log, n)} :: ActionIn(body(Sighted(body, sight, log, n).0), vars)) &&
    body(Sighted(body, sight, log, limit).0).Finish?
  }

  /** Runs the body inside a transaction, other threads writing to memory between its reads; a
      nested `atomically` comes to the same. */
  method RunBody(world: World, tm: TMan, body: Body, sight: Sight, ghost limit: nat) returns (trace: seq<Op>)
    requires tm.Valid() && tm.InTransaction() && StagedInMemory(tm.log.View(), world.memory)
    requires StaysIn(body, sight, tm.log.View(), world.memory.Keys, limit) && forall a :: a in world.memory ==> a < ADDRESSES
    modifies tm, tm.log, world`memory
    ensures tm.Valid() && tm.InTransaction() && tm.rv == old(tm.rv)
    ensures world.memory.Keys == old(world.memory.Keys) && StagedInMemory(tm.log.View(), world.memory)
    ensures body(trace).Finish? && |trace| <= limit
    ensures (trace, tm.log.View()) == Sighted(body, sight, old(tm.log.View()), |trace|)
  {
    trace := [];
    ghost var start := tm.log.View();
    while !body(trace).Finish?
      invariant tm.Valid() && tm.InTransaction() && tm.rv == old(tm.rv)
      invariant world.memory.Keys == old(world.memory.Keys) && StagedInMemory(tm.log.View(), world.memory)
      invariant |trace| <= limit && (trace, tm.log.View()) == Sighted(body, sight, start, |trace|)
      decreases limit - |trace|
    {
      assert ActionIn(body(Sighted(body, sight, start, |trace|).0), old(world.memory.Keys));
      trace := TakeAction(world, tm, body(trace), sight, trace);
    }
  }

  method TakeAction(world: World, tm: TMan, action: Action, sight: Sight, trace: seq<Op>) returns (trace': seq<Op>)
    requires tm.Valid() && tm.InTransaction() && StagedInMemory(tm.log.View(), world.memory) && !action.Finish?
    requires ActionIn(action, world.memory.Keys) && forall a :: a in world.memory ==> a < ADDRESSES
    modifies tm, tm.log, world`memory
    ensures tm.Valid() && tm.InTransaction() && tm.rv == old(tm.rv)
    ensures world.memory.Keys == old(world.memory.Keys) && StagedInMemory(tm.log.View(), world.memory)
    ensures var log, a := old(tm.log.View()), action.addr;
      if action.DoGet? then
        trace' == trace + [Get(a, if StagedIn(log, a).Some? then StagedIn(log, a).value else sight(trace, a))] &&
        tm.log.View() == WithRead(log, a)
      else trace' == trace + [Put(a, action.val)] && tm.log.View() == WithWrite(log, a, action.val)
  {
    match action {
      case DoGet(a) =>
        world.memory := world.memory[a := sight(trace, a)];
        var r := tm.Read(world, a);
        trace' := trace + [Get(a, r.value)];
      case DoPut(a, v) =>
        var ok := tm.Write(a, v);
        trace' := trace + [Put(a, v)];
    }
  }

  lemma {:induction false} ReadsKept(body: Body, sight: Sight, log: map<Addr, Entry>, k: nat, n: nat, a: Addr)
    requires k <= n && ReadIn(Sighted(body, sight, log, k).1, a)
    ensures ReadIn(Sighted(body, sight, log, n).1, a)
    decreases n
  {
    if k < n {
      ReadsKept(body, sight, log, k, n - 1, a);
    }
  }

  /** If every address it read always showed the value that one memory has, the run through the
      log is the run of the body directly on that memory. */
  lemma {:induction false} SightedIsDirect(body: Body, sight: Sight, log: map<Addr, Entry>, mem: map<Addr, Val>, n: nat, limit: nat)
    requires StaysIn(body, sight, log, mem.Keys, limit)
    requires forall a, trace :: ReadIn(Sighted(body, sight, log, n).1, a) && a in mem ==> sight(trace, a) == mem[a]
    ensures var (trace, now) := Sighted(body, sight, log, n);
      RunDirect(body, Seen(log, mem), n) == (trace, Seen(now, mem))
  {
    if n > 0 {
      forall a, trace | ReadIn(Sighted(body, sight, log, n - 1).1, a) && a in mem
        ensures sight(trace, a) == mem[a]
      {
        ReadsKept(body, sight, log, n - 1, n, a);
      }
      SightedIsDirect(body, sight, log, mem, n - 1, limit);
      var (trace, now) := Sighted(body, sight, log, n - 1);
      assert ActionIn(body(Sighted(body, sight, log, n - 1).0), mem.Keys);
      match body(trace)
      case DoGet(a) => SeenRead(now, mem, a);
      case DoPut(a, v) => SeenWrite(now, mem, a, v);
      case Finish =>
    }
  }

  /** An address of a body's log is marked as read exactly if the body read it, and has the
      value that the body last wrote to it, if any. */
  lemma {:induction false} SightedEntries(body: Body, sight: Sight, n: nat, a: Addr)
    ensures var (trace, log) := Sighted(body, sight, map[], n);
      (ReadIn(log, a) <==> exists v :: Get(a, v) in trace) &&
      StagedIn(log, a) == (if a in Writes(trace) then Some(Writes(trace)[a]) else None)
  {
    if n > 0 {
      SightedEntries(body, sight, n - 1, a);
      var (trace, log) := Sighted(body, sight, map[], n - 1);
      var (trace', log') := Sighted(body, sight, map[], n);
      if trace' != trace {
        assert trace'[..|trace'| - 1] == trace;
        assert forall op :: op in trace' <==> op in trace || op == trace'[|trace|];
      }
    }
  }

  lemma {:induction false} SightedStops(body: Body, sight: Sight, log: map<Addr, Entry>, k: nat, n: nat)
    requires k <= n && body(Sighted(body, sight, log, k).0).Finish?
    ensures Sighted(body, sight, log, n) == Sighted(body, sight, log, k)
    decreases n
  {
    if k < n {
      SightedStops(body, sight, log, k, n - 1);
    }
  }

  // ---------------------------------------------------------------- arguments

  /** An argument of `atomically`: a plain variable, or a TVar. */
  datatype Arg = Plain(val: Val) | TVarRef(addr: Addr)

  /** The transaction's code: its body, given the arguments' values at the start; how it leaves
      the arguments; and what it returns. */
  datatype Code<!Ret> = Code(body: seq<Arg> -> Body, leave: (seq<Arg>, seq<Op>) -> seq<Arg>, result: (seq<Arg>, seq<Op>) -> Ret)

  /** Code assigns to plain arguments only. */
  ghost predicate SameRefs(saved: seq<Arg>, args: seq<Arg>) {
    |args| == |saved| && forall i {:trigger args[i]} :: 0 <= i < |args| ==>
      args[i].Plain? == saved[i].Plain? && (args[i].TVarRef? ==> args[i] == saved[i])
  }

  ghost predicate KeepsRefs<Ret>(code: Code<Ret>) {
    forall args, trace :: SameRefs(args, code.leave(args, trace))
  }

  /** Puts the saved values back into the arguments that are not TVars. */
  method RestoreArgs(saved: seq<Arg>, args: array<Arg>)
    requires SameRefs(saved, args[..])
    modifies args
    ensures args[..] == saved
  {
    var i: nat := 0;
    while i < args.Length
      invariant i <= args.Length == |saved|
      invariant forall j :: 0 <= j < args.Length ==> args[j] == if j < i then saved[j] else old(args[j])
    {
      assert args[..][i] == old(args[i]) && old(args[..])[i] == old(args[i]);
      if args[i].Plain? {
        args[i] := saved[i];
      }
      i := i + 1;
    }
  }

  // ---------------------------------------------------------------- atomically

  /** What the other threads make of the world during an attempt: the clock when it starts; what
      its reads show; the lock table when try_commit starts, and the log's locks when the wait
      for each ends; and the clock and memory when the guard is complete. */
  datatype Env = Env(start: nat, sight: Sight, table: seq<Word>, words: seq<Word>, clock: nat, memory: map<Addr, Val>)

  /** What ProtocolTheorems.FetchedIsCurrent says of the other threads: an address whose version
      has not passed the sample by then, or any if the clock has not, showed the value it has
      then. Other addresses may have shown anything. */
  ghost predicate Disciplined(env: Env) {
    |env.table| == LOCKTABLE_SIZE && |env.words| == LOCKTABLE_SIZE &&
    forall a, trace :: a in env.memory && (env.clock == env.start || VersionOf(env.words, a) <= env.start) ==>
      env.sight(trace, a) == env.memory[a]
  }

  ghost predicate EnvOk(env: Env, body: Body, limit: nat) {
    Disciplined(env) && StaysIn(body, env.sight, map[], env.memory.Keys, limit) &&
    LogUnlocked(Sighted(body, env.sight, map[], limit).1, env.words) &&
    forall a :: a in env.memory ==> a < ADDRESSES
  }

  method Interfere(world: World, env: Env, clock: nat)
    requires world.words.Length == |env.table| == LOCKTABLE_SIZE
    modifies world`clock, world`memory, world.words
    ensures world.clock == clock && world.memory == env.memory && world.words[..] == env.table
  {
    world.clock, world.memory := clock, env.memory;
    forall l | 0 <= l < world.words.Length {
      world.words[l] := env.table[l];
    }
  }

  /** The outcome of one run of the code from these arguments, alone, on memory `mem`. */
  ghost predicate OneRun<Ret>(code: Code<Ret>, saved: seq<Arg>, mem: map<Addr, Val>, trace: seq<Op>,
      args: seq<Arg>, mem': map<Addr, Val>) {
    code.body(saved)(trace).Finish? && RunDirect(code.body(saved), mem, |trace|) == (trace, mem') &&
    args == code.leave(saved, trace)
  }

  /** The attempt may commit: the clock has not moved, or every address the body read has a
      version not above the sample. */
  ghost predicate MayCommit(env: Env, trace: seq<Op>) {
    |env.words| == LOCKTABLE_SIZE &&
    (env.clock == env.start || forall a, v :: Get(a, v) in trace ==> VersionOf(env.words, a) <= env.start)
  }

  lemma CommitIsOneRun(body: Body, env: Env, limit: nat, n: nat)
    requires EnvOk(env, body, limit) && MayCommit(env, Sighted(body, env.sight, map[], n).0)
    ensures var (trace, log) := Sighted(body, env.sight, map[], n);
      RunDirect(body, env.memory, n) == (trace, Seen(log, env.memory))
  {
    var (run, log) := Sighted(body, env.sight, map[], n);
    forall a, trace | ReadIn(log, a) && a in env.memory
      ensures env.sight(trace, a) == env.memory[a]
    {
      SightedEntries(body, env.sight, n, a);
    }
    SightedIsDirect(body, env.sight, map[], env.memory, n, limit);
    assert Seen(map[], env.memory) == env.memory;
  }

  lemma ReadsAreGets(body: Body, env: Env, n: nat)
    requires |env.words| == LOCKTABLE_SIZE
    ensures var (trace, log) := Sighted(body, env.sight, map[], n);
      MayCommit(env, trace) <==> env.clock == env.start || forall a :: ReadIn(log, a) ==> VersionOf(env.words, a) <= env.start
  {
    var (trace, log) := Sighted(body, env.sight, map[], n);
    forall a
      ensures ReadIn(log, a) <==> exists v :: Get(a, v) in trace
    {
      SightedEntries(body, env.sight, n, a);
    }
  }

  /** start_transaction and the code. */
  method RunCode<Ret>(world: World, tm: TMan, code: Code<Ret>, args: array<Arg>, env: Env, ghost limit: nat)
      returns (ret: Ret, ghost trace: seq<Op>)
    requires world.words.Length == LOCKTABLE_SIZE && EnvOk(env, code.body(args[..]), limit) && KeepsRefs(code)
    modifies world`clock, world`memory, world.words, tm, tm.log, args
    ensures SameRefs(old(args[..]), args[..]) && args[..] == code.leave(old(args[..]), trace)
    ensures ret == code.result(old(args[..]), trace)
    ensures tm.Valid() && tm.InTransaction() && tm.rv == env.start
    ensures code.body(old(args[..]))(trace).Finish? && |trace| <= limit
    ensures (trace, tm.log.View()) == Sighted(code.body(old(args[..])), env.sight, map[], |trace|)
    ensures StagedInMemory(tm.log.View(), env.memory)
  {
    ghost var saved := args[..];
    Interfere(world, env, env.start);
    tm.StartTransaction(world.clock);
    var run := RunBody(world, tm, code.body(args[..]), env.sight, limit);
    trace := run;
    ret := code.result(args[..], run);
    var left := code.leave(args[..], run);
    assert SameRefs(saved, left);
    forall i | 0 <= i < args.Length {
      args[i] := left[i];
    }
    assert args[..] == left;
  }

  /** start_transaction, the code, try_commit. It is validation that makes an attempt that
      commits one run of the code, whatever its reads may have shown. */
  method Attempt<Ret>(world: World, tm: TMan, code: Code<Ret>, args: array<Arg>, env: Env, ghost limit: nat)
      returns (ok: bool, ret: Ret, ghost trace: seq<Op>)
    requires world.words.Length == LOCKTABLE_SIZE && EnvOk(env, code.body(args[..]), limit) && KeepsRefs(code)
    modifies world`clock, world`memory, world.words, tm, tm.log, args
    ensures SameRefs(old(args[..]), args[..]) && ret == code.result(old(args[..]), trace)
    ensures ok <==> MayCommit(env, trace)
    ensures !ok ==> world.memory == env.memory
    ensures ok ==> OneRun(code, old(args[..]), env.memory, trace, args[..], world.memory)
  {
    ghost var body := code.body(args[..]);
    ret, trace := RunCode(world, tm, code, args, env, limit);
    SightedStops(body, env.sight, map[], |trace|, limit);
    Interfere(world, env, env.clock);
    ok := TryCommit(world, tm.log, tm.rv, env.words);
    ReadsAreGets(body, env, |trace|);
    if ok {
      CommitIsOneRun(body, env, limit, |trace|);
    }
  }

  /** Retries until an attempt commits, as one that `quiet` numbers, which no other thread
      disturbs, certainly does. However many attempts fail, and whatever they have read, the
      arguments, the result and memory come out as from one run from the saved arguments, and
      nothing of the transaction is left. */
  method Atomically<Ret>(world: World, tm: TMan, code: Code<Ret>, args: array<Arg>, envs: nat -> Env,
      ghost limits: nat -> nat, ghost quiet: nat) returns (ret: Ret, ghost n: nat, ghost trace: seq<Op>)
    requires world.words.Length == LOCKTABLE_SIZE && KeepsRefs(code) && !tm.InTransaction()
    requires forall i :: EnvOk(envs(i), code.body(args[..]), limits(i))
    requires envs(quiet).clock == envs(quiet).start
    modifies world`clock, world`memory, world.words, tm, tm.log, args
    ensures n <= quiet && OneRun(code, old(args[..]), envs(n).memory, trace, args[..], world.memory)
    ensures ret == code.result(old(args[..]), trace)
    ensures tm.Valid() && !tm.InTransaction() && tm.log.View() == map[]
  {
    var saved := args[..];
    var i: nat := 0;
    while true
      invariant i <= quiet && args[..] == saved
      decreases quiet - i
    {
      var ok;
      ok, ret, trace := Attempt(world, tm, code, args, envs(i), limits(i));
      if ok {
        tm.EndTransaction();
        n := i;
        return;
      }
      RestoreArgs(saved, args);
      i := i + 1;
    }
  }

  /** A nested call runs the code in the transaction under way: it reads and stages as the code
      would as part of the outer body, and leaves that transaction running. */
  method NestedAtomically<Ret>(world: World, tm: TMan, code: Code<Ret>, args: array<Arg>, sight: Sight, ghost limit: nat)
      returns (ret: Ret, ghost trace: seq<Op>)
    requires tm.Valid() && tm.InTransaction() && StagedInMemory(tm.log.View(), world.memory)
    requires StaysIn(code.body(args[..]), sight, tm.log.View(), world.memory.Keys, limit) && KeepsRefs(code)
    requires forall a :: a in world.memory ==> a < ADDRESSES
    modifies tm, tm.log, world`memory, args
    ensures tm.Valid() && tm.InTransaction() && tm.rv == old(tm.rv)
    ensures code.body(old(args[..]))(trace).Finish? && ret == code.result(old(args[..]), trace)
    ensures (trace, tm.log.View()) == Sighted(code.body(old(args[..])), sight, old(tm.log.View()), |trace|)
    ensures args[..] == code.leave(old(args[..]), trace)
  {
    ghost var saved := args[..];
    var run := RunBody(world, tm, code.body(args[..]), sight, limit);
    trace := run;
    ret := code.result(args[..], run);
    var left := code.leave(args[..], run);
    assert SameRefs(saved, left);
    forall i | 0 <= i < args.Length {
      args[i] := left[i];
    }
    assert args[..] == left;
  }
}
