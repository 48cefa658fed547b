/**
  Nested transactions (tl2/stm.h): `atomically` inside a transaction just runs its body. A
  program of TVar accesses, branches, loops and `atomically` blocks, run by one thread
  undisturbed.
 */
module Nesting {
  import opened LockTable
  import opened Protocol
  import opened TransactionLog
  import opened Stm

  /** `Assign` stores a value that depends on the values read so far; `Branch` and `While`
      test them. */
  datatype Prog =
    | Skip
    | Fetch(addr: Addr)
    | Assign(addr: Addr, f: seq<Val> -> Val)
    | Then(first: Prog, second: Prog)
    | Branch(test: seq<Val> -> bool, yes: Prog, no: Prog)
    | While(test: seq<Val> -> bool, body: Prog)
    | Atomic(body: Prog)

  datatype Machine = Machine(state: STATE, log: map<Addr, Entry>, memory: map<Addr, Val>, fetched: seq<Val>)

  /** `Threw` stands for the exception invalid_access. A run is `Unfinished` if a loop has gone
      round more often than the bound it was given. */
  datatype End = Returned | Threw | Unfinished

  datatype Outcome = Outcome(m: Machine, end: End)

  /** An access outside any transaction clears the log and throws. */
  function Invalid(m: Machine): Outcome {
    Outcome(m.(state := ZOMBIE, log := map[]), Threw)
  }

  /** Runs the program; n bounds the rounds of loops. */
  function Exec(p: Prog, m: Machine, n: nat): Outcome
    decreases n, p
  {
    match p
    case Skip => Outcome(m, Returned)
    case Fetch(a) =>
      if m.state != RUNNING then Invalid(m)
      else if a !in m.memory then Outcome(m, Returned)
      else Outcome(m.(log := WithRead(m.log, a), fetched := m.fetched + [Seen(m.log, m.memory)[a]]), Returned)
    case Assign(a, f) =>
      if m.state != RUNNING then Invalid(m)
      else if a !in m.memory then Outcome(m, Returned)
      else Outcome(m.(log := WithWrite(m.log, a, f(m.fetched))), Returned)
    case Then(first, second) =>
      var o := Exec(first, m, n);
      if o.end != Returned then o else Exec(second, o.m, n)
    case Branch(test, yes, no) =>
      if test(m.fetched) then Exec(yes, m, n) else Exec(no, m, n)
    case While(test, body) =>
      if !test(m.fetched) then Outcome(m, Returned)
      else if n == 0 then Outcome(m, Unfinished)
      else
        var o := Exec(body, m, n);
        if o.end != Returned then o else Exec(p, o.m, n - 1)
    case Atomic(body) =>
      if m.state == RUNNING then Exec(body, m, n)
      else
        var o := Exec(body, m.(state := RUNNING, log := map[]), n);
        match o.end
        case Threw => Invalid(o.m)
        case Unfinished => o
        case Returned => Outcome(o.m.(state := ZOMBIE, log := map[], memory := Seen(o.m.log, o.m.memory)), Returned)
  }

  /** A run that ends within some bound ends the same way within any larger one: what is shown
      below for every bound holds of every run that ends. */
  lemma {:induction false} BoundDoesNotMatter(p: Prog, m: Machine, n: nat, n': nat)
    requires n <= n' && Exec(p, m, n).end != Unfinished
    ensures Exec(p, m, n') == Exec(p, m, n)
    decreases n, p
  {
    match p
    case Then(first, second) =>
      BoundDoesNotMatter(first, m, n, n');
      if Exec(first, m, n).end == Returned {
        BoundDoesNotMatter(second, Exec(first, m, n).m, n, n');
      }
    case Branch(test, yes, no) =>
      BoundDoesNotMatter(if test(m.fetched) then yes else no, m, n, n');
    case While(test, body) =>
      if test(m.fetched) {
        BoundDoesNotMatter(body, m, n, n');
        if Exec(body, m, n).end == Returned {
          BoundDoesNotMatter(p, Exec(body, m, n).m, n - 1, n' - 1);
        }
      }
    case Atomic(body) =>
      BoundDoesNotMatter(body, if m.state == RUNNING then m else m.(state := RUNNING, log := map[]), n, n');
    case _ =>
  }

  /** Every `atomically` replaced by its body. */
  function Inlined(p: Prog): Prog {
    match p
    case Then(first, second) => Then(Inlined(first), Inlined(second))
    case Branch(test, yes, no) => Branch(test, Inlined(yes), Inlined(no))
    case While(test, body) => While(test, Inlined(body))
    case Atomic(body) => Inlined(body)
    case _ => p
  }

  /** What a run straight on memory comes to: no log, no transactions, no states. */
  datatype Result = Result(memory: map<Addr, Val>, fetched: seq<Val>, finished: bool)

  function Direct(p: Prog, mem: map<Addr, Val>, fetched: seq<Val>, n: nat): Result
    decreases n, p
  {
    match p
    case Skip => Result(mem, fetched, true)
    case Fetch(a) => if a in mem then Result(mem, fetched + [mem[a]], true) else Result(mem, fetched, true)
    case Assign(a, f) => if a in mem then Result(mem[a := f(fetched)], fetched, true) else Result(mem, fetched, true)
    case Then(first, second) =>
      var r := Direct(first, mem, fetched, n);
      if r.finished then Direct(second, r.memory, r.fetched, n) else r
    case Branch(test, yes, no) =>
      if test(fetched) then Direct(yes, mem, fetched, n) else Direct(no, mem, fetched, n)
    case While(test, body) =>
      if !test(fetched) then Result(mem, fetched, true)
      else if n == 0 then Result(mem, fetched, false)
      else
        var r := Direct(body, mem, fetched, n);
        if r.finished then Direct(p, r.memory, r.fetched, n - 1) else r
    case Atomic(body) => Direct(body, mem, fetched, n)
  }

  /** What a transaction that runs on from `m` to `o` has in common with the direct run `r`. */
  predicate Follows(m: Machine, o: Outcome, r: Result) {
    o.m.state == RUNNING && o.m.memory == m.memory && o.end == (if r.finished then Returned else Unfinished) &&
    r.memory == Seen(o.m.log, o.m.memory) && r.fetched == o.m.fetched
  }

  /** Inside a transaction nothing throws, nothing ends the transaction and memory stays as it
      is; what the transaction sees goes through the same changes as memory does directly. */
  lemma {:induction false} RunningMeansDirect(p: Prog, m: Machine, n: nat)
    requires m.state == RUNNING
    ensures Follows(m, Exec(p, m, n), Direct(p, Seen(m.log, m.memory), m.fetched, n))
    decreases n, p
  {
    match p
    case Skip =>
    case Fetch(a) =>
      SeenRead(m.log, m.memory, a);
    case Assign(a, f) =>
      if a in m.memory {
        SeenWrite(m.log, m.memory, a, f(m.fetched));
      }
    case Then(first, second) =>
      RunningMeansDirect(first, m, n);
      RunningMeansDirect(second, Exec(first, m, n).m, n);
    case Branch(test, yes, no) =>
      RunningMeansDirect(if test(m.fetched) then yes else no, m, n);
    case While(test, body) =>
      if test(m.fetched) && n > 0 {
        RunningMeansDirect(body, m, n);
        RunningMeansDirect(p, Exec(body, m, n).m, n - 1);
      }
    case Atomic(body) =>
      RunningMeansDirect(body, m, n);
  }

  lemma {:induction false} RunningInlined(p: Prog, m: Machine, n: nat)
    requires m.state == RUNNING
    ensures Exec(Inlined(p), m, n) == Exec(p, m, n)
    decreases n, p
  {
    match p
    case Then(first, second) =>
      RunningInlined(first, m, n);
      RunningMeansDirect(first, m, n);
      RunningInlined(second, Exec(first, m, n).m, n);
    case Branch(test, yes, no) =>
      RunningInlined(if test(m.fetched) then yes else no, m, n);
    case While(test, body) =>
      if test(m.fetched) && n > 0 {
        RunningInlined(body, m, n);
        RunningMeansDirect(body, m, n);
        RunningInlined(p, Exec(body, m, n).m, n - 1);
      }
    case Atomic(body) =>
      RunningInlined(body, m, n);
    case _ =>
  }

  /** A transaction means the same with every nested one inlined, at any depth, wherever it is
      started. */
  lemma NestedMeansInlined(p: Prog, m: Machine, n: nat)
    ensures Exec(Atomic(p), m, n) == Exec(Atomic(Inlined(p)), m, n)
  {
    RunningInlined(p, m.(state := RUNNING), n);
    RunningInlined(p, m.(state := RUNNING, log := map[]), n);
  }

  /** A whole transaction that ends is its body run directly on memory; no transaction is
      running after it and the log is empty. */
  lemma AtomicMeansDirect(p: Prog, m: Machine, n: nat)
    requires m.state != RUNNING
    ensures var r := Direct(p, m.memory, m.fetched, n);
      var o := Exec(Atomic(p), m, n);
      if r.finished then o == Outcome(Machine(ZOMBIE, map[], r.memory, r.fetched), Returned) else o.end == Unfinished
  {
    RunningMeansDirect(p, m.(state := RUNNING, log := map[]), n);
    assert Seen(map[], m.memory) == m.memory;
  }

  /** An access of the direct run: whether it lies outside every `atomically`, and what memory
      and the fetched values are when it comes. */
  datatype Access = Access(outside: bool, memory: map<Addr, Val>, fetched: seq<Val>)

  /** The accesses of the direct run, in order. */
  function Accesses(p: Prog, mem: map<Addr, Val>, fetched: seq<Val>, outside: bool, n: nat): seq<Access>
    decreases n, p
  {
    match p
    case Skip => []
    case Fetch(_) => [Access(outside, mem, fetched)]
    case Assign(_, _) => [Access(outside, mem, fetched)]
    case Then(first, second) =>
      var r := Direct(first, mem, fetched, n);
      Accesses(first, mem, fetched, outside, n) + if r.finished then Accesses(second, r.memory, r.fetched, outside, n) else []
    case Branch(test, yes, no) =>
      if test(fetched) then Accesses(yes, mem, fetched, outside, n) else Accesses(no, mem, fetched, outside, n)
    case While(test, body) =>
      if !test(fetched) || n == 0 then []
      else
        var r := Direct(body, mem, fetched, n);
        Accesses(body, mem, fetched, outside, n) + if r.finished then Accesses(p, r.memory, r.fetched, outside, n - 1) else []
    case Atomic(body) => Accesses(body, mem, fetched, false, n)
  }

  /** The k-th access is the first outside every `atomically`. */
  predicate FirstOutside(accesses: seq<Access>, k: nat) {
    k < |accesses| && accesses[k].outside && forall j :: 0 <= j < k ==> !accesses[j].outside
  }

  ghost predicate HasOutside(accesses: seq<Access>) {
    exists k :: 0 <= k < |accesses| && accesses[k].outside
  }

  /** What the run from outside a transaction has in common with the direct run `r` and its
      accesses. */
  ghost predicate Stops(o: Outcome, r: Result, accesses: seq<Access>) {
    (o.end == Threw <==> HasOutside(accesses)) &&
    (forall k: nat {:trigger FirstOutside(accesses, k)} :: FirstOutside(accesses, k) ==>
      o.m.memory == accesses[k].memory && o.m.fetched == accesses[k].fetched) &&
    (o.end != Unfinished ==> o.m.state != RUNNING && o.m.log == map[]) &&
    (o.end == Returned ==> r == Result(o.m.memory, o.m.fetched, true)) &&
    (o.end == Unfinished ==> !r.finished)
  }

  lemma {:induction false} InsideOnly(p: Prog, mem: map<Addr, Val>, fetched: seq<Val>, n: nat)
    ensures !HasOutside(Accesses(p, mem, fetched, false, n))
    decreases n, p
  {
    match p
    case Then(first, second) =>
      var r := Direct(first, mem, fetched, n);
      InsideOnly(first, mem, fetched, n);
      InsideOnly(second, r.memory, r.fetched, n);
    case Branch(test, yes, no) =>
      InsideOnly(if test(fetched) then yes else no, mem, fetched, n);
    case While(test, body) =>
      if test(fetched) && n > 0 {
        var r := Direct(body, mem, fetched, n);
        InsideOnly(body, mem, fetched, n);
        InsideOnly(p, r.memory, r.fetched, n - 1);
      }
    case Atomic(body) =>
      InsideOnly(body, mem, fetched, n);
    case _ =>
  }

  lemma OutsideOfTwo(x: seq<Access>, y: seq<Access>)
    ensures HasOutside(x + y) <==> HasOutside(x) || HasOutside(y)
  {
    if HasOutside(x) {
      var i :| 0 <= i < |x| && x[i].outside;
      assert (x + y)[i].outside;
    }
    if HasOutside(y) {
      var i :| 0 <= i < |y| && y[i].outside;
      assert (x + y)[|x| + i].outside;
    }
  }

  /** The first access outside every `atomically` is that of the earlier part if it has one,
      and that of the later part if not. */
  lemma FirstOfTwo(x: seq<Access>, y: seq<Access>, k: nat)
    requires FirstOutside(x + y, k)
    ensures HasOutside(x) ==> FirstOutside(x, k) && (x + y)[k] == x[k]
    ensures !HasOutside(x) ==> k >= |x| && FirstOutside(y, k - |x|) && (x + y)[k] == y[k - |x|]
  {
    forall j | 0 <= j < |x|
      ensures (x + y)[j] == x[j]
    {
    }
    forall j | 0 <= j < |y|
      ensures (x + y)[|x| + j] == y[j]
    {
    }
  }

  /** Two runs in a row. */
  lemma StopsInTurn(o: Outcome, r: Result, x: seq<Access>, o': Outcome, r': Result, y: seq<Access>)
    requires Stops(o, r, x) && (o.end == Returned ==> Stops(o', r', y))
    ensures if o.end == Returned then Stops(o', r', x + y)
      else Stops(o, if r.finished then r' else r, x + if r.finished then y else [])
  {
    var z := if r.finished then y else [];
    OutsideOfTwo(x, z);
    forall k: nat | FirstOutside(x + z, k)
      ensures var m := if o.end == Returned then o'.m else o.m;
        m.memory == (x + z)[k].memory && m.fetched == (x + z)[k].fetched
    {
      FirstOfTwo(x, z, k);
      assert HasOutside(x + z);
    }
  }

  /** Started outside a transaction, a program throws exactly if its direct run comes to an
      access outside every transaction, and leaves memory and the fetched values as they were
      when the first such access came; if it has none, the program is its direct run. Unless
      the run is cut short, no transaction is running after it and the log is empty. */
  lemma {:induction false} ThrowsIffEscapes(p: Prog, m: Machine, n: nat)
    requires m.state != RUNNING && m.log == map[]
    ensures Stops(Exec(p, m, n), Direct(p, m.memory, m.fetched, n), Accesses(p, m.memory, m.fetched, true, n))
    decreases n, p
  {
    match p
    case Skip =>
    case Fetch(_) =>
      assert Accesses(p, m.memory, m.fetched, true, n)[0].outside;
    case Assign(_, _) =>
      assert Accesses(p, m.memory, m.fetched, true, n)[0].outside;
    case Then(first, second) =>
      ThrowsIffEscapes(first, m, n);
      var o, r := Exec(first, m, n), Direct(first, m.memory, m.fetched, n);
      if o.end == Returned {
        ThrowsIffEscapes(second, o.m, n);
      }
      StopsInTurn(o, r, Accesses(first, m.memory, m.fetched, true, n),
        Exec(second, o.m, n), Direct(second, r.memory, r.fetched, n), Accesses(second, r.memory, r.fetched, true, n));
    case Branch(test, yes, no) =>
      ThrowsIffEscapes(if test(m.fetched) then yes else no, m, n);
    case While(test, body) =>
      if test(m.fetched) && n > 0 {
        ThrowsIffEscapes(body, m, n);
        var o, r := Exec(body, m, n), Direct(body, m.memory, m.fetched, n);
        if o.end == Returned {
          ThrowsIffEscapes(p, o.m, n - 1);
        }
        StopsInTurn(o, r, Accesses(body, m.memory, m.fetched, true, n),
          Exec(p, o.m, n - 1), Direct(p, r.memory, r.fetched, n - 1), Accesses(p, r.memory, r.fetched, true, n - 1));
      }
    case Atomic(body) =>
      InsideOnly(body, m.memory, m.fetched, n);
      AtomicMeansDirect(body, m, n);
  }
}
