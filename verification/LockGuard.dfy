/**
  The lock guard and the commit of one thread, uninterrupted (tl2/lock_guard.h, tl2/stm.h):
  what the loops over the sorted log do to the lock table and to memory, for any log and any
  collisions of addresses on locks. What other threads may do in between is in module Protocol.
 */
module LockGuard {
  import opened Options
  import opened LockTable
  import opened Protocol
  import opened RadixKeys
  import opened TransactionLog

  /** The lock of the log's i-th location. */
  function LockAt(vec: seq<Item>, i: nat): nat
    requires i < |vec|
  {
    LockIndex(vec[i].key)
  }

  lemma LockInTable(a: Addr)
    ensures LockIndex(a) < LOCKTABLE_SIZE
  {
  }

  /** Some location before the n-th uses the lock. */
  ghost predicate Uses(vec: seq<Item>, n: nat, l: nat) {
    exists i :: 0 <= i < n && i < |vec| && LockAt(vec, i) == l
  }

  ghost predicate UsesAtAll(vec: seq<Item>, l: nat) {
    Uses(vec, |vec|, l)
  }

  lemma UsesMore(vec: seq<Item>, n: nat, l: nat)
    requires n < |vec|
    ensures Uses(vec, n + 1, l) <==> Uses(vec, n, l) || LockAt(vec, n) == l
  {
  }

  /** The lock of location i was not used by an earlier one. */
  ghost predicate IsFirst(vec: seq<Item>, i: nat) {
    i < |vec| && !Uses(vec, i, LockAt(vec, i))
  }

  /** `locked` lists, in order, the first location of every lock among the first n locations. */
  ghost predicate Firsts(vec: seq<Item>, n: nat, locked: seq<nat>) {
    (forall k, m :: 0 <= k < m < |locked| ==> locked[k] < locked[m]) &&
    (forall k :: 0 <= k < |locked| ==> locked[k] < n && IsFirst(vec, locked[k])) &&
    (forall i: nat {:trigger IsFirst(vec, i)} :: i < n && IsFirst(vec, i) ==> i in locked)
  }

  /** The locks of the locations with the given numbers. */
  function LocksOf(vec: seq<Item>, locked: seq<nat>): seq<nat>
    requires forall k :: 0 <= k < |locked| ==> locked[k] < |vec|
  {
    seq(|locked|, k requires 0 <= k < |locked| => LockAt(vec, locked[k]))
  }

  /** The guard's list takes each lock that the log uses exactly once. */
  lemma FirstsTakeOnce(vec: seq<Item>, locked: seq<nat>)
    requires Firsts(vec, |vec|, locked)
    ensures forall l :: UsesAtAll(vec, l) <==> l in LocksOf(vec, locked)
    ensures forall k, m :: 0 <= k < m < |locked| ==> LocksOf(vec, locked)[k] != LocksOf(vec, locked)[m]
  {
    forall l
      ensures UsesAtAll(vec, l) <==> l in LocksOf(vec, locked)
    {
      if UsesAtAll(vec, l) {
        var i := FirstUse(vec, |vec|, l);
        var k :| 0 <= k < |locked| && locked[k] == i;
        assert LocksOf(vec, locked)[k] == l;
      }
      if l in LocksOf(vec, locked) {
        var k :| 0 <= k < |locked| && LocksOf(vec, locked)[k] == l;
        assert LockAt(vec, locked[k]) == l;
      }
    }
    forall k, m | 0 <= k < m < |locked|
      ensures LocksOf(vec, locked)[k] != LocksOf(vec, locked)[m]
    {
      assert IsFirst(vec, locked[m]) && locked[k] < locked[m];
    }
  }

  lemma {:induction false} FirstUse(vec: seq<Item>, n: nat, l: nat) returns (i: nat)
    requires n <= |vec| && Uses(vec, n, l)
    ensures i < n && IsFirst(vec, i) && LockAt(vec, i) == l
  {
    if Uses(vec, n - 1, l) {
      i := FirstUse(vec, n - 1, l);
    } else {
      i := n - 1;
    }
  }

  lemma FirstsMore(vec: seq<Item>, n: nat, locked: seq<nat>)
    requires n < |vec| && Firsts(vec, n, locked)
    ensures Firsts(vec, n + 1, if Uses(vec, n, LockAt(vec, n)) then locked else locked + [n])
  {
    var locked' := if Uses(vec, n, LockAt(vec, n)) then locked else locked + [n];
    forall i: nat | i < n + 1 && IsFirst(vec, i)
      ensures i in locked'
    {
      assert i < n ==> i in locked;
    }
  }

  // ---------------------------------------------------------------- the guard

  /** The table with the locks of the first n locations taken. */
  ghost predicate TakenTo(before: seq<Word>, now: seq<Word>, vec: seq<Item>, n: nat) {
    |before| == |now| &&
    forall l :: 0 <= l < |now| ==> now[l] == Word(before[l].version, before[l].locked || Uses(vec, n, l))
  }

  /** The table when the guard is complete, but for the guard's own bits: the log's locks as
      they were when the wait for them ended, the others as before. */
  function AsFound(before: seq<Word>, found: seq<Word>, vec: seq<Item>): (words: seq<Word>)
    requires |before| == |found|
    ensures |words| == |before|
  {
    seq(|before|, l requires 0 <= l < |before| => if exists i :: 0 <= i < |vec| && LockAt(vec, i) == l then found[l] else before[l])
  }

  /** The locks of the first n locations are taken, each in the state in which it was found. */
  ghost predicate TakenSoFar(before: seq<Word>, found: seq<Word>, now: seq<Word>, vec: seq<Item>, n: nat) {
    |before| == |found| == |now| &&
    forall l :: 0 <= l < |now| ==> now[l] == if Uses(vec, n, l) then Word(found[l].version, true) else before[l]
  }

  lemma TakenMore(before: seq<Word>, found: seq<Word>, now: seq<Word>, vec: seq<Item>, n: nat)
    requires n < |vec| && TakenSoFar(before, found, now, vec, n) && LockAt(vec, n) < |now|
    ensures var l := LockAt(vec, n);
      TakenSoFar(before, found, if Uses(vec, n, l) then now else now[l := Word(found[l].version, true)], vec, n + 1)
  {
    forall m
      ensures Uses(vec, n + 1, m) <==> Uses(vec, n, m) || m == LockAt(vec, n)
    {
      UsesMore(vec, n, m);
    }
  }

  lemma AllTaken(before: seq<Word>, found: seq<Word>, now: seq<Word>, vec: seq<Item>)
    requires TakenSoFar(before, found, now, vec, |vec|)
    ensures TakenTo(AsFound(before, found, vec), now, vec, |vec|)
  {
    forall l | 0 <= l < |now|
      ensures now[l] == Word(AsFound(before, found, vec)[l].version, AsFound(before, found, vec)[l].locked || Uses(vec, |vec|, l))
    {
      assert Uses(vec, |vec|, l) <==> exists i :: 0 <= i < |vec| && LockAt(vec, i) == l;
    }
  }

  class Guard {
    const words: array<Word>
    const vec: seq<Item>
    /** m_owner of each location is this thread. */
    var owned: seq<bool>
    /** m_locked. */
    var locked: seq<nat>

    /** Takes the locks in log order, waiting for each until other threads have left it as in
        `found`, free; the table may be in any state at first. */
    constructor (words: array<Word>, vec: seq<Item>, found: seq<Word>)
      requires words.Length == |found| == LOCKTABLE_SIZE
      requires forall i :: 0 <= i < |vec| ==> !found[LockAtInTable(vec, i)].locked
      modifies words
      ensures this.words == words && this.vec == vec
      ensures TakenTo(AsFound(old(words[..]), found, vec), words[..], vec, |vec|)
      ensures |owned| == |vec| && forall i :: 0 <= i < |vec| ==> owned[i]
      ensures Firsts(vec, |vec|, locked)
    {
      this.words, this.vec := words, vec;
      owned, locked := seq(|vec|, _ => false), [];
      new;
      AcquireAll(found);
    }

    method AcquireAll(found: seq<Word>)
      requires words.Length == |found| == LOCKTABLE_SIZE && locked == [] && |owned| == |vec|
      requires forall i :: 0 <= i < |vec| ==> !owned[i] && !found[LockAtInTable(vec, i)].locked
      modifies this, words
      ensures TakenTo(AsFound(old(words[..]), found, vec), words[..], vec, |vec|)
      ensures |owned| == |vec| && forall i :: 0 <= i < |vec| ==> owned[i]
      ensures Firsts(vec, |vec|, locked)
    {
      ghost var before := words[..];
      var seen: set<nat> := {};
      var i: nat := 0;
      while i < |vec|
        invariant i <= |vec| && |owned| == |vec| && (forall j :: 0 <= j < |vec| ==> owned[j] == (j < i))
        invariant forall l :: l in seen <==> Uses(vec, i, l)
        invariant TakenSoFar(before, found, words[..], vec, i) && Firsts(vec, i, locked)
      {
        TakenMore(before, found, words[..], vec, i);
        FirstsMore(vec, i, locked);
        var l := LockAtInTable(vec, i);
        ghost var now := words[..];
        if l !in seen {
          seen := seen + {l};
          if !owned[i] {
            TakeLock(l, found[l]);
            locked := locked + [i];
          }
        }
        assert words[..] == if Uses(vec, i, l) then now else now[l := Word(found[l].version, true)];
        forall m
          ensures m in seen <==> Uses(vec, i + 1, m)
        {
          UsesMore(vec, i, m);
        }
        owned := owned[i := true];
        i := i + 1;
      }
      AllTaken(before, found, words[..], vec);
    }

    /** The wait ends with the word as found, and the bit is set. */
    method TakeLock(l: nat, found: Word)
      requires l < words.Length && !found.locked
      modifies words
      ensures words[..] == old(words[..])[l := Word(found.version, true)]
    {
      words[l] := found;
      words[l] := Word(words[l].version, true);
    }

    /** The destructor: releases in reverse order what the guard took. Locations that were
        only marked keep their mark. */
    method Release(ghost before: seq<Word>)
      requires words.Length == LOCKTABLE_SIZE && Firsts(vec, |vec|, locked) && |owned| == |vec|
      requires |before| == words.Length
      requires forall l :: 0 <= l < words.Length ==> words[l].locked == (before[l].locked || UsesAtAll(vec, l))
      requires forall l :: 0 <= l < words.Length && UsesAtAll(vec, l) ==> !before[l].locked
      modifies this`owned, words
      ensures forall l :: 0 <= l < words.Length ==> words[l] == Word(old(words[l].version), before[l].locked)
      ensures |owned| == |vec| && forall i :: 0 <= i < |vec| ==> owned[i] == (old(owned[i]) && i !in locked)
    {
      ghost var start := words[..];
      FirstsTakeOnce(vec, locked);
      ghost var taken := LocksOf(vec, locked);
      var k: nat := |locked|;
      while k > 0
        invariant k <= |locked| == |taken| && |owned| == |vec|
        invariant forall l :: 0 <= l < words.Length ==>
          words[l] == Word(start[l].version, start[l].locked && l !in taken[k..])
        invariant forall i :: 0 <= i < |vec| ==> owned[i] == (old(owned[i]) && i !in locked[k..])
      {
        k := k - 1;
        assert IsFirst(vec, locked[k]);
        LockInTable(vec[locked[k]].key);
        var l := LockAt(vec, locked[k]);
        assert taken[k..] == [l] + taken[k + 1..];
        assert locked[k..] == [locked[k]] + locked[k + 1..];
        words[l] := Word(words[l].version, false);
        owned := owned[locked[k] := false];
      }
      assert taken[0..] == taken && locked[0..] == locked;
    }
  }

  function LockAtInTable(vec: seq<Item>, i: nat): (l: nat)
    requires i < |vec|
    ensures l < LOCKTABLE_SIZE && l == LockAt(vec, i)
  {
    LockInTable(vec[i].key);
    LockAt(vec, i)
  }
}
