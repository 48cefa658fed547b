/**
  The versioned lock word (tl2/version_lock.h): a 64-bit word holding a version above a lock
  bit, read and written by atomic operations. Where the source loops, `others` says what other
  threads have made of the word each time it is loaded, and what they have made of it by the
  time of the exchange.
 */
module VersionLock {
  import opened Options

  const LOCKED: bv64 := 1
  const VERSION_INC: bv64 := 2

  /** Versions at or above this lose their top bit when packed. */
  const LIMIT: bv64 := 0x8000_0000_0000_0000

  function Pack(v: bv64, locked: bool): bv64 {
    (v << 1) | (if locked then LOCKED else 0)
  }

  function UnpackVersion(s: bv64): bv64 {
    s >> 1
  }

  predicate IsLocked(s: bv64) {
    s & LOCKED != 0
  }

  /** What is left of a version in a word. */
  function Kept(v: bv64): (k: bv64)
    ensures k < LIMIT && (k == v <==> v < LIMIT)
  {
    v & (LIMIT - 1)
  }

  /** The lock bit always comes back, the version exactly if it is below 2^63, and otherwise
      without its top bit. */
  lemma PackKeepsApart(v: bv64, locked: bool)
    ensures UnpackVersion(Pack(v, locked)) == v <==> v < LIMIT
    ensures UnpackVersion(Pack(v, locked)) == Kept(v) && IsLocked(Pack(v, locked)) == locked
  {
  }

  /** Every word is the packing of its own parts. */
  lemma UnpackPack(s: bv64)
    ensures Pack(UnpackVersion(s), IsLocked(s)) == s && UnpackVersion(s) < LIMIT
  {
  }

  /** Different parts make different words. */
  lemma PackInjective(v: bv64, locked: bool, v': bv64, locked': bool)
    ensures Pack(v, locked) == Pack(v', locked') <==> Kept(v) == Kept(v') && locked == locked'
  {
    PackKeepsApart(v, locked);
    PackKeepsApart(v', locked');
    PackDropsTop(v, locked);
    PackDropsTop(v', locked');
  }

  lemma PackDropsTop(v: bv64, locked: bool)
    ensures Pack(v, locked) == Pack(Kept(v), locked)
  {
  }

  /** The word as loaded, and as it is when the exchange comes. */
  datatype Moment = Moment(loaded: bv64, exchanged: bv64)

  /** The exchange of this round succeeds. */
  predicate Succeeds(m: Moment) {
    !IsLocked(m.loaded) && m.exchanged == m.loaded
  }

  class Lock {
    var state: bv64

    function Version(): bv64
      reads this
    {
      UnpackVersion(state)
    }

    predicate Held()
      reads this
    {
      IsLocked(state)
    }

    constructor ()
      ensures Version() == 0 && !Held()
    {
      state := 0;
    }

    /** Waits for an unlocked word; none if it never is one. */
    method GetVersion(others: seq<bv64>) returns (r: Option<bv64>, ghost n: nat)
      modifies this
      ensures forall i :: 0 <= i < n && i < |others| ==> IsLocked(others[i])
      ensures r.Some? <==> n < |others|
      ensures r.Some? ==> !IsLocked(others[n]) && r.value == UnpackVersion(others[n]) && state == others[n]
    {
      var i: nat := 0;
      while i < |others|
        invariant i <= |others| && forall j :: 0 <= j < i ==> IsLocked(others[j])
      {
        state := others[i];
        var s := state;
        if s & LOCKED == 0 {
          return Some(UnpackVersion(s)), i;
        }
        i := i + 1;
      }
      return None, i;
    }

    method UnsafeGetVersion() returns (v: bv64)
      ensures v == Version()
    {
      return UnpackVersion(state);
    }

    /** fetch_add: the version goes up by one, round the end if need be, and the lock bit stays. */
    method IncrVersion() returns (v: bv64)
      modifies this
      ensures v == Version() == Kept(old(Version()) + 1) && Held() == old(Held())
    {
      state := state + VERSION_INC;
      return UnpackVersion(state);
    }

    method CompareExchange(expected: bv64, desired: bv64) returns (ok: bool)
      modifies this
      ensures ok == (old(state) == expected) && state == if ok then desired else old(state)
    {
      ok := state == expected;
      if ok {
        state := desired;
      }
    }

    /** Replaces the version in the first round in which the word is unlocked and stays what it
        was; rounds before that change nothing. */
    method SetVersion(v: bv64, others: seq<Moment>) returns (ok: bool, ghost n: nat)
      modifies this
      ensures forall i :: 0 <= i < n && i < |others| ==> !Succeeds(others[i])
      ensures ok <==> n < |others|
      ensures ok ==> Succeeds(others[n]) && Version() == Kept(v) && !Held()
    {
      var i: nat := 0;
      while i < |others|
        invariant i <= |others| && forall j :: 0 <= j < i ==> !Succeeds(others[j])
      {
        state := others[i].loaded;
        var s := state;
        if s & LOCKED == 0 {
          state := others[i].exchanged;
          ok := CompareExchange(s, Pack(v, false));
          if ok {
            n := i;
            return;
          }
        }
        i := i + 1;
      }
      return false, i;
    }

    /** A load, then a store of the new version with the loaded bit. */
    method UnsafeSetVersion(v: bv64)
      modifies this
      ensures Version() == Kept(v) && Held() == old(Held())
    {
      var s := state;
      var locked := s & LOCKED != 0;
      state := Pack(v, locked);
    }

    /** Takes the lock in the first round in which the word is unlocked and stays what it was,
        keeping the version; a taken lock is never taken again. */
    method Acquire(others: seq<Moment>) returns (ok: bool, ghost n: nat)
      modifies this
      ensures forall i :: 0 <= i < n && i < |others| ==> !Succeeds(others[i])
      ensures ok <==> n < |others|
      ensures ok ==> Succeeds(others[n]) && Held() && Version() == UnpackVersion(others[n].loaded)
    {
      var i: nat := 0;
      while i < |others|
        invariant i <= |others| && forall j :: 0 <= j < i ==> !Succeeds(others[j])
      {
        state := others[i].loaded;
        var s := state;
        if s & LOCKED == 0 {
          state := others[i].exchanged;
          ok := CompareExchange(s, s | LOCKED);
          if ok {
            n := i;
            return;
          }
        }
        i := i + 1;
      }
      return false, i;
    }

    /** fetch_and: the bit goes, the version stays. */
    method Unlock()
      modifies this
      ensures !Held() && Version() == old(Version())
    {
      state := state & !LOCKED;
    }
  }
}
