/** What the STM promises about committed transactions, in every reachable state. */
module ProtocolTheorems {
  import opened Options
  import opened LockTable
  import opened Protocol
  import opened ProtocolInvariant
  import opened ProtocolSteps
  import opened ProtocolProof

  // ---------------------------------------------------------------- serial replay

  /** Memory after the transactions with write version below `n` ran one after another. */
  ghost function Replay(init: map<Addr, Val>, h: map<nat, Txn>, n: nat): map<Addr, Val> {
    if n == 0 then init
    else if n - 1 in h then Replay(init, h, n - 1) + Writes(h[n - 1].trace)
    else Replay(init, h, n - 1)
  }

  lemma {:induction false} ReplayAt(sh: Shared, n: nat)
    requires ShapeOk(sh) && HistoryOk(sh)
    ensures Replay(sh.init, sh.history, n).Keys == sh.init.Keys
    ensures forall a :: a in sh.init ==> Replay(sh.init, sh.history, n)[a] == ValAt(sh.init, sh.history, a, n)
  {
    if n > 0 {
      ReplayAt(sh, n - 1);
      if n - 1 in sh.history {
        assert TxnOk(sh, n - 1);
      }
    }
  }

  /** A conforming trace whose fetched values all come from `m` is the body run on `m`. */
  lemma {:induction false} ConformsRunsDirect(body: Body, trace: seq<Op>, fetched: set<(Addr, Val)>, m: map<Addr, Val>)
    requires Conforms(body, trace, fetched)
    requires forall a, v :: (a, v) in fetched ==> a in m && v == m[a]
    ensures RunDirect(body, m, |trace|) == (trace, m + Writes(trace))
  {
    if trace == [] {
      assert m + Writes(trace) == m;
    } else {
      var before := trace[..|trace| - 1];
      ConformsRunsDirect(body, before, fetched, m);
      assert trace == before + [trace[|trace| - 1]];
      match trace[|trace| - 1]
      case Get(a, v) =>
        assert m + Writes(trace) == m + Writes(before);
      case Put(a, v) =>
        assert m + Writes(trace) == (m + Writes(before))[a := v];
    }
  }

  /** Serializability: every committed transaction is its body run alone, directly on the
      memory left by the transactions of smaller write version, whatever order the commits
      and write-backs happened in. */
  lemma Serializable(s: State, w: nat)
    requires Reachable(s) && w in s.sh.history
    ensures var tx := s.sh.history[w];
      tx.body(tx.trace) == Finish &&
      RunDirect(tx.body, Replay(s.sh.init, s.sh.history, w), |tx.trace|) ==
        (tx.trace, Replay(s.sh.init, s.sh.history, w + 1))
  {
    InvReachable(s);
    var sh, tx := s.sh, s.sh.history[w];
    assert TxnOk(sh, w) && ReadsLatest(sh, w);
    ReplayAt(sh, w);
    ConformsRunsDirect(tx.body, tx.trace, tx.fetched, Replay(sh.init, sh.history, w));
  }

  /** The order is strict: a transaction that ended before another began has the smaller
      write version. */
  lemma RealTimeOrder(s: State, w: nat, w': nat)
    requires Reachable(s) && w in s.sh.done && w' in s.sh.history
    requires s.sh.done[w] <= s.sh.history[w'].began
    ensures w in s.sh.history && w < w'
  {
    InvReachable(s);
  }

  /** With no write-back under way, memory is the serial replay of everything committed. */
  lemma MemoryIsReplay(s: State)
    requires Reachable(s)
    requires forall t :: 0 <= t < |s.threads| ==> !Publishing(s.threads[t].pc)
    ensures s.sh.mem.Keys == Replay(s.sh.init, s.sh.history, s.sh.clock + 1).Keys
    ensures forall a :: a in s.sh.mem ==>
      !s.sh.mem[a].busy && s.sh.mem[a].val == Replay(s.sh.init, s.sh.history, s.sh.clock + 1)[a]
  {
    InvReachable(s);
    ReplayAt(s.sh, s.sh.clock + 1);
    forall a | a in s.sh.mem
      ensures Quiet(s, a)
    {
    }
  }

  // ---------------------------------------------------------------- validation

  /** The fast path loses nothing: full validation would succeed as well. */
  lemma FastPathIsSound(s: State, t: nat, i: nat)
    requires Reachable(s) && t < |s.threads| && s.threads[t].pc.Decide?
    requires s.threads[t].wv == s.threads[t].rv + 1 && i < |s.threads[t].order|
    ensures Owns(s.sh, s.threads[t], i) && ValidatesAt(s.sh, s.threads[t], i)
  {
    InvReachable(s);
    FastPathValidates(s, t);
    assert ThreadOk(s.sh, s.threads[t]);
    assert s.threads[t].order[i] in s.threads[t].log;
  }

  /** Location by location: a value that an attempt has fetched from memory is the one memory
      holds when validation looks, if the version has not passed the attempt's sample; on the
      fast path that is so of every location. This is what module Stm takes of other threads. */
  lemma FetchedIsCurrent(s: State, t: nat, a: Addr, v: Val)
    requires Reachable(s) && t < |s.threads| && Validating(s.threads[t].pc)
    requires (a, v) in s.threads[t].fetched && a in s.sh.mem && a in s.sh.lockOf && s.sh.lockOf[a] < |s.sh.words|
    requires s.sh.words[s.sh.lockOf[a]].version <= s.threads[t].rv ||
      (s.threads[t].pc.Decide? && s.threads[t].wv == s.threads[t].rv + 1)
    ensures !s.sh.mem[a].busy && s.sh.mem[a].val == v
  {
    ThreadReachable(s, t);
    Current(s.sh, s.threads[t], a, v);
  }

  lemma ThreadReachable(s: State, t: nat)
    requires Reachable(s) && t < |s.threads|
    ensures ShapeOk(s.sh) && ThreadOk(s.sh, s.threads[t])
  {
    InvReachable(s);
  }

  lemma Current(sh: Shared, tr: Thread, a: Addr, v: Val)
    requires ShapeOk(sh) && ReadsOk(sh, tr) && LogOk(sh, tr) && VersionsOk(sh, tr) && Validating(tr.pc)
    requires (a, v) in tr.fetched && a in sh.mem && (Version(sh, a) <= tr.rv || tr.wv == tr.rv + 1)
    ensures !sh.mem[a].busy && sh.mem[a].val == v
  {
  }

  // ---------------------------------------------------------------- lock words

  /** Versions never decrease or pass the clock, and while a thread holds a lock no other
      thread changes the word. */
  lemma WordsOnlyByHolder(s: State, s': State, t: nat, l: nat)
    requires Reachable(s) && t < |s.threads| == |s'.threads| && l < |s.sh.words|
    requires ThreadStep(s, t, s'.sh, s'.threads[t]) && s'.threads == s.threads[t := s'.threads[t]]
    ensures |s'.sh.words| == |s.sh.words| && s.sh.words[l].version <= s'.sh.words[l].version <= s'.sh.clock
    ensures forall u :: 0 <= u < |s.threads| && u != t && l in s.threads[u].taken ==>
      s.sh.words[l].locked && s'.sh.words[l] == s.sh.words[l]
  {
    InvReachable(s);
    OwnStep(s, t, s'.sh, s'.threads[t]);
    forall u | 0 <= u < |s.threads| && u != t && l in s.threads[u].taken
      ensures s.sh.words[l].locked && s'.sh.words[l] == s.sh.words[l]
    {
      assert ThreadOk(s.sh, s.threads[u]);
      assert PairOk(s.sh.lockOf, s.threads[u], s.threads[t]);
    }
  }

  /** The store of unsafe_set_version loses no update: the word is still the one loaded. */
  lemma StoreLosesNothing(s: State, t: nat)
    requires Reachable(s) && t < |s.threads| && s.threads[t].pc.StoreWord?
    ensures Owns(s.sh, s.threads[t], s.threads[t].pc.i)
    ensures WordOf(s.sh, s.threads[t], s.threads[t].pc.i) == s.threads[t].pc.seen && s.threads[t].pc.seen.locked
  {
    InvReachable(s);
    var tr := s.threads[t];
    assert ThreadOk(s.sh, tr);
    assert s.sh.lockOf[tr.order[tr.pc.i]] in tr.taken;
  }

  /** The complete guard holds each lock of the log exactly once and no thread shares one. */
  lemma GuardHoldsEachLockOnce(s: State, t: nat, a: Addr)
    requires Reachable(s) && t < |s.threads| && HoldsAll(s.threads[t].pc) && a in s.threads[t].log
    ensures a in s.threads[t].owned && a in s.sh.lockOf && s.sh.lockOf[a] in s.threads[t].taken
    ensures multiset(s.threads[t].taken)[s.sh.lockOf[a]] == 1
    ensures forall u :: 0 <= u < |s.threads| && u != t ==> s.sh.lockOf[a] !in s.threads[u].taken
  {
    InvReachable(s);
    assert ThreadOk(s.sh, s.threads[t]);
    OnceInDistinct(s.threads[t].taken, s.sh.lockOf[a]);
    forall u | 0 <= u < |s.threads| && u != t
      ensures s.sh.lockOf[a] !in s.threads[u].taken
    {
      assert PairOk(s.sh.lockOf, s.threads[t], s.threads[u]);
    }
  }

  lemma {:induction false} OnceInDistinct(q: seq<nat>, x: nat)
    requires forall j, k :: 0 <= j < k < |q| ==> q[j] != q[k]
    ensures multiset(q)[x] == if x in q then 1 else 0
  {
    if q != [] {
      OnceInDistinct(q[..|q| - 1], x);
      assert q == q[..|q| - 1] + [q[|q| - 1]];
    }
  }
}
