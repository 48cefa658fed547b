/** What the hand-over-hand list promises, and for which keys. */
module FineListTheorems {
  import opened SetHistory
  import opened Linearizability
  import opened SortedChain
  import opened FineList
  import opened FineListProof

  // ---------------------------------------------------------------- locks

  lemma OneHolder(s: State, n: nat, t: nat, u: nat)
    requires PairsOk(s) && HeldBy(s, n, t) && u < |s.threads|
    ensures HeldBy(s, n, u) ==> u == t
  {
    if t != u {
      assert Differ(s.threads[t], s.threads[u]);
    }
  }

  /** A locked node has exactly one holder; it is reachable from the head, unless its holder
      has just unlinked it. With no operation under way nothing is locked. */
  lemma LockedNodes(keys: iset<int>, s: State, n: nat) returns (t: nat)
    requires Reachable(keys, s) && (forall k :: k in keys ==> k < INT_MAX)
    requires n < |s.sh.heap| && s.sh.heap[n].bit
    ensures t < |s.threads| && forall u: nat :: HeldBy(s, n, u) <==> u == t
    ensures n in s.sh.chain || (s.threads[t].pc.DropCurr? && s.threads[t].kind == Remove && s.threads[t].pc.curr == n)
  {
    InvReachable(keys, s);
    t :| HeldBy(s, n, t);
    forall u: nat | HeldBy(s, n, u)
      ensures u == t
    {
      OneHolder(s, n, t, u);
    }
    assert ThreadOk(s.sh, s.threads[t]);
    if s.threads[t].pc.Both? {
      NextOnChain(s.sh.heap, s.sh.chain, s.threads[t].pc.pred, s.threads[t].pc.curr);
    }
  }

  /** The chain is the path of links from the head to the tail, with strictly rising keys. */
  lemma ChainIsSorted(keys: iset<int>, s: State, i: nat, j: nat)
    requires Reachable(keys, s) && (forall k :: k in keys ==> k < INT_MAX) && 0 < i < j < |s.sh.chain|
    ensures s.sh.chain[0] == HEAD && s.sh.chain[|s.sh.chain| - 1] == TAIL
    ensures s.sh.chain[i - 1] < |s.sh.heap| && s.sh.heap[s.sh.chain[i - 1]].next == s.sh.chain[i]
    ensures s.sh.chain[j] < |s.sh.heap| && s.sh.chain[i] < |s.sh.heap|
    ensures s.sh.heap[s.sh.chain[i]].key < s.sh.heap[s.sh.chain[j]].key
  {
    InvReachable(keys, s);
    assert Below(s.sh.heap, s.sh.chain[0], s.sh.chain[i]);
    assert Below(s.sh.heap, s.sh.chain[i], s.sh.chain[j]);
  }

  /** Orders nodes by key, the head first. */
  function Rank(heap: seq<Node>, n: nat): int
    requires n < |heap|
  {
    if n == HEAD then INT_MIN - 1 else heap[n].key
  }

  /** A thread that waits for a node holds only nodes of smaller keys. */
  lemma WaitsAbove(keys: iset<int>, s: State, t: nat)
    requires Reachable(keys, s) && (forall k :: k in keys ==> k < INT_MAX) && t < |s.threads| && s.threads[t].pc.Want?
    ensures s.threads[t].pc.curr < |s.sh.heap| && s.threads[t].pc.curr != HEAD
    ensures forall n :: n in Held(s.threads[t].pc) ==>
      n < |s.sh.heap| && (n == HEAD || s.sh.heap[n].key < s.sh.heap[s.threads[t].pc.curr].key)
  {
    InvReachable(keys, s);
    RankRises(s, t);
  }

  lemma RankRises(s: State, t: nat)
    requires Inv(s) && t < |s.threads| && s.threads[t].pc.Want?
    ensures s.threads[t].pc.pred < |s.sh.heap| && s.threads[t].pc.curr < |s.sh.heap| && s.threads[t].pc.curr != HEAD
    ensures Below(s.sh.heap, s.threads[t].pc.pred, s.threads[t].pc.curr)
    ensures Rank(s.sh.heap, s.threads[t].pc.pred) < Rank(s.sh.heap, s.threads[t].pc.curr)
  {
    assert ThreadOk(s.sh, s.threads[t]);
    var i := LinkOnChain(s.sh.heap, s.sh.chain, s.threads[t].pc.pred, s.threads[t].pc.curr);
    assert Below(s.sh.heap, s.sh.chain[i], s.sh.chain[i + 1]);
    if s.threads[t].pc.curr >= 2 {
      assert NodeOk(s.sh.heap, s.threads[t].pc.curr);
    }
  }

  // ---------------------------------------------------------------- no deadlock

  ghost predicate CanProceed(sh: Shared, tr: Thread) {
    exists sh', tr' :: Progress(sh, tr, sh', tr')
  }

  /** Waiting for a lock that is taken. */
  predicate Blocked(sh: Shared, tr: Thread) {
    (tr.pc.WantHead? && |sh.heap| > 0 && sh.heap[HEAD].bit) ||
    (tr.pc.Want? && tr.pc.curr < |sh.heap| && sh.heap[tr.pc.curr].bit)
  }

  lemma PositionProceeds(sh: Shared, tr: Thread)
    requires SharedOk(sh) && ThreadOk(sh, tr) && AtPosition(sh, tr)
    ensures CanProceed(sh, tr)
  {
    var h := Stutter(sh.hist);
    var present := sh.heap[tr.pc.curr].key == tr.key;
    var decided := tr.(pc := DropCurr(tr.pc.pred, tr.pc.curr), result := tr.kind == Contains && present, lin := Now(sh.hist));
    var changed := tr.(pc := DropCurr(tr.pc.pred, tr.pc.curr), result := true, lin := Now(sh.hist));
    if tr.kind == Add && !present {
      InsertShared(sh, tr.pc.pred, tr.pc.curr, tr.key);
      var heap', chain' := Inserted(sh.heap, tr.pc.pred, tr.pc.curr, tr.key), InsertAfter(sh.chain, tr.pc.pred, |sh.heap|);
      var sh' := Shared(heap', chain', Changed(sh.hist, tr.id, Keys(heap', chain')));
      assert InsertNode(sh, tr, sh', changed);
      assert Progress(sh, tr, sh', changed);
    } else if tr.kind == Remove && present {
      RemoveShared(sh, tr.pc.pred, tr.pc.curr);
      var heap', chain' := LinkTo(sh.heap, tr.pc.pred, sh.heap[tr.pc.curr].next), Without(sh.chain, tr.pc.curr);
      var sh' := Shared(heap', chain', Changed(sh.hist, tr.id, Keys(heap', chain')));
      assert RemoveNode(sh, tr, sh', changed);
      assert Progress(sh, tr, sh', changed);
    } else {
      var sh' := sh.(hist := h);
      assert Decide(sh, tr, sh', decided);
      assert Progress(sh, tr, sh', decided);
    }
  }

  /** A thread in the middle of an operation can step, or waits for a taken lock. */
  lemma ProceedsOrBlocked(sh: Shared, tr: Thread)
    requires SharedOk(sh) && ThreadOk(sh, tr) && !tr.pc.Idle?
    ensures CanProceed(sh, tr) || Blocked(sh, tr)
  {
    var h := Stutter(sh.hist);
    match tr.pc
    case WantHead =>
      if !sh.heap[HEAD].bit {
        var sh', tr' := sh.(heap := SetLock(sh.heap, HEAD, true), hist := h), tr.(pc := Hold(HEAD));
        assert LockHead(sh, tr, sh', tr');
        assert Progress(sh, tr, sh', tr');
      }
    case Hold(pred) =>
      var sh', tr' := sh.(hist := h), tr.(pc := Want(pred, sh.heap[pred].next));
      assert ReadLink(sh, tr, sh', tr');
      assert Progress(sh, tr, sh', tr');
    case Want(pred, curr) =>
      NextOnChain(sh.heap, sh.chain, pred, curr);
      if !sh.heap[curr].bit {
        var sh', tr' := sh.(heap := SetLock(sh.heap, curr, true), hist := h), tr.(pc := Both(pred, curr));
        assert LockCurr(sh, tr, sh', tr');
        assert Progress(sh, tr, sh', tr');
      }
    case Both(pred, curr) =>
      if sh.heap[curr].key < tr.key {
        var sh', tr' := sh.(heap := SetLock(sh.heap, pred, false), hist := h), tr.(pc := Hold(curr));
        assert Advance(sh, tr, sh', tr');
        assert Progress(sh, tr, sh', tr');
      } else {
        PositionProceeds(sh, tr);
      }
    case DropCurr(pred, curr) =>
      var sh', tr' := sh.(heap := SetLock(sh.heap, curr, false), hist := h), tr.(pc := DropPred(pred));
      assert UnlockCurr(sh, tr, sh', tr');
      assert Progress(sh, tr, sh', tr');
    case DropPred(pred) =>
      var sh' := sh.(heap := SetLock(sh.heap, pred, false),
        hist := Returned(h, tr.id, tr.kind, tr.key, tr.result, tr.inv, tr.lin));
      assert UnlockPred(sh, tr, sh', tr.(pc := Idle));
      assert Progress(sh, tr, sh', tr.(pc := Idle));
  }

  /** The thread that holds the node another one waits for, if blocked itself, holds and so
      waits further along the list. */
  lemma BlockerIsFurther(s: State, t: nat) returns (u: nat)
    requires Inv(s) && t < |s.threads| && Blocked(s.sh, s.threads[t])
    ensures u < |s.threads| && !s.threads[u].pc.Idle?
    ensures Blocked(s.sh, s.threads[u]) ==> s.threads[u].pc.Want? && AwaitedRank(s, u) > AwaitedRank(s, t)
  {
    var n := if s.threads[t].pc.WantHead? then HEAD else s.threads[t].pc.curr;
    u :| HeldBy(s, n, u);
    if Blocked(s.sh, s.threads[u]) {
      RankRises(s, u);
    }
  }

  /** The rank of the node a waiting thread waits for. */
  function AwaitedRank(s: State, t: nat): int
    requires t < |s.threads|
  {
    match s.threads[t].pc
    case Want(_, curr) => if curr < |s.sh.heap| then Rank(s.sh.heap, curr) else INT_MIN
    case _ => INT_MIN - 1
  }

  lemma RankBound(s: State, t: nat)
    requires Inv(s) && t < |s.threads|
    ensures AwaitedRank(s, t) <= INT_MAX
  {
    if s.threads[t].pc.Want? {
      RankRises(s, t);
      assert NodeOk(s.sh.heap, s.threads[t].pc.curr);
    }
  }

  /** Following blockers ends at a thread that can step. */
  lemma {:induction false} FollowBlockers(s: State, t: nat) returns (u: nat)
    requires Inv(s) && t < |s.threads| && !s.threads[t].pc.Idle?
    ensures u < |s.threads| && !s.threads[u].pc.Idle? && CanProceed(s.sh, s.threads[u])
    decreases INT_MAX - AwaitedRank(s, t)
  {
    ProceedsOrBlocked(s.sh, s.threads[t]);
    if CanProceed(s.sh, s.threads[t]) {
      u := t;
    } else {
      u := BlockerIsFurther(s, t);
      if !CanProceed(s.sh, s.threads[u]) {
        ProceedsOrBlocked(s.sh, s.threads[u]);
        RankBound(s, u);
        u := FollowBlockers(s, u);
      }
    }
  }

  /** The list never deadlocks: while an operation is under way, some operation can step. */
  lemma SomeOperationProceeds(keys: iset<int>, s: State, t: nat)
    requires Reachable(keys, s) && (forall k :: k in keys ==> k < INT_MAX)
    requires t < |s.threads| && !s.threads[t].pc.Idle?
    ensures exists u :: 0 <= u < |s.threads| && !s.threads[u].pc.Idle? && CanProceed(s.sh, s.threads[u])
  {
    InvReachable(keys, s);
    var u := FollowBlockers(s, t);
  }

  // ---------------------------------------------------------------- the tail's key

  lemma Extend(keys: iset<int>, s: State, sh': Shared, tr': Thread) returns (s': State)
    requires Reachable(keys, s) && |s.threads| == 1 && ThreadStep(s, 0, sh', tr') && tr'.key in keys
    ensures s' == State(sh', [tr']) && Reachable(keys, s')
  {
    s' := State(sh', [tr']);
    var run :| Run(keys, run) && run[|run| - 1] == s;
    var run' := run + [s'];
    assert Next(keys, s, s') by {
      assert s'.threads == s.threads[0 := tr'];
    }
    forall i | 0 <= i < |run'| - 1
      ensures Next(keys, run'[i], run'[i + 1])
    {
      assert i < |run| - 1 ==> Next(keys, run[i], run[i + 1]);
    }
    assert Run(keys, run') && run'[|run'| - 1] == s';
  }

  /** An operation on the tail's key has taken both locks of the empty list. */
  lemma TailKeyLocks(keys: iset<int>, idle: Thread) returns (s: State)
    requires INT_MAX in keys && idle == Thread(Idle, Add, INT_MAX, 0, 0, false, 0)
    ensures Reachable(keys, s) && |s.threads| == 1
    ensures s.threads[0] == idle.(pc := Both(HEAD, TAIL))
    ensures s.sh.heap == [Node(INT_MIN, TAIL, true), Node(INT_MAX, TAIL, true)] && s.sh.hist == History([{}, {}, {}, {}], map[], [], [Call(Add, INT_MAX, 0)])
  {
    var s0 := State(EmptyList, [idle]);
    assert Run(keys, [s0]) && [s0][|[s0]| - 1] == s0;
    var t1 := idle.(pc := WantHead);
    var sh1 := s0.sh.(hist := Invoked(s0.sh.hist, Add, INT_MAX));
    assert Invoke(s0.sh, idle, sh1, t1);
    var s1 := Extend(keys, s0, sh1, t1);
    var t2 := t1.(pc := Hold(HEAD));
    var sh2 := sh1.(heap := SetLock(sh1.heap, HEAD, true), hist := Stutter(sh1.hist));
    assert LockHead(sh1, t1, sh2, t2);
    var s2 := Extend(keys, s1, sh2, t2);
    var t3 := t2.(pc := Want(HEAD, TAIL));
    var sh3 := sh2.(hist := Stutter(sh2.hist));
    assert ReadLink(sh2, t2, sh3, t3);
    var s3 := Extend(keys, s2, sh3, t3);
    var t4 := t3.(pc := Both(HEAD, TAIL));
    var sh4 := sh3.(heap := SetLock(sh3.heap, TAIL, true), hist := Stutter(sh3.hist));
    assert LockCurr(sh3, t3, sh4, t4);
    s := Extend(keys, s3, sh4, t4);
  }

  /** In an empty list `add` of the tail's key, alone, returns false: the list reports the key
      as present, which no order of the operations explains. */
  lemma TailKeyMisanswers(keys: iset<int>) returns (s: State)
    requires INT_MAX in keys
    ensures Reachable(keys, s) && s.sh.heap == EmptyList.heap
    ensures s.sh.hist.calls == [Call(Add, INT_MAX, 0)] && s.sh.hist.ops == [OpRec(0, Add, INT_MAX, false, 0, 3, 6)]
    ensures !Linearizable(s.sh.hist)
  {
    var s4 := TailKeyLocks(keys, Thread(Idle, Add, INT_MAX, 0, 0, false, 0));
    var t4, sh4 := s4.threads[0], s4.sh;
    var t5 := t4.(pc := DropCurr(HEAD, TAIL), lin := 3);
    var sh5 := sh4.(hist := Stutter(sh4.hist));
    assert Decide(sh4, t4, sh5, t5);
    var s5 := Extend(keys, s4, sh5, t5);
    var t6 := t5.(pc := DropPred(HEAD));
    var sh6 := sh5.(heap := SetLock(sh5.heap, TAIL, false), hist := Stutter(sh5.hist));
    assert UnlockCurr(sh5, t5, sh6, t6);
    var s6 := Extend(keys, s5, sh6, t6);
    var t7 := t6.(pc := Idle);
    var sh7 := sh6.(heap := SetLock(sh6.heap, HEAD, false), hist := Returned(Stutter(sh6.hist), 0, Add, INT_MAX, false, 0, 3));
    assert UnlockPred(sh6, t6, sh7, t7);
    s := Extend(keys, s6, sh7, t7);
    LoneAddMustSucceed(s.sh.hist, INT_MAX, 0, OpRec(0, Add, INT_MAX, false, 0, 3, 6));
  }

  /** The list's operations are linearizable, and its keys are the set, in every run over a set
      of keys if and only if the tail sentinel's key is not among them. */
  lemma LinearizableIff(keys: iset<int>)
    requires forall k :: k in keys ==> k <= INT_MAX
    ensures INT_MAX !in keys <==> (forall s :: Reachable(keys, s) ==> Linearizable(s.sh.hist))
    ensures INT_MAX !in keys ==> forall s :: Reachable(keys, s) ==> SharedOk(s.sh)
  {
    if INT_MAX !in keys {
      forall s | Reachable(keys, s)
        ensures SharedOk(s.sh) && Linearizable(s.sh.hist)
      {
        InvReachable(keys, s);
        PointsLinearize(s.sh.hist);
      }
    } else {
      var s := TailKeyMisanswers(keys);
    }
  }
}
