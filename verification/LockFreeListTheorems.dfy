/** What the lock-free list promises, and for which keys. */
module LockFreeListTheorems {
  import opened SetHistory
  import opened Linearizability
  import opened SortedChain
  import opened LockFreeList
  import opened LockFreeListProof

  /** A path of links. */
  ghost predicate IsPath(heap: seq<Node>, path: seq<nat>) {
    |path| > 0 && (forall i :: 0 <= i < |path| ==> path[i] < |heap|) &&
    forall i :: 0 <= i < |path| - 1 ==> heap[path[i]].next == path[i + 1]
  }

  /** Every unmarked node can be reached from the head. */
  lemma UnmarkedReachable(keys: iset<int>, s: State, n: nat) returns (path: seq<nat>)
    requires Reachable(keys, s) && (forall k :: k in keys ==> k < INT_MAX)
    requires n < |s.sh.heap| && !s.sh.heap[n].bit
    ensures IsPath(s.sh.heap, path) && path[0] == HEAD && path[|path| - 1] == n
  {
    InvReachable(keys, s);
    var i :| 0 <= i < |s.sh.chain| && s.sh.chain[i] == n;
    path := s.sh.chain[..i + 1];
  }

  /** Keys rise along every link behind the head, marked or not, up to the tail. */
  lemma KeysRise(keys: iset<int>, s: State, n: nat)
    requires Reachable(keys, s) && (forall k :: k in keys ==> k < INT_MAX)
    requires n < |s.sh.heap| && n != HEAD && n != TAIL
    ensures s.sh.heap[n].next < |s.sh.heap| && s.sh.heap[n].key < s.sh.heap[s.sh.heap[n].next].key
  {
    InvReachable(keys, s);
    assert NodeOk(s.sh.heap, n);
  }

  /** No step changes the link, mark or key of a marked node. */
  lemma MarkedIsFrozen(keys: iset<int>, s: State, s': State, n: nat)
    requires Reachable(keys, s) && Next(keys, s, s') && (forall k :: k in keys ==> k < INT_MAX)
    requires n < |s.sh.heap| && s.sh.heap[n].bit
    ensures n < |s'.sh.heap| && s'.sh.heap[n] == s.sh.heap[n]
  {
    InvReachable(keys, s);
    var t: nat, tr' :|
      t < |s.threads| && Step(s.sh, s.threads[t], s'.sh, tr') && tr'.key in keys && s'.threads == s.threads[t := tr'];
    OwnStep(s.sh, s.threads[t], s'.sh, tr');
  }

  /** The set a client sees is the set of keys of unmarked nodes. */
  lemma SetIsUnmarkedKeys(keys: iset<int>, s: State)
    requires Reachable(keys, s) && forall k :: k in keys ==> k < INT_MAX
    ensures Linearized(s.sh.hist) && s.sh.hist.past[Now(s.sh.hist)] == Keys(s.sh.heap)
  {
    InvReachable(keys, s);
  }

  // ---------------------------------------------------------------- the tail's key

  lemma Extend(keys: iset<int>, s: State, sh': Shared, tr': Thread) returns (s': State)
    requires Reachable(keys, s) && |s.threads| == 1 && Step(s.sh, s.threads[0], sh', tr') && tr'.key in keys
    ensures s' == State(sh', [tr']) && Reachable(keys, s')
  {
    s' := State(sh', [tr']);
    var run :| Run(keys, run) && run[|run| - 1] == s;
    var run' := run + [s'];
    assert Next(keys, s, s') by {
      assert s'.threads == s.threads[0 := tr'];
    }
    forall i | 0 <= i < |run'| - 1
      ensures Next(keys, run'[i], run'[i + 1])
    {
      assert i < |run| - 1 ==> Next(keys, run[i], run[i + 1]);
    }
    assert Run(keys, run') && run'[|run'| - 1] == s';
  }

  /** In an empty list `add` of the tail's key, alone, returns false: the list reports the key
      as present, which no order of the operations explains. */
  lemma TailKeyMisanswers(keys: iset<int>) returns (s: State)
    requires INT_MAX in keys
    ensures Reachable(keys, s) && s.sh.heap == EmptyList.heap
    ensures s.sh.hist.calls == [Call(Add, INT_MAX, 0)] && s.sh.hist.ops == [OpRec(0, Add, INT_MAX, false, 0, 1, 2)]
    ensures !Linearizable(s.sh.hist)
  {
    var idle := Thread(Idle, Add, INT_MAX, 0, 0, 0, 0);
    var s0 := State(EmptyList, [idle]);
    assert Run(keys, [s0]) && [s0][|[s0]| - 1] == s0;
    var t1 := Thread(Start, Add, INT_MAX, 0, 0, 0, 0);
    var sh1 := s0.sh.(hist := Invoked(s0.sh.hist, Add, INT_MAX));
    assert Invoke(s0.sh, idle, sh1, t1);
    var s1 := Extend(keys, s0, sh1, t1);
    var t2 := t1.(pc := Look(HEAD, TAIL), gap := 0);
    var sh2 := sh1.(hist := Stutter(sh1.hist));
    assert Begin(sh1, t1, sh2, t2);
    var s2 := Extend(keys, s1, sh2, t2);
    var t3 := t2.(pc := Idle);
    var sh3 := sh2.(hist := Returned(Stutter(sh2.hist), 0, Add, INT_MAX, false, 0, 1));
    assert LookHit(sh2, t2, sh3, t3);
    s := Extend(keys, s2, sh3, t3);
    LoneAddMustSucceed(s.sh.hist, INT_MAX, 0, OpRec(0, Add, INT_MAX, false, 0, 1, 2));
  }

  /** `add` and `remove` are linearizable in every run over a set of keys if and only if the
      tail sentinel's key is not among them. */
  lemma LinearizableIff(keys: iset<int>)
    requires forall k :: k in keys ==> k <= INT_MAX
    ensures INT_MAX !in keys <==> (forall s :: Reachable(keys, s) ==> Linearizable(s.sh.hist))
  {
    if INT_MAX !in keys {
      forall s | Reachable(keys, s)
        ensures Linearizable(s.sh.hist)
      {
        InvReachable(keys, s);
        PointsLinearize(s.sh.hist);
      }
    } else {
      var s := TailKeyMisanswers(keys);
    }
  }
}
