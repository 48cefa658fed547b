/**
  Heaps of singly linked nodes and the chain that runs through them from a head sentinel to
  a tail sentinel, with keys rising strictly behind the head. Both concurrent lists use it.
 */
module SortedChain {
  const INT_MIN: int := -0x8000_0000
  const INT_MAX: int := 0x7fff_ffff

  /** `bit` is the mark of a lock-free node, or the mutex of a locked one. Nodes are never
      freed, so an index stands for a pointer. */
  datatype Node = Node(key: int, next: nat, bit: bool)

  /** Node 0 is the head sentinel, node 1 the tail sentinel. */
  const HEAD: nat := 0
  const TAIL: nat := 1

  const SENTINELS: seq<Node> := [Node(INT_MIN, TAIL, false), Node(INT_MAX, TAIL, false)]

  function LinkTo(heap: seq<Node>, n: nat, next: nat): seq<Node>
    requires n < |heap|
  {
    heap[n := heap[n].(next := next)]
  }

  function Inserted(heap: seq<Node>, pred: nat, curr: nat, key: int): seq<Node>
    requires pred < |heap|
  {
    LinkTo(heap, pred, |heap|) + [Node(key, curr, false)]
  }

  function InsertAfter(chain: seq<nat>, n: nat, m: nat): seq<nat> {
    if chain == [] then []
    else if chain[0] == n then [n, m] + chain[1..]
    else [chain[0]] + InsertAfter(chain[1..], n, m)
  }

  function Without(chain: seq<nat>, n: nat): seq<nat> {
    if chain == [] then []
    else if chain[0] == n then chain[1..]
    else [chain[0]] + Without(chain[1..], n)
  }

  // ---------------------------------------------------------------- well-formed heaps

  /** Keys grow along links, and those between the sentinels are below the tail's. */
  predicate NodeOk(heap: seq<Node>, n: nat) {
    n < |heap| && 0 < heap[n].next < |heap| &&
    (n >= 2 ==> INT_MIN <= heap[n].key < INT_MAX && heap[n].key < heap[heap[n].next].key)
  }

  ghost predicate HeapOk(heap: seq<Node>) {
    |heap| >= 2 && heap[HEAD].key == INT_MIN && heap[TAIL].key == INT_MAX && heap[TAIL].next == TAIL &&
    forall n {:trigger NodeOk(heap, n)} :: 0 <= n < |heap| ==> NodeOk(heap, n)
  }

  /** The chain follows links from head to tail. */
  ghost predicate ChainLinks(heap: seq<Node>, chain: seq<nat>) {
    |chain| >= 2 && chain[0] == HEAD && chain[|chain| - 1] == TAIL &&
    (forall i :: 0 <= i < |chain| ==> chain[i] < |heap|) &&
    (forall i :: 0 <= i < |chain| - 1 ==> heap[chain[i]].next == chain[i + 1])
  }

  ghost predicate ChainSorted(heap: seq<Node>, chain: seq<nat>) {
    forall i, j {:trigger Below(heap, chain[i], chain[j])} :: 0 <= i < j < |chain| ==> Below(heap, chain[i], chain[j])
  }

  ghost predicate ChainOk(heap: seq<Node>, chain: seq<nat>) {
    ChainLinks(heap, chain) && ChainSorted(heap, chain)
  }

  /** n comes before m in key order, the head coming before everything. */
  predicate Below(heap: seq<Node>, n: nat, m: nat) {
    n < |heap| && m < |heap| && m != HEAD && (n == HEAD || heap[n].key < heap[m].key)
  }

  /** How far the node's key is from the tail's; the head comes before every key. */
  function ToTail(heap: seq<Node>, n: nat): nat {
    if n == HEAD then INT_MAX - INT_MIN + 1
    else if n < |heap| && INT_MIN <= heap[n].key <= INT_MAX then INT_MAX - heap[n].key
    else 0
  }

  // ---------------------------------------------------------------- changes to the chain

  lemma {:induction false} InsertAfterAt(chain: seq<nat>, i: nat, m: nat)
    requires i < |chain| && forall k :: 0 <= k < i ==> chain[k] != chain[i]
    ensures InsertAfter(chain, chain[i], m) == chain[..i + 1] + [m] + chain[i + 1..]
  {
    if i > 0 {
      var rest := chain[1..];
      assert rest[i - 1] == chain[i] && forall k :: 0 <= k < i - 1 ==> rest[k] == chain[k + 1];
      InsertAfterAt(rest, i - 1, m);
      assert chain[..i + 1] == [chain[0]] + rest[..i] && chain[i + 1..] == rest[i..];
    }
  }

  lemma {:induction false} WithoutAt(chain: seq<nat>, i: nat)
    requires i < |chain| && forall k :: 0 <= k < i ==> chain[k] != chain[i]
    ensures Without(chain, chain[i]) == chain[..i] + chain[i + 1..]
  {
    if i > 0 {
      var rest := chain[1..];
      assert rest[i - 1] == chain[i] && forall k :: 0 <= k < i - 1 ==> rest[k] == chain[k + 1];
      WithoutAt(rest, i - 1);
      assert chain[..i] == [chain[0]] + rest[..i - 1] && chain[i + 1..] == rest[i..];
    }
  }

  lemma ChainDistinct(heap: seq<Node>, chain: seq<nat>, i: nat)
    requires ChainOk(heap, chain) && i < |chain|
    ensures forall k :: 0 <= k < i ==> chain[k] != chain[i]
  {
    forall k | 0 <= k < i
      ensures chain[k] != chain[i]
    {
      assert Below(heap, chain[k], chain[i]);
    }
  }

  /** Where a link lies on the chain. */
  lemma LinkOnChain(heap: seq<Node>, chain: seq<nat>, pred: nat, curr: nat) returns (i: nat)
    requires ChainOk(heap, chain) && pred in chain && pred < |heap| && heap[pred].next == curr && pred != TAIL
    ensures i < |chain| - 1 && chain[i] == pred && chain[i + 1] == curr
    ensures forall k :: 0 <= k < |chain| && k != i ==> chain[k] != pred
    ensures forall k :: 0 <= k < |chain| && k != i + 1 ==> chain[k] != curr
  {
    i :| 0 <= i < |chain| && chain[i] == pred;
    forall k | 0 <= k < |chain| && k != i
      ensures chain[k] != pred
    {
      ChainDistinct(heap, chain, if k < i then i else k);
    }
    assert chain[i + 1] == curr;
    forall k | 0 <= k < |chain| && k != i + 1
      ensures chain[k] != chain[i + 1]
    {
      ChainDistinct(heap, chain, if k < i + 1 then i + 1 else k);
    }
  }

  lemma UnlinkHeap(heap: seq<Node>, pred: nat, curr: nat)
    requires HeapOk(heap) && pred < |heap| && heap[pred].next == curr && pred != TAIL && 2 <= curr < |heap|
    ensures HeapOk(LinkTo(heap, pred, heap[curr].next))
  {
    var heap' := LinkTo(heap, pred, heap[curr].next);
    assert NodeOk(heap, pred) && NodeOk(heap, curr);
    forall n | 0 <= n < |heap'|
      ensures NodeOk(heap', n)
    {
      assert NodeOk(heap, n);
    }
  }

  lemma UnlinkChain(heap: seq<Node>, chain: seq<nat>, i: nat)
    requires ChainOk(heap, chain) && i < |chain| - 2
    requires forall k :: 0 <= k < |chain| && k != i ==> chain[k] != chain[i]
    ensures ChainOk(LinkTo(heap, chain[i], chain[i + 2]), chain[..i + 1] + chain[i + 2..])
  {
    UnlinkSorted(heap, chain, i);
  }

  lemma UnlinkSorted(heap: seq<Node>, chain: seq<nat>, i: nat)
    requires ChainSorted(heap, chain) && i < |chain| - 2 && chain[i] < |heap|
    ensures ChainSorted(LinkTo(heap, chain[i], chain[i + 2]), chain[..i + 1] + chain[i + 2..])
  {
    var heap', chain' := LinkTo(heap, chain[i], chain[i + 2]), chain[..i + 1] + chain[i + 2..];
    forall j, k | 0 <= j < k < |chain'|
      ensures Below(heap', chain'[j], chain'[k])
    {
      assert Below(heap, chain[if j <= i then j else j + 1], chain[if k <= i then k else k + 1]);
    }
  }

  lemma InsertHeap(heap: seq<Node>, pred: nat, curr: nat, key: int)
    requires HeapOk(heap) && pred < |heap| && heap[pred].next == curr && pred != TAIL
    requires pred == HEAD || heap[pred].key < key
    requires curr < |heap| && INT_MIN <= key < heap[curr].key
    ensures HeapOk(Inserted(heap, pred, curr, key))
  {
    var heap' := Inserted(heap, pred, curr, key);
    assert NodeOk(heap, pred) && NodeOk(heap, curr);
    forall n | 0 <= n < |heap'|
      ensures NodeOk(heap', n)
    {
      assert n < |heap| ==> NodeOk(heap, n);
    }
  }

  lemma InsertSorted(heap: seq<Node>, chain: seq<nat>, i: nat, key: int)
    requires ChainSorted(heap, chain) && i < |chain| - 1 && chain[i] < |heap| && chain[i + 1] < |heap| && |heap| > 0
    requires (chain[i] == HEAD || heap[chain[i]].key < key) && key < heap[chain[i + 1]].key
    ensures ChainSorted(Inserted(heap, chain[i], chain[i + 1], key), chain[..i + 1] + [|heap|] + chain[i + 1..])
  {
    var heap' := Inserted(heap, chain[i], chain[i + 1], key);
    var chain' := chain[..i + 1] + [|heap|] + chain[i + 1..];
    assert Below(heap, chain[i], chain[i + 1]);
    forall j, k | 0 <= j < k < |chain'|
      ensures Below(heap', chain'[j], chain'[k])
    {
      if j == i + 1 {
        assert k == i + 2 || Below(heap, chain[i + 1], chain[k - 1]);
      } else if k == i + 1 {
        assert j == i || Below(heap, chain[j], chain[i]);
      } else {
        assert Below(heap, chain[if j <= i then j else j - 1], chain[if k <= i then k else k - 1]);
      }
    }
  }

  lemma InsertChain(heap: seq<Node>, chain: seq<nat>, i: nat, key: int)
    requires ChainOk(heap, chain) && i < |chain| - 1
    requires forall k :: 0 <= k < |chain| && k != i ==> chain[k] != chain[i]
    requires (chain[i] == HEAD || heap[chain[i]].key < key) && key < heap[chain[i + 1]].key
    ensures ChainOk(Inserted(heap, chain[i], chain[i + 1], key), chain[..i + 1] + [|heap|] + chain[i + 1..])
  {
    InsertSorted(heap, chain, i, key);
  }
}
