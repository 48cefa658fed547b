/**
  Linearizability of a set of keys, by linearization points: every operation takes effect
  at one instant between its invocation and its response, and nothing else changes the set.
 */
module SetHistory {
  datatype Kind = Add | Remove | Contains

  /** A completed operation. It was invoked at time `inv`, took effect at time `lin` and
      returned at time `ret`. */
  datatype OpRec = OpRec(id: nat, kind: Kind, key: int, result: bool, inv: nat, lin: nat, ret: nat)

  /** An operation invoked at time `inv`; its number is its place among the calls. */
  datatype Call = Call(kind: Kind, key: int, inv: nat)

  /** `past[i]` is the set after `i` steps; `claims[i]` is the operation that step `i` belongs
      to when it changes the set. */
  datatype History = History(past: seq<set<int>>, claims: map<nat, nat>, ops: seq<OpRec>, calls: seq<Call>)

  const EMPTY: History := History([{}], map[], [], [])

  function Now(h: History): nat
    requires |h.past| > 0
  {
    |h.past| - 1
  }

  /** What the sequential set answers. */
  predicate Answers(kind: Kind, key: int, before: set<int>, result: bool) {
    match kind
    case Add => result == (key !in before)
    case Remove => result == (key in before)
    case Contains => result == (key in before)
  }

  /** What the sequential set becomes. */
  function After(kind: Kind, key: int, before: set<int>): set<int> {
    match kind
    case Add => before + {key}
    case Remove => before - {key}
    case Contains => before
  }

  predicate Changes(kind: Kind, result: bool) {
    result && kind != Contains
  }

  predicate Called(h: History, id: nat, kind: Kind, key: int, inv: nat) {
    id < |h.calls| && h.calls[id] == Call(kind, key, inv)
  }

  /** The step at time `i` is the effect of the operation that claims it. */
  predicate ClaimOk(h: History, i: nat)
    requires i in h.claims
  {
    i < |h.past| - 1 && h.claims[i] < |h.calls| &&
    var c := h.calls[h.claims[i]];
    c.inv <= i && c.kind != Contains && Answers(c.kind, c.key, h.past[i], true) && h.past[i + 1] == After(c.kind, c.key, h.past[i])
  }

  /** The operation answers and acts as the sequential set does at time `lin`. */
  ghost predicate OpOk(h: History, r: OpRec) {
    r.inv <= r.lin < r.ret < |h.past| && Called(h, r.id, r.kind, r.key, r.inv) &&
    Answers(r.kind, r.key, h.past[r.lin], r.result) &&
    (Changes(r.kind, r.result) ==>
      h.past[r.lin + 1] == After(r.kind, r.key, h.past[r.lin]) && r.lin in h.claims && h.claims[r.lin] == r.id) &&
    (forall i :: i in h.claims && h.claims[i] == r.id ==> Changes(r.kind, r.result) && i == r.lin)
  }

  ghost predicate Linearized(h: History) {
    |h.past| > 0 && h.past[0] == {} &&
    (forall i :: 0 <= i < |h.past| - 1 && h.past[i + 1] != h.past[i] ==> i in h.claims) &&
    (forall i :: i in h.claims ==> ClaimOk(h, i)) &&
    (forall i, j :: i in h.claims && j in h.claims && i != j ==> h.claims[i] != h.claims[j]) &&
    (forall r :: r in h.ops ==> OpOk(h, r)) &&
    (forall i, j :: 0 <= i < j < |h.ops| ==> h.ops[i].id != h.ops[j].id)
  }

  /** The operation has neither changed the set nor returned. */
  ghost predicate Untouched(h: History, id: nat) {
    id < |h.calls| &&
    (forall i :: i in h.claims ==> h.claims[i] != id) &&
    (forall r :: r in h.ops ==> r.id != id)
  }

  /** The operation changed the set at time `lin` and has not returned. */
  ghost predicate Claimed(h: History, id: nat, kind: Kind, key: int, lin: nat) {
    id < |h.calls| && lin in h.claims && h.claims[lin] == id && lin < |h.past| - 1 &&
    (forall i :: i in h.claims && h.claims[i] == id ==> i == lin) &&
    kind != Contains && Answers(kind, key, h.past[lin], true) &&
    h.past[lin + 1] == After(kind, key, h.past[lin]) &&
    (forall r :: r in h.ops ==> r.id != id)
  }

  // ---------------------------------------------------------------- ways a history grows

  /** An operation is invoked. */
  function Invoked(h: History, kind: Kind, key: int): History
    requires |h.past| > 0
  {
    h.(calls := h.calls + [Call(kind, key, |h.past| - 1)])
  }

  /** A step that leaves the set alone. */
  function Stutter(h: History): History
    requires |h.past| > 0
  {
    h.(past := h.past + [h.past[|h.past| - 1]])
  }

  /** A step by which an operation changes the set. */
  function Changed(h: History, id: nat, after: set<int>): History
    requires |h.past| > 0
  {
    h.(past := h.past + [after], claims := h.claims[|h.past| - 1 := id])
  }

  /** An operation returns. */
  function Returned(h: History, id: nat, kind: Kind, key: int, result: bool, inv: nat, lin: nat): History
    requires |h.past| > 0
  {
    h.(ops := h.ops + [OpRec(id, kind, key, result, inv, lin, |h.past| - 1)])
  }

  /** `h'` continues `h` by steps of one operation `id`. */
  ghost predicate Continues(h: History, h': History, id: nat) {
    |h.past| <= |h'.past| && |h.calls| <= |h'.calls| &&
    (forall i :: 0 <= i < |h.calls| ==> h'.calls[i] == h.calls[i]) &&
    (forall i :: 0 <= i < |h.past| ==> h'.past[i] == h.past[i]) &&
    (forall i :: i in h.claims ==> i in h'.claims && h'.claims[i] == h.claims[i]) &&
    (forall i :: i in h'.claims && i !in h.claims ==> |h.past| - 1 <= i && h'.claims[i] == id) &&
    (forall r :: r in h'.ops ==> r in h.ops || r.id == id)
  }

  /** One record of the operation is added. */
  predicate Adds(h: History, h': History, id: nat, kind: Kind, key: int, inv: nat) {
    |h'.ops| == |h.ops| + 1 && h'.ops == h.ops + [h'.ops[|h.ops|]] &&
    var r := h'.ops[|h.ops|];
    r.id == id && r.kind == kind && r.key == key && r.inv == inv
  }

  ghost predicate Recorded(h: History, id: nat) {
    exists i :: 0 <= i < |h.ops| && h.ops[i].id == id
  }

  ghost predicate RecordedOnce(h: History, id: nat) {
    exists i :: 0 <= i < |h.ops| && h.ops[i].id == id && forall j :: 0 <= j < |h.ops| && h.ops[j].id == id ==> j == i
  }

  /** Every call has exactly one record. */
  ghost predicate AllAnswered(h: History) {
    forall id: nat {:trigger RecordedOnce(h, id)} :: id < |h.calls| ==> RecordedOnce(h, id)
  }

  // ---------------------------------------------------------------- growth keeps linearization

  lemma OpKept(h: History, h': History, id: nat, r: OpRec)
    requires Continues(h, h', id) && OpOk(h, r) && r.id != id
    ensures OpOk(h', r)
  {
  }

  lemma StutterKeeps(h: History, id: nat)
    requires Linearized(h)
    ensures Linearized(Stutter(h)) && Continues(h, Stutter(h), id)
  {
    var h' := Stutter(h);
    forall i | 0 <= i < |h'.past| - 1 && h'.past[i + 1] != h'.past[i]
      ensures i in h'.claims
    {
      assert i < |h.past| - 1;
    }
    forall r | r in h'.ops
      ensures OpOk(h', r)
    {
      assert OpOk(h, r);
    }
  }

  lemma InvokedKeeps(h: History, kind: Kind, key: int)
    requires Linearized(h)
    ensures var h' := Invoked(h, kind, key);
      Linearized(h') && Continues(h, h', |h.calls|) && Untouched(h', |h.calls|) && Called(h', |h.calls|, kind, key, |h.past| - 1)
  {
    var h' := Invoked(h, kind, key);
    forall r | r in h'.ops
      ensures OpOk(h', r)
    {
      assert OpOk(h, r);
    }
    forall i | i in h'.claims
      ensures ClaimOk(h', i)
    {
      assert ClaimOk(h, i);
    }
  }

  lemma ChangedKeeps(h: History, id: nat, kind: Kind, key: int, inv: nat)
    requires Linearized(h) && Untouched(h, id) && kind != Contains && Called(h, id, kind, key, inv) && inv < |h.past|
    requires Answers(kind, key, h.past[|h.past| - 1], true)
    ensures var h' := Changed(h, id, After(kind, key, h.past[|h.past| - 1]));
      Linearized(h') && Continues(h, h', id) && Claimed(h', id, kind, key, |h.past| - 1)
  {
    var h' := Changed(h, id, After(kind, key, h.past[|h.past| - 1]));
    assert |h.past| - 1 !in h.claims;
    forall r | r in h'.ops
      ensures OpOk(h', r)
    {
      OpKept(h, h', id, r);
    }
    forall i | 0 <= i < |h'.past| - 1 && h'.past[i + 1] != h'.past[i]
      ensures i in h'.claims
    {
      assert i < |h.past| - 1 ==> h.past[i + 1] != h.past[i];
    }
  }

  /** Returning without having changed the set: the answer was right at some time since. */
  lemma ReturnedUnchanged(h: History, id: nat, kind: Kind, key: int, result: bool, inv: nat, lin: nat)
    requires Linearized(h) && Untouched(h, id) && !Changes(kind, result) && Called(h, id, kind, key, inv)
    requires inv <= lin < |h.past| - 1 && Answers(kind, key, h.past[lin], result)
    ensures var h' := Returned(h, id, kind, key, result, inv, lin); Linearized(h') && Continues(h, h', id)
  {
    ReturnedKeeps(h, id, kind, key, result, inv, lin);
  }

  /** Returning after having changed the set. */
  lemma ReturnedChanged(h: History, id: nat, kind: Kind, key: int, inv: nat, lin: nat)
    requires Linearized(h) && Claimed(h, id, kind, key, lin) && inv <= lin && Called(h, id, kind, key, inv)
    ensures var h' := Returned(h, id, kind, key, true, inv, lin); Linearized(h') && Continues(h, h', id)
  {
    ReturnedKeeps(h, id, kind, key, true, inv, lin);
  }

  lemma ReturnedKeeps(h: History, id: nat, kind: Kind, key: int, result: bool, inv: nat, lin: nat)
    requires Linearized(h) && OpOk(h, OpRec(id, kind, key, result, inv, lin, |h.past| - 1))
    requires forall r :: r in h.ops ==> r.id != id
    ensures var h' := Returned(h, id, kind, key, result, inv, lin); Linearized(h') && Continues(h, h', id)
  {
    var h' := Returned(h, id, kind, key, result, inv, lin);
    forall r | r in h'.ops
      ensures OpOk(h', r)
    {
      assert r in h.ops || r == OpRec(id, kind, key, result, inv, lin, |h.past| - 1);
      assert OpOk(h, r);
    }
    forall i, j | 0 <= i < j < |h'.ops|
      ensures h'.ops[i].id != h'.ops[j].id
    {
      assert h.ops[i] in h.ops;
    }
  }

  // ---------------------------------------------------------------- other operations' growth

  lemma UntouchedKept(h: History, h': History, id: nat, other: nat)
    requires Continues(h, h', id) && Untouched(h, other) && other != id
    ensures Untouched(h', other)
  {
  }

  lemma ClaimedKept(h: History, h': History, id: nat, other: nat, kind: Kind, key: int, lin: nat)
    requires Continues(h, h', id) && Claimed(h, other, kind, key, lin) && other != id
    ensures Claimed(h', other, kind, key, lin)
  {
  }

  /** Operations that do not overlap take effect in their real-time order. */
  lemma RealTime(h: History, r: OpRec, r': OpRec)
    requires Linearized(h) && r in h.ops && r' in h.ops && r.ret <= r'.inv
    ensures r.lin < r'.lin
  {
    assert OpOk(h, r) && OpOk(h, r');
  }
}
