/**
  Linearizability of a set without reference to linearization points: the operations can be
  put in one order that respects real time and in which a sequential set gives every answer.
 */
module Linearizability {
  import opened SetHistory

  /** An operation in a sequential order, with its answer. */
  datatype Taken = Taken(id: nat, result: bool)

  /** The set after the operations in order. */
  function SetAfter(calls: seq<Call>, order: seq<Taken>): set<int>
    requires forall i :: 0 <= i < |order| ==> order[i].id < |calls|
  {
    if order == [] then {}
    else
      var c := calls[order[|order| - 1].id];
      After(c.kind, c.key, SetAfter(calls, order[..|order| - 1]))
  }

  /** The i-th operation answers as the sequential set does. */
  predicate AnswersInTurn(calls: seq<Call>, order: seq<Taken>, i: nat)
    requires i < |order| && forall j :: 0 <= j < |order| ==> order[j].id < |calls|
  {
    var c := calls[order[i].id];
    Answers(c.kind, c.key, SetAfter(calls, order[..i]), order[i].result)
  }

  /** Operation r had returned before operation `id` was called. */
  predicate ReturnedBefore(h: History, r: OpRec, id: nat) {
    id < |h.calls| && r.ret <= h.calls[id].inv
  }

  /** All completed operations with their answers, and possibly some that have not returned,
      each once, in an order that respects real time. */
  ghost predicate IsLinearization(h: History, order: seq<Taken>) {
    (forall i :: 0 <= i < |order| ==> order[i].id < |h.calls|) &&
    (forall i, j :: 0 <= i < j < |order| ==> order[i].id != order[j].id) &&
    (forall r :: r in h.ops ==> Taken(r.id, r.result) in order) &&
    (forall i :: 0 <= i < |order| ==> AnswersInTurn(h.calls, order, i)) &&
    (forall i, j, r :: 0 <= i < j < |order| && r in h.ops && r.id == order[j].id ==> !ReturnedBefore(h, r, order[i].id))
  }

  ghost predicate Linearizable(h: History) {
    exists order :: IsLinearization(h, order)
  }

  // ---------------------------------------------------------------- points give an order

  /** The operations that take effect at time t without changing the set. */
  function Readers(ops: seq<OpRec>, t: nat): seq<Taken> {
    if ops == [] then []
    else
      var r := ops[|ops| - 1];
      Readers(ops[..|ops| - 1], t) + if r.lin == t && !Changes(r.kind, r.result) then [Taken(r.id, r.result)] else []
  }

  function AtTime(h: History, t: nat): seq<Taken> {
    Readers(h.ops, t) + if t in h.claims then [Taken(h.claims[t], true)] else []
  }

  /** The operations that take effect before time t, in the order of their points. */
  function OrderTo(h: History, t: nat): seq<Taken> {
    if t == 0 then [] else OrderTo(h, t - 1) + AtTime(h, t - 1)
  }

  /** Operation x takes effect at time t. */
  ghost predicate PointOf(h: History, x: Taken, t: nat) {
    x.id < |h.calls| && h.calls[x.id].inv <= t &&
    ((x.result && t in h.claims && h.claims[t] == x.id) ||
     exists r :: r in h.ops && !Changes(r.kind, r.result) && r.lin == t && x == Taken(r.id, r.result))
  }

  lemma {:induction false} ReaderIs(ops: seq<OpRec>, t: nat, i: nat) returns (r: OpRec)
    requires i < |Readers(ops, t)|
    ensures r in ops && !Changes(r.kind, r.result) && r.lin == t && Readers(ops, t)[i] == Taken(r.id, r.result)
  {
    if i < |Readers(ops[..|ops| - 1], t)| {
      r := ReaderIs(ops[..|ops| - 1], t, i);
    } else {
      r := ops[|ops| - 1];
    }
  }

  lemma {:induction false} ReaderIn(ops: seq<OpRec>, r: OpRec)
    requires r in ops && !Changes(r.kind, r.result)
    ensures Taken(r.id, r.result) in Readers(ops, r.lin)
  {
    if r != ops[|ops| - 1] {
      ReaderIn(ops[..|ops| - 1], r);
    }
  }

  lemma {:induction false} ReadersDistinct(ops: seq<OpRec>, t: nat)
    requires forall i, j :: 0 <= i < j < |ops| ==> ops[i].id != ops[j].id
    ensures forall i, j :: 0 <= i < j < |Readers(ops, t)| ==> Readers(ops, t)[i].id != Readers(ops, t)[j].id
  {
    if ops != [] {
      var n := |ops| - 1;
      var rest := Readers(ops[..n], t);
      ReadersDistinct(ops[..n], t);
      forall i | 0 <= i < |rest|
        ensures rest[i].id != ops[n].id
      {
        var r := ReaderIs(ops[..n], t, i);
      }
    }
  }

  lemma AtTimePoint(h: History, t: nat, i: nat)
    requires Linearized(h) && i < |AtTime(h, t)|
    ensures PointOf(h, AtTime(h, t)[i], t)
  {
    if i < |Readers(h.ops, t)| {
      var r := ReaderIs(h.ops, t, i);
      assert OpOk(h, r);
    } else {
      assert ClaimOk(h, t);
    }
  }

  /** An operation takes effect once. */
  lemma PointUnique(h: History, x: Taken, y: Taken, t: nat, u: nat)
    requires Linearized(h) && PointOf(h, x, t) && PointOf(h, y, u)
    ensures x.id == y.id ==> t == u
  {
    forall r | r in h.ops && (r.id == x.id || r.id == y.id)
      ensures OpOk(h, r)
    {
    }
    forall r, q | r in h.ops && q in h.ops && r.id == q.id
      ensures r == q
    {
      var i :| 0 <= i < |h.ops| && h.ops[i] == r;
      var j :| 0 <= j < |h.ops| && h.ops[j] == q;
    }
  }

  /** Operations of different times are different ones. */
  lemma OrderPoint(h: History, t: nat, i: nat) returns (u: nat)
    requires Linearized(h) && i < |OrderTo(h, t)|
    ensures u < t && PointOf(h, OrderTo(h, t)[i], u)
  {
    if i < |OrderTo(h, t - 1)| {
      u := OrderPoint(h, t - 1, i);
    } else {
      u := t - 1;
      AtTimePoint(h, u, i - |OrderTo(h, u)|);
    }
  }

  lemma AtTimeDistinct(h: History, t: nat)
    requires Linearized(h)
    ensures forall i, j :: 0 <= i < j < |AtTime(h, t)| ==> AtTime(h, t)[i].id != AtTime(h, t)[j].id
  {
    ReadersDistinct(h.ops, t);
    forall i | 0 <= i < |Readers(h.ops, t)| && t in h.claims
      ensures Readers(h.ops, t)[i].id != h.claims[t]
    {
      var r := ReaderIs(h.ops, t, i);
      assert OpOk(h, r);
    }
  }

  lemma {:induction false} OrderDistinct(h: History, t: nat)
    requires Linearized(h)
    ensures forall i, j :: 0 <= i < j < |OrderTo(h, t)| ==> OrderTo(h, t)[i].id != OrderTo(h, t)[j].id
  {
    if t > 0 {
      OrderDistinct(h, t - 1);
      AtTimeDistinct(h, t - 1);
      var before, now := OrderTo(h, t - 1), AtTime(h, t - 1);
      forall i, j | 0 <= i < |before| && 0 <= j < |now|
        ensures before[i].id != now[j].id
      {
        var u := OrderPoint(h, t - 1, i);
        AtTimePoint(h, t - 1, j);
        PointUnique(h, before[i], now[j], u, t - 1);
      }
    }
  }

  lemma {:induction false} OrderHas(h: History, t: nat, u: nat, x: Taken)
    requires u < t && x in AtTime(h, u)
    ensures x in OrderTo(h, t)
  {
    if u < t - 1 {
      OrderHas(h, t - 1, u, x);
    }
  }

  /** Every completed operation is in the order. */
  lemma CompletedInOrder(h: History, r: OpRec)
    requires Linearized(h) && r in h.ops
    ensures Taken(r.id, r.result) in OrderTo(h, |h.past| - 1)
  {
    assert OpOk(h, r);
    var x := Taken(r.id, r.result);
    if Changes(r.kind, r.result) {
      assert AtTime(h, r.lin)[|Readers(h.ops, r.lin)|] == x;
    } else {
      ReaderIn(h.ops, r);
      assert x in AtTime(h, r.lin);
    }
    OrderHas(h, |h.past| - 1, r.lin, x);
  }

  /** Real time: what takes effect no later had been called before the other returned. */
  lemma OrderRespectsTime(h: History, t: nat, i: nat, j: nat, r: OpRec)
    requires Linearized(h) && i < j < |OrderTo(h, t)| && r in h.ops && r.id == OrderTo(h, t)[j].id
    ensures !ReturnedBefore(h, r, OrderTo(h, t)[i].id)
  {
    var order := OrderTo(h, t);
    var u, v := OrderPoints(h, t, i, j);
    assert OpOk(h, r);
    PointOfCompleted(h, r, order[j], v);
  }

  /** The order is that of the points. */
  lemma {:induction false} OrderPoints(h: History, t: nat, i: nat, j: nat) returns (u: nat, v: nat)
    requires Linearized(h) && i < j < |OrderTo(h, t)|
    ensures u <= v < t && PointOf(h, OrderTo(h, t)[i], u) && PointOf(h, OrderTo(h, t)[j], v)
  {
    if j < |OrderTo(h, t - 1)| {
      u, v := OrderPoints(h, t - 1, i, j);
    } else {
      u := OrderPoint(h, t, i);
      v := t - 1;
      AtTimePoint(h, v, j - |OrderTo(h, v)|);
    }
  }

  lemma PointOfCompleted(h: History, r: OpRec, x: Taken, v: nat)
    requires Linearized(h) && r in h.ops && r.id == x.id && PointOf(h, x, v)
    ensures v == r.lin
  {
    assert OpOk(h, r);
    if !(x.result && v in h.claims && h.claims[v] == x.id) {
      var q :| q in h.ops && !Changes(q.kind, q.result) && q.lin == v && x == Taken(q.id, q.result);
      var i :| 0 <= i < |h.ops| && h.ops[i] == r;
      var j :| 0 <= j < |h.ops| && h.ops[j] == q;
    }
  }

  // ---------------------------------------------------------------- the answers of the order

  /** All ids are those of calls. */
  predicate IdsOk(calls: seq<Call>, order: seq<Taken>) {
    forall i :: 0 <= i < |order| ==> order[i].id < |calls|
  }

  ghost predicate AllAnswer(calls: seq<Call>, order: seq<Taken>)
    requires IdsOk(calls, order)
  {
    forall i :: 0 <= i < |order| ==> AnswersInTurn(calls, order, i)
  }

  lemma AnswersPush(calls: seq<Call>, order: seq<Taken>, x: Taken)
    requires IdsOk(calls, order) && AllAnswer(calls, order) && x.id < |calls|
    requires var c := calls[x.id]; Answers(c.kind, c.key, SetAfter(calls, order), x.result)
    ensures IdsOk(calls, order + [x]) && AllAnswer(calls, order + [x])
    ensures SetAfter(calls, order + [x]) == After(calls[x.id].kind, calls[x.id].key, SetAfter(calls, order))
  {
    var order' := order + [x];
    assert order'[..|order|] == order;
    forall i | 0 <= i < |order'|
      ensures AnswersInTurn(calls, order', i)
    {
      if i < |order| {
        assert AnswersInTurn(calls, order, i);
        assert order'[..i] == order[..i];
      }
    }
  }

  /** The order answers as the set does, and leads to this set. */
  ghost predicate LeadsTo(calls: seq<Call>, order: seq<Taken>, after: set<int>) {
    IdsOk(calls, order) && AllAnswer(calls, order) && SetAfter(calls, order) == after
  }

  /** Operations that leave the set alone can all be taken at their time. */
  lemma {:induction false} AnswersReaders(h: History, order: seq<Taken>, t: nat, n: nat)
    requires Linearized(h) && n <= |h.ops| && t < |h.past|
    requires LeadsTo(h.calls, order, h.past[t])
    ensures LeadsTo(h.calls, order + Readers(h.ops[..n], t), h.past[t])
  {
    if n == 0 {
      assert order + Readers(h.ops[..0], t) == order;
    } else {
      AnswersReaders(h, order, t, n - 1);
      var r := h.ops[n - 1];
      assert r in h.ops && OpOk(h, r);
      assert h.ops[..n][..n - 1] == h.ops[..n - 1];
      var before := order + Readers(h.ops[..n - 1], t);
      if r.lin == t && !Changes(r.kind, r.result) {
        AnswersPush(h.calls, before, Taken(r.id, r.result));
        assert order + Readers(h.ops[..n], t) == before + [Taken(r.id, r.result)];
      } else {
        assert order + Readers(h.ops[..n], t) == before;
      }
    }
  }

  lemma AnswersClaim(h: History, order: seq<Taken>, t: nat)
    requires Linearized(h) && t < |h.past| - 1 && LeadsTo(h.calls, order, h.past[t])
    ensures LeadsTo(h.calls, order + if t in h.claims then [Taken(h.claims[t], true)] else [], h.past[t + 1])
  {
    if t in h.claims {
      assert ClaimOk(h, t);
      AnswersPush(h.calls, order, Taken(h.claims[t], true));
    } else {
      assert order + [] == order;
    }
  }

  lemma {:induction false} OrderAnswers(h: History, t: nat)
    requires Linearized(h) && t < |h.past|
    ensures LeadsTo(h.calls, OrderTo(h, t), h.past[t])
  {
    if t > 0 {
      OrderAnswers(h, t - 1);
      AnswersReaders(h, OrderTo(h, t - 1), t - 1, |h.ops|);
      assert h.ops[..|h.ops|] == h.ops;
      var before := OrderTo(h, t - 1) + Readers(h.ops, t - 1);
      AnswersClaim(h, before, t - 1);
      assert OrderTo(h, t) == before + if t - 1 in h.claims then [Taken(h.claims[t - 1], true)] else [];
    }
  }

  /** Linearization points make a history linearizable. */
  lemma PointsLinearize(h: History)
    requires Linearized(h)
    ensures Linearizable(h)
  {
    var t := |h.past| - 1;
    var order := OrderTo(h, t);
    OrderAnswers(h, t);
    OrderDistinct(h, t);
    forall r | r in h.ops
      ensures Taken(r.id, r.result) in order
    {
      CompletedInOrder(h, r);
    }
    forall i, j, r | 0 <= i < j < |order| && r in h.ops && r.id == order[j].id
      ensures !ReturnedBefore(h, r, order[i].id)
    {
      OrderRespectsTime(h, t, i, j, r);
    }
    assert IsLinearization(h, order);
  }

  /** An `add` that is the only operation ever called cannot have failed. */
  lemma LoneAddMustSucceed(h: History, key: int, inv: nat, r: OpRec)
    requires h.calls == [Call(Add, key, inv)] && h.ops == [r] && r.id == 0 && !r.result
    ensures !Linearizable(h)
  {
    if Linearizable(h) {
      var order :| IsLinearization(h, order);
      assert r in h.ops;
      LoneOrder(h, order, key, inv, r);
    }
  }

  lemma LoneOrder(h: History, order: seq<Taken>, key: int, inv: nat, r: OpRec)
    requires h.calls == [Call(Add, key, inv)] && r in h.ops && r.id == 0 && IsLinearization(h, order)
    ensures r.result
  {
    if |order| > 1 {
      OneIdRepeats(h.calls, order);
    }
    var i :| 0 <= i < |order| && order[i] == Taken(r.id, r.result);
    assert AnswersInTurn(h.calls, order, i);
  }

  lemma OneIdRepeats(calls: seq<Call>, order: seq<Taken>)
    requires |calls| == 1 && |order| > 1 && IdsOk(calls, order)
    ensures exists i, j :: 0 <= i < j < |order| && order[i].id == order[j].id
  {
    assert order[0].id == order[1].id;
  }
}
