/** Sums of what each of several threads has left to do. */
module Measures {
  function Sum(xs: seq<nat>): nat {
    if xs == [] then 0 else Sum(xs[..|xs| - 1]) + xs[|xs| - 1]
  }

  lemma {:induction false} SumUpdate(xs: seq<nat>, i: nat, x: nat)
    requires i < |xs|
    ensures Sum(xs[i := x]) == Sum(xs) - xs[i] + x
  {
    var front := xs[..|xs| - 1];
    if i == |xs| - 1 {
      assert xs[i := x][..|xs| - 1] == front;
    } else {
      assert xs[i := x][..|xs| - 1] == front[i := x];
      SumUpdate(front, i, x);
    }
  }

  lemma {:induction false} SumBound(xs: seq<nat>, most: nat)
    requires forall i :: 0 <= i < |xs| ==> xs[i] <= most
    ensures Sum(xs) <= |xs| * most
  {
    if xs != [] {
      SumBound(xs[..|xs| - 1], most);
      assert Sum(xs) <= (|xs| - 1) * most + most;
    }
  }

  /** One number for two that fall in lexicographic order, the second never above `most`. */
  function Combined(first: nat, second: nat, most: nat): nat {
    first * (most + 1) + second
  }

  lemma CombinedFalls(first: nat, second: nat, first': nat, second': nat, most: nat)
    requires second' <= most && (first' < first || (first' == first && second' < second))
    ensures Combined(first', second', most) < Combined(first, second, most)
  {
    if first' < first {
      assert first * (most + 1) >= (first' + 1) * (most + 1);
    }
  }
}
