/** Sums of weights over a sequence, as counters of threads and goroutines in certain states. */
module Sums {

  function Sum<T>(items: seq<T>, weight: T -> nat): nat {
    if items == [] then 0 else Sum(items[..|items| - 1], weight) + weight(items[|items| - 1])
  }

  lemma {:induction false} SumUpdate<T>(items: seq<T>, weight: T -> nat, i: nat, x: T)
    requires i < |items|
    ensures Sum(items[i := x], weight) == Sum(items, weight) - weight(items[i]) + weight(x)
    ensures weight(items[i]) <= Sum(items, weight)
  {
    var n := |items| - 1;
    if i == n {
      assert items[i := x][..n] == items[..n];
    } else {
      assert items[i := x][..n] == items[..n][i := x];
      SumUpdate(items[..n], weight, i, x);
    }
  }

  lemma SumAppend<T>(items: seq<T>, weight: T -> nat, x: T)
    ensures Sum(items + [x], weight) == Sum(items, weight) + weight(x)
  {
    assert (items + [x])[..|items|] == items;
  }

  lemma SumPair<T>(items: seq<T>, weight: T -> nat, i: nat, j: nat, x: T)
    requires i < |items| && j < |items| && i != j && weight(x) == 0
    ensures weight(items[i]) + weight(items[j]) <= Sum(items, weight)
  {
    SumUpdate(items, weight, i, x);
    SumUpdate(items[i := x], weight, j, x);
  }

  lemma {:induction false} SumPositive<T>(items: seq<T>, weight: T -> nat) returns (i: nat)
    requires Sum(items, weight) > 0
    ensures i < |items| && weight(items[i]) > 0
  {
    var n := |items| - 1;
    if weight(items[n]) > 0 {
      i := n;
    } else {
      i := SumPositive(items[..n], weight);
    }
  }

  lemma {:induction false} SumBelow<T>(items: seq<T>, weight: T -> nat, weight': T -> nat)
    requires forall x: T :: weight(x) <= weight'(x)
    ensures Sum(items, weight) <= Sum(items, weight')
  {
    if items != [] {
      SumBelow(items[..|items| - 1], weight, weight');
    }
  }
}
