/** Sums of a weight over a list, and how they move when the list is changed the way the
    program's lists are: one slot set, one item pushed, one item swap-removed. */
module Sums {

  function Sum<T>(items: seq<T>, weight: T -> nat): nat {
    if items == [] then 0 else weight(items[0]) + Sum(items[1..], weight)
  }

  /** The last item moves into the freed slot. */
  function SwapRemove<T>(items: seq<T>, index: nat): (rest: seq<T>)
    requires index < |items|
    ensures |rest| == |items| - 1
  {
    items[index := items[|items| - 1]][..|items| - 1]
  }

  /** Pushing a new record and then removing the old one is writing over the old slot. */
  lemma PushThenRemoveReplaces<T>(items: seq<T>, index: nat, item: T)
    requires index < |items|
    ensures SwapRemove(items + [item], index) == items[index := item]
  {
  }

  lemma SumEmpty<T>(items: seq<T>, weight: T -> nat)
    requires |items| == 0
    ensures Sum(items, weight) == 0
  {
  }

  lemma {:induction false} SumAppend<T>(a: seq<T>, b: seq<T>, weight: T -> nat)
    ensures Sum(a + b, weight) == Sum(a, weight) + Sum(b, weight)
  {
    if a == [] {
      assert a + b == b;
    } else {
      assert (a + b)[1..] == a[1..] + b;
      SumAppend(a[1..], b, weight);
    }
  }

  lemma SumPush<T>(items: seq<T>, item: T, weight: T -> nat)
    ensures Sum(items + [item], weight) == Sum(items, weight) + weight(item)
  {
    SumAppend(items, [item], weight);
    assert [item][1..] == [];
  }

  lemma {:induction false} SumSet<T>(items: seq<T>, index: nat, item: T, weight: T -> nat)
    requires index < |items|
    ensures Sum(items[index := item], weight) + weight(items[index]) == Sum(items, weight) + weight(item)
  {
    if index == 0 {
      assert items[index := item][1..] == items[1..];
    } else {
      assert items[index := item][1..] == items[1..][index - 1 := item];
      SumSet(items[1..], index - 1, item, weight);
    }
  }

  lemma SumDropLast<T>(items: seq<T>, weight: T -> nat)
    requires items != []
    ensures Sum(items, weight) == Sum(items[..|items| - 1], weight) + weight(items[|items| - 1])
  {
    var rest, last := items[..|items| - 1], items[|items| - 1];
    assert items == rest + [last];
    SumPush(rest, last, weight);
  }

  lemma SumSwapRemove<T>(items: seq<T>, index: nat, weight: T -> nat)
    requires index < |items|
    ensures Sum(SwapRemove(items, index), weight) + weight(items[index]) == Sum(items, weight)
  {
    var last := items[|items| - 1];
    var moved := items[index := last];
    SumSet(items, index, last, weight);
    SumDropLast(moved, weight);
  }

  lemma {:induction false} SumMember<T>(items: seq<T>, index: nat, weight: T -> nat)
    requires index < |items|
    ensures weight(items[index]) <= Sum(items, weight)
  {
    if index > 0 {
      SumMember(items[1..], index - 1, weight);
    }
  }

  lemma {:induction false} SumLe<T>(items: seq<T>, f: T -> nat, g: T -> nat)
    requires forall x :: x in items ==> f(x) <= g(x)
    ensures Sum(items, f) <= Sum(items, g)
  {
    if items != [] {
      assert items[0] in items;
      SumLe(items[1..], f, g);
    }
  }

  lemma SumSame<T>(items: seq<T>, f: T -> nat, g: T -> nat)
    requires forall x :: x in items ==> f(x) == g(x)
    ensures Sum(items, f) == Sum(items, g)
  {
    SumLe(items, f, g);
    SumLe(items, g, f);
  }

  lemma {:induction false} SumZero<T>(items: seq<T>, f: T -> nat)
    requires forall x :: x in items ==> f(x) == 0
    ensures Sum(items, f) == 0
  {
    if items != [] {
      assert items[0] in items;
      SumZero(items[1..], f);
    }
  }

  /** If h is f + g on every item, the sum of h is the sum of f plus the sum of g. */
  lemma {:induction false} SumSplit<T>(items: seq<T>, h: T -> nat, f: T -> nat, g: T -> nat)
    requires forall x :: x in items ==> h(x) == f(x) + g(x)
    ensures Sum(items, h) == Sum(items, f) + Sum(items, g)
  {
    if items != [] {
      assert items[0] in items;
      SumSplit(items[1..], h, f, g);
    }
  }
}
