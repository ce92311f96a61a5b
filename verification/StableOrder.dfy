/**
  Grouping a list by kind and joining the groups in a given order of kinds: a stable sort. Stated
  for any element type, any notion of kind and any order.
 */
module StableOrder {

  function Select<T, K(==)>(kind: T -> K, xs: seq<T>, k: K): seq<T> {
    if xs == [] then []
    else (if kind(xs[0]) == k then [xs[0]] else []) + Select(kind, xs[1..], k)
  }

  function InOrder<T, K(==)>(kind: T -> K, xs: seq<T>, order: seq<K>): seq<T> {
    if order == [] then [] else Select(kind, xs, order[0]) + InOrder(kind, xs, order[1..])
  }

  ghost predicate Duplicateless<K>(order: seq<K>) {
    forall i, j :: 0 <= i < j < |order| ==> order[i] != order[j]
  }

  lemma {:induction false} SelectedAreOfKind<T, K>(kind: T -> K, xs: seq<T>, k: K)
    ensures forall x :: x in Select(kind, xs, k) ==> kind(x) == k
  {
    if xs != [] {
      SelectedAreOfKind(kind, xs[1..], k);
    }
  }

  lemma {:induction false} CountSelected<T, K>(kind: T -> K, xs: seq<T>, k: K, x: T)
    ensures multiset(Select(kind, xs, k))[x] == if kind(x) == k then multiset(xs)[x] else 0
  {
    if xs != [] {
      CountSelected(kind, xs[1..], k, x);
      assert xs == [xs[0]] + xs[1..];
    }
  }

  lemma {:induction false} CountInOrder<T, K>(kind: T -> K, xs: seq<T>, order: seq<K>, x: T)
    requires Duplicateless(order)
    ensures multiset(InOrder(kind, xs, order))[x] == if kind(x) in order then multiset(xs)[x] else 0
  {
    if order != [] {
      CountSelected(kind, xs, order[0], x);
      CountInOrder(kind, xs, order[1..], x);
      assert order == [order[0]] + order[1..];
    }
  }

  lemma {:induction false} SelectConcat<T, K>(kind: T -> K, a: seq<T>, b: seq<T>, k: K)
    ensures Select(kind, a + b, k) == Select(kind, a, k) + Select(kind, b, k)
  {
    if a == [] {
      assert a + b == b;
    } else {
      var first := if kind(a[0]) == k then [a[0]] else [];
      var rest, tail := Select(kind, a[1..], k), Select(kind, b, k);
      calc {
        Select(kind, a + b, k);
        { assert (a + b)[0] == a[0] && (a + b)[1..] == a[1..] + b; }
        first + Select(kind, a[1..] + b, k);
        { SelectConcat(kind, a[1..], b, k); }
        first + (rest + tail);
        { assert first + (rest + tail) == (first + rest) + tail; }
        Select(kind, a, k) + tail;
      }
    }
  }

  lemma {:induction false} SelectSelected<T, K>(kind: T -> K, xs: seq<T>, k: K, l: K)
    ensures Select(kind, Select(kind, xs, k), l) == if k == l then Select(kind, xs, k) else []
  {
    if xs != [] {
      SelectSelected(kind, xs[1..], k, l);
      SelectConcat(kind, if kind(xs[0]) == k then [xs[0]] else [], Select(kind, xs[1..], k), l);
    }
  }

  lemma {:induction false} SelectInOrder<T, K>(kind: T -> K, xs: seq<T>, order: seq<K>, k: K)
    requires Duplicateless(order)
    ensures Select(kind, InOrder(kind, xs, order), k) == if k in order then Select(kind, xs, k) else []
  {
    if order != [] {
      SelectConcat(kind, Select(kind, xs, order[0]), InOrder(kind, xs, order[1..]), k);
      SelectSelected(kind, xs, order[0], k);
      SelectInOrder(kind, xs, order[1..], k);
    }
  }

  /** Nothing is lost or duplicated, and within a kind nothing changes place. */
  lemma OrderIsStable<T, K(!new)>(kind: T -> K, xs: seq<T>, order: seq<K>)
    requires Duplicateless(order) && forall k: K :: k in order
    ensures multiset(InOrder(kind, xs, order)) == multiset(xs)
    ensures forall k: K :: Select(kind, InOrder(kind, xs, order), k) == Select(kind, xs, k)
  {
    forall x: T | x in multiset(InOrder(kind, xs, order)) + multiset(xs)
      ensures multiset(InOrder(kind, xs, order))[x] == multiset(xs)[x]
    {
      CountInOrder(kind, xs, order, x);
    }
    forall k: K
      ensures Select(kind, InOrder(kind, xs, order), k) == Select(kind, xs, k)
    {
      SelectInOrder(kind, xs, order, k);
    }
  }

  /** The kinds come out in order. */
  lemma {:induction false} OrderIsSorted<T, K>(kind: T -> K, xs: seq<T>, order: seq<K>, i: nat, j: nat)
    returns (p: nat, q: nat)
    requires i <= j < |InOrder(kind, xs, order)|
    ensures p <= q < |order|
    ensures kind(InOrder(kind, xs, order)[i]) == order[p] && kind(InOrder(kind, xs, order)[j]) == order[q]
    decreases order
  {
    var front := Select(kind, xs, order[0]);
    SelectedAreOfKind(kind, xs, order[0]);
    if j < |front| {
      assert front[i] in front && front[j] in front;
      p, q := 0, 0;
    } else if i >= |front| {
      p, q := OrderIsSorted(kind, xs, order[1..], i - |front|, j - |front|);
      p, q := p + 1, q + 1;
    } else {
      assert front[i] in front;
      p, q := OrderIsSorted(kind, xs, order[1..], j - |front|, j - |front|);
      p, q := 0, q + 1;
    }
  }
}
