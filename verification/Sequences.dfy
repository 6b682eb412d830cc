/** Sequences without duplicates, permutations, sorting, and the arbitrary order in which Go ranges
    over a map. */
module Sequences {
  // ---------------------------------------------------------------- ranges over maps

  /** The order in which Go ranges over a map is arbitrary. */
  method AnyOf<T(==)>(keys: set<T>) returns (key: T)
    requires keys != {}
    ensures key in keys
  {
    if forall k :: k !in keys { assert false; }
    key :| key in keys;
  }

  // ---------------------------------------------------------------- duplicates and permutations

  ghost predicate NoDuplicates<T>(xs: seq<T>) {
    forall i, j | 0 <= i < j < |xs| :: xs[i] != xs[j]
  }

  lemma SameMembers<T>(xs: seq<T>, ys: seq<T>, x: T)
    requires multiset(xs) == multiset(ys)
    ensures x in xs <==> x in ys
  {
    assert x in xs <==> x in multiset(xs);
    assert x in ys <==> x in multiset(ys);
  }

  lemma AllSameMembers<T(!new)>(xs: seq<T>, ys: seq<T>)
    requires multiset(xs) == multiset(ys)
    ensures forall x :: x in xs <==> x in ys
  {
    forall x ensures x in xs <==> x in ys {
      SameMembers(xs, ys, x);
    }
  }

  lemma OccursTwice<T>(xs: seq<T>, i: nat, j: nat)
    requires i < j < |xs| && xs[i] == xs[j]
    ensures multiset(xs)[xs[i]] >= 2
  {
    assert xs == xs[..j] + [xs[j]] + xs[j + 1..];
    assert xs[..j][i] == xs[i];
  }

  lemma {:induction false} OccursOnce<T>(xs: seq<T>, x: T)
    requires NoDuplicates(xs)
    ensures multiset(xs)[x] <= 1
  {
    if xs != [] {
      var n := |xs| - 1;
      assert xs == xs[..n] + [xs[n]];
      OccursOnce(xs[..n], x);
    }
  }

  lemma LastIn<T>(xs: seq<T>, ys: seq<T>) returns (k: nat)
    requires xs != [] && multiset(xs) == multiset(ys)
    ensures k < |ys| && ys[k] == xs[|xs| - 1]
    ensures multiset(ys[..k] + ys[k + 1..]) == multiset(xs[..|xs| - 1])
  {
    var x := xs[|xs| - 1];
    assert xs == xs[..|xs| - 1] + [x];
    assert x in multiset(ys);
    k :| 0 <= k < |ys| && ys[k] == x;
    assert ys == ys[..k] + [x] + ys[k + 1..];
    assert multiset(ys[..k] + ys[k + 1..]) == multiset(ys) - multiset{x};
  }

  /** The elements of a set in some order, each once. */
  ghost predicate Orders<T>(xs: seq<T>, elements: set<T>) {
    NoDuplicates(xs) && (forall x | x in xs :: x in elements) && forall x | x in elements :: x in xs
  }

  lemma OrderAppend<T>(xs: seq<T>, elements: set<T>, x: T)
    requires Orders(xs, elements) && x !in elements
    ensures Orders(xs + [x], elements + {x})
  {
  }

  lemma {:induction false} SomeOrder<T>(elements: set<T>) returns (xs: seq<T>)
    ensures Orders(xs, elements)
  {
    if elements == {} {
      xs := [];
    } else {
      var x :| x in elements;
      xs := SomeOrder(elements - {x});
      OrderAppend(xs, elements - {x}, x);
      assert elements - {x} + {x} == elements;
      xs := xs + [x];
    }
  }

  // ---------------------------------------------------------------- sums

  function Sum(xs: seq<int>): int {
    if xs == [] then 0 else Sum(xs[..|xs| - 1]) + xs[|xs| - 1]
  }

  lemma SumLast(xs: seq<int>, x: int)
    ensures Sum(xs + [x]) == Sum(xs) + x
  {
    assert (xs + [x])[..|xs|] == xs;
  }

  // ---------------------------------------------------------------- sorting

  ghost predicate Descending<T>(xs: seq<T>, rank: T -> int) {
    forall i, j | 0 <= i < j < |xs| :: rank(xs[i]) >= rank(xs[j])
  }

  /** Puts an element behind all those that rank at least as high. */
  function Inserted<T>(sorted: seq<T>, x: T, rank: T -> int): seq<T> {
    if sorted == [] || rank(sorted[|sorted| - 1]) >= rank(x) then sorted + [x]
    else Inserted(sorted[..|sorted| - 1], x, rank) + [sorted[|sorted| - 1]]
  }

  lemma {:induction false} InsertedPermutes<T>(sorted: seq<T>, x: T, rank: T -> int)
    ensures multiset(Inserted(sorted, x, rank)) == multiset(sorted) + multiset{x}
  {
    if sorted != [] {
      assert sorted == sorted[..|sorted| - 1] + [sorted[|sorted| - 1]];
      InsertedPermutes(sorted[..|sorted| - 1], x, rank);
    }
  }

  lemma DescendingAppend<T>(xs: seq<T>, last: T, rank: T -> int)
    requires Descending(xs, rank) && forall x | x in multiset(xs) :: rank(x) >= rank(last)
    ensures Descending(xs + [last], rank)
  {
    forall i | 0 <= i < |xs| ensures rank(xs[i]) >= rank(last) {
      assert xs[i] in multiset(xs);
    }
  }

  lemma AllAboveLast<T>(sorted: seq<T>, rank: T -> int)
    requires Descending(sorted, rank) && sorted != []
    ensures Descending(sorted[..|sorted| - 1], rank)
    ensures forall x | x in multiset(sorted[..|sorted| - 1]) :: rank(x) >= rank(sorted[|sorted| - 1])
  {
    var front := sorted[..|sorted| - 1];
    forall x | x in multiset(front) ensures rank(x) >= rank(sorted[|sorted| - 1]) {
      var i :| 0 <= i < |front| && front[i] == x;
    }
  }

  lemma {:induction false} InsertedDescends<T>(sorted: seq<T>, x: T, rank: T -> int)
    requires Descending(sorted, rank)
    ensures Descending(Inserted(sorted, x, rank), rank)
  {
    if sorted != [] {
      AllAboveLast(sorted, rank);
    }
    if sorted == [] || rank(sorted[|sorted| - 1]) >= rank(x) {
      assert Inserted(sorted, x, rank) == sorted + [x];
    } else {
      var front := Inserted(sorted[..|sorted| - 1], x, rank);
      InsertedDescends(sorted[..|sorted| - 1], x, rank);
      InsertedPermutes(sorted[..|sorted| - 1], x, rank);
      DescendingAppend(front, sorted[|sorted| - 1], rank);
    }
  }

  /** `sort.Slice` with a "greater" order; equal elements may come in any order. */
  function SortedDescending<T>(xs: seq<T>, rank: T -> int): (sorted: seq<T>)
    ensures multiset(sorted) == multiset(xs) && Descending(sorted, rank)
  {
    if xs == [] then []
    else
      var n := |xs| - 1;
      assert xs == xs[..n] + [xs[n]];
      var front := SortedDescending(xs[..n], rank);
      InsertedPermutes(front, xs[n], rank);
      InsertedDescends(front, xs[n], rank);
      Inserted(front, xs[n], rank)
  }
}
