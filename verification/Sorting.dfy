/** A stable sort by a comparison; the order of equal elements is kept. */
module Sorting {
  /** On these elements the comparison is asymmetric, and being unordered is transitive. */
  ghost predicate Preorder<T>(precedes: (T, T) -> bool, xs: seq<T>) {
    && (forall x, y :: x in xs && y in xs && precedes(x, y) ==> !precedes(y, x))
    && (forall x, y, z :: x in xs && y in xs && z in xs && precedes(x, z) ==> precedes(x, y) || precedes(y, z))
  }

  ghost predicate Ordered<T>(xs: seq<T>, precedes: (T, T) -> bool) {
    forall i, j :: 0 <= i < j < |xs| ==> !precedes(xs[j], xs[i])
  }

  function Insert<T>(x: T, xs: seq<T>, precedes: (T, T) -> bool): seq<T> {
    if xs == [] || !precedes(xs[0], x) then [x] + xs else [xs[0]] + Insert(x, xs[1..], precedes)
  }

  function Sort<T>(xs: seq<T>, precedes: (T, T) -> bool): seq<T> {
    if xs == [] then [] else Insert(xs[0], Sort(xs[1..], precedes), precedes)
  }

  lemma {:induction false} InsertKeeps<T>(x: T, xs: seq<T>, precedes: (T, T) -> bool)
    ensures multiset(Insert(x, xs, precedes)) == multiset{x} + multiset(xs)
    ensures forall y :: y in Insert(x, xs, precedes) ==> y == x || y in xs
  {
    if xs != [] && precedes(xs[0], x) {
      InsertKeeps(x, xs[1..], precedes);
      assert xs == [xs[0]] + xs[1..];
    }
  }

  lemma PrependOrders<T>(x: T, xs: seq<T>, precedes: (T, T) -> bool)
    requires Ordered(xs, precedes) && forall y :: y in xs ==> !precedes(y, x)
    ensures Ordered([x] + xs, precedes)
  {
  }

  lemma {:induction false} InsertOrders<T>(x: T, xs: seq<T>, precedes: (T, T) -> bool)
    requires Preorder(precedes, [x] + xs) && Ordered(xs, precedes)
    ensures Ordered(Insert(x, xs, precedes), precedes)
  {
    if xs == [] || !precedes(xs[0], x) {
      assert x in [x] + xs && forall y :: y in xs ==> y in [x] + xs;
      forall y | y in xs ensures !precedes(y, x) {
        var i :| 0 <= i < |xs| && xs[i] == y;
        assert i > 0 ==> !precedes(xs[i], xs[0]);
      }
      PrependOrders(x, xs, precedes);
    } else {
      assert forall y :: y in [x] + xs[1..] ==> y in [x] + xs;
      InsertOrders(x, xs[1..], precedes);
      InsertKeeps(x, xs[1..], precedes);
      assert x in [x] + xs && xs[0] in [x] + xs;
      forall y | y in Insert(x, xs[1..], precedes) ensures !precedes(y, xs[0]) {
        if y in xs[1..] {
          var i :| 0 < i < |xs| && xs[i] == y;
        }
      }
      PrependOrders(xs[0], Insert(x, xs[1..], precedes), precedes);
    }
  }

  lemma {:induction false} SortKeeps<T>(xs: seq<T>, precedes: (T, T) -> bool)
    ensures multiset(Sort(xs, precedes)) == multiset(xs)
    ensures forall x :: x in Sort(xs, precedes) <==> x in xs
  {
    if xs != [] {
      SortKeeps(xs[1..], precedes);
      InsertKeeps(xs[0], Sort(xs[1..], precedes), precedes);
      assert xs == [xs[0]] + xs[1..];
    }
    forall x ensures x in Sort(xs, precedes) <==> x in xs {
      assert x in Sort(xs, precedes) <==> x in multiset(Sort(xs, precedes));
    }
  }

  lemma FewerElements<T>(precedes: (T, T) -> bool, xs: seq<T>, ys: seq<T>)
    requires Preorder(precedes, xs) && forall y :: y in ys ==> y in xs
    ensures Preorder(precedes, ys)
  {
  }

  lemma MembersOfRest<T>(xs: seq<T>, rest: seq<T>)
    requires xs != [] && forall y :: y in rest <==> y in xs[1..]
    ensures forall y :: y in xs[1..] ==> y in xs
    ensures forall y :: y in [xs[0]] + rest ==> y in xs
  {
    forall y | y in [xs[0]] + rest ensures y in xs {
      assert y == xs[0] || y in rest;
    }
  }

  lemma {:induction false} SortPutsInOrder<T>(xs: seq<T>, precedes: (T, T) -> bool)
    requires Preorder(precedes, xs)
    ensures Ordered(Sort(xs, precedes), precedes)
  {
    if xs != [] {
      hide Preorder, Ordered;
      var rest := Sort(xs[1..], precedes);
      SortKeeps(xs[1..], precedes);
      MembersOfRest(xs, rest);
      FewerElements(precedes, xs, xs[1..]);
      FewerElements(precedes, xs, [xs[0]] + rest);
      SortPutsInOrder(xs[1..], precedes);
      InsertOrders(xs[0], rest, precedes);
    }
  }

  /** The result holds the same elements, in order. */
  lemma SortOrders<T>(xs: seq<T>, precedes: (T, T) -> bool)
    ensures multiset(Sort(xs, precedes)) == multiset(xs)
    ensures forall x :: x in Sort(xs, precedes) <==> x in xs
    ensures Preorder(precedes, xs) ==> Ordered(Sort(xs, precedes), precedes)
  {
    hide Preorder, Ordered, Sort;
    SortKeeps(xs, precedes);
    if Preorder(precedes, xs) {
      SortPutsInOrder(xs, precedes);
    }
  }
}
