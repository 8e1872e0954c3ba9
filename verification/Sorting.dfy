/** Stable ordering by an integer key, as a query's ORDER BY or a numeric comparator gives it. */
module Sorting {

  function Insert<T>(key: T -> int, xs: seq<T>, x: T): seq<T> {
    if xs == [] || key(xs[|xs| - 1]) <= key(x) then xs + [x]
    else Insert(key, xs[..|xs| - 1], x) + [xs[|xs| - 1]]
  }

  function SortBy<T>(key: T -> int, xs: seq<T>): seq<T> {
    if xs == [] then [] else Insert(key, SortBy(key, xs[..|xs| - 1]), xs[|xs| - 1])
  }

  ghost predicate Ascending<T>(key: T -> int, xs: seq<T>) {
    forall i, j :: 0 <= i < j < |xs| ==> key(xs[i]) < key(xs[j])
  }

  ghost predicate NonDescending<T>(key: T -> int, xs: seq<T>) {
    forall i, j :: 0 <= i < j < |xs| ==> key(xs[i]) <= key(xs[j])
  }

  lemma {:induction false} InsertContents<T>(key: T -> int, xs: seq<T>, x: T)
    ensures multiset(Insert(key, xs, x)) == multiset(xs) + multiset{x}
    ensures forall y :: y in Insert(key, xs, x) ==> y in xs || y == x
  {
    if xs != [] && key(xs[|xs| - 1]) > key(x) {
      InsertContents(key, xs[..|xs| - 1], x);
      assert xs == xs[..|xs| - 1] + [xs[|xs| - 1]];
    }
  }

  lemma {:induction false} InsertOrdered<T>(key: T -> int, xs: seq<T>, x: T)
    requires NonDescending(key, xs)
    ensures NonDescending(key, Insert(key, xs, x))
  {
    if xs != [] && key(xs[|xs| - 1]) > key(x) {
      var n := |xs| - 1;
      InsertOrdered(key, xs[..n], x);
      InsertContents(key, xs[..n], x);
      var shorter := Insert(key, xs[..n], x);
      forall i | 0 <= i < |shorter|
        ensures key(shorter[i]) <= key(xs[n])
      {
        assert shorter[i] in shorter;
      }
    }
  }

  /** The result is ordered and a rearrangement of the input. */
  lemma {:induction false} SortProperties<T>(key: T -> int, xs: seq<T>)
    ensures multiset(SortBy(key, xs)) == multiset(xs)
    ensures NonDescending(key, SortBy(key, xs))
  {
    if xs != [] {
      var n := |xs| - 1;
      SortProperties(key, xs[..n]);
      InsertContents(key, SortBy(key, xs[..n]), xs[n]);
      InsertOrdered(key, SortBy(key, xs[..n]), xs[n]);
      assert xs == xs[..n] + [xs[n]];
    }
  }

  lemma SameMembers<T>(xs: seq<T>, ys: seq<T>)
    requires multiset(xs) == multiset(ys)
    ensures |xs| == |ys|
    ensures forall x :: x in xs <==> x in ys
  {
    assert |xs| == |multiset(xs)| && |ys| == |multiset(ys)|;
    assert forall x :: x in xs <==> x in multiset(xs);
    assert forall x :: x in ys <==> x in multiset(ys);
  }

  lemma SameLast<T>(key: T -> int, xs: seq<T>, ys: seq<T>)
    requires xs != [] && Ascending(key, xs) && NonDescending(key, ys) && multiset(xs) == multiset(ys)
    ensures |xs| == |ys| && ys[|ys| - 1] == xs[|xs| - 1]
  {
    SameMembers(xs, ys);
    var n := |xs| - 1;
    assert xs[n] in ys && ys[n] in xs;
    var i :| 0 <= i < |ys| && ys[i] == xs[n];
    var j :| 0 <= j < |xs| && xs[j] == ys[n];
    assert key(ys[i]) <= key(ys[n]);
  }

  lemma SameFront<T>(a: seq<T>, b: seq<T>, x: T)
    requires multiset(a + [x]) == multiset(b + [x])
    ensures multiset(a) == multiset(b)
  {
    assert multiset(a) == multiset(a + [x]) - multiset{x};
    assert multiset(b) == multiset(b + [x]) - multiset{x};
  }

  /** Two ordered rearrangements of each other are equal when one has distinct keys. */
  lemma {:induction false} OrderIsUnique<T>(key: T -> int, xs: seq<T>, ys: seq<T>)
    requires Ascending(key, xs) && NonDescending(key, ys) && multiset(xs) == multiset(ys)
    ensures xs == ys
  {
    if xs == [] {
      SameMembers(xs, ys);
    } else {
      var n := |xs| - 1;
      SameLast(key, xs, ys);
      var xs', ys', x := xs[..n], ys[..n], xs[n];
      assert xs == xs' + [x] && ys == ys' + [x];
      SameFront(xs', ys', x);
      OrderIsUnique(key, xs', ys');
    }
  }

  /** Sorting recovers a log from any arrival order. */
  lemma {:induction false} SortRecovers<T>(key: T -> int, log: seq<T>, arrived: seq<T>)
    requires Ascending(key, log) && multiset(arrived) == multiset(log)
    ensures SortBy(key, arrived) == log
  {
    SortProperties(key, arrived);
    OrderIsUnique(key, log, SortBy(key, arrived));
  }
}
