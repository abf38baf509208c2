/** Stable sorting, as sorted(xs, key=...) does it, for any order that is total and transitive. */
module Sorting {

  ghost predicate Orders<T(!new)>(le: (T, T) -> bool) {
    && (forall a, b :: le(a, b) || le(b, a))
    && (forall a, b, c :: le(a, b) && le(b, c) ==> le(a, c))
  }

  ghost predicate Sorted<T>(le: (T, T) -> bool, xs: seq<T>) {
    forall i, j :: 0 <= i < j < |xs| ==> le(xs[i], xs[j])
  }

  function Insert<T>(le: (T, T) -> bool, x: T, xs: seq<T>): (ys: seq<T>)
    ensures |ys| == |xs| + 1
    ensures multiset(ys) == multiset(xs) + multiset{x}
  {
    if xs == [] || le(x, xs[0]) then [x] + xs
    else
      assert xs == [xs[0]] + xs[1..];
      [xs[0]] + Insert(le, x, xs[1..])
  }

  function Sort<T>(le: (T, T) -> bool, xs: seq<T>): (ys: seq<T>)
    ensures |ys| == |xs|
    ensures multiset(ys) == multiset(xs)
  {
    if xs == [] then []
    else
      assert xs == [xs[0]] + xs[1..];
      Insert(le, xs[0], Sort(le, xs[1..]))
  }

  lemma {:induction false} InsertSorts<T(!new)>(le: (T, T) -> bool, x: T, xs: seq<T>)
    requires Orders(le) && Sorted(le, xs)
    ensures Sorted(le, Insert(le, x, xs))
  {
    if xs != [] && !le(x, xs[0]) {
      var rest := Insert(le, x, xs[1..]);
      InsertSorts(le, x, xs[1..]);
      forall j | 0 <= j < |rest| ensures le(xs[0], rest[j]) {
        assert rest[j] in multiset(rest);
        assert rest[j] == x || rest[j] in xs[1..];
      }
    }
  }

  lemma {:induction false} SortSorts<T(!new)>(le: (T, T) -> bool, xs: seq<T>)
    requires Orders(le)
    ensures Sorted(le, Sort(le, xs))
  {
    if xs != [] {
      SortSorts(le, xs[1..]);
      InsertSorts(le, xs[0], Sort(le, xs[1..]));
    }
  }

  // No two different elements tie.
  ghost predicate Strict<T>(le: (T, T) -> bool, xs: seq<T>) {
    forall x, y :: x in xs && y in xs && le(x, y) && le(y, x) ==> x == y
  }

  ghost predicate Reflexive<T(!new)>(le: (T, T) -> bool) {
    forall a :: le(a, a)
  }

  lemma EndsLast<T(!new)>(le: (T, T) -> bool, xs: seq<T>, x: T)
    requires Reflexive(le) && Sorted(le, xs) && x in xs
    ensures le(x, xs[|xs| - 1])
  {
    var i :| 0 <= i < |xs| && xs[i] == x;
  }

  lemma LastsAgree<T(!new)>(le: (T, T) -> bool, xs: seq<T>, ys: seq<T>)
    requires Reflexive(le) && Sorted(le, xs) && Sorted(le, ys) && Strict(le, xs)
    requires multiset(xs) == multiset(ys) && xs != [] && ys != []
    ensures xs[|xs| - 1] == ys[|ys| - 1]
  {
    var x, y := xs[|xs| - 1], ys[|ys| - 1];
    assert x in multiset(ys) && y in multiset(xs);
    EndsLast(le, ys, x);
    EndsLast(le, xs, y);
  }

  lemma WithoutLast<T>(le: (T, T) -> bool, xs: seq<T>)
    requires xs != [] && Sorted(le, xs)
    ensures var front := xs[..|xs| - 1];
      multiset(front) == multiset(xs) - multiset{xs[|xs| - 1]} && Sorted(le, front) && (Strict(le, xs) ==> Strict(le, front))
  {
    assert xs == xs[..|xs| - 1] + [xs[|xs| - 1]];
  }

  lemma SameEnds<T>(xs: seq<T>, ys: seq<T>)
    requires xs != [] && ys != [] && xs[..|xs| - 1] == ys[..|ys| - 1] && xs[|xs| - 1] == ys[|ys| - 1]
    ensures xs == ys
  {
    assert xs == xs[..|xs| - 1] + [xs[|xs| - 1]] && ys == ys[..|ys| - 1] + [ys[|ys| - 1]];
  }

  /** Without ties the sorted sequence is determined by the elements alone. */
  lemma {:induction false} SortedIsUnique<T(!new)>(le: (T, T) -> bool, xs: seq<T>, ys: seq<T>)
    requires Reflexive(le) && Sorted(le, xs) && Sorted(le, ys) && Strict(le, xs)
    requires multiset(xs) == multiset(ys)
    ensures xs == ys
  {
    assert |xs| == |multiset(xs)| == |ys|;
    if xs != [] {
      LastsAgree(le, xs, ys);
      WithoutLast(le, xs);
      WithoutLast(le, ys);
      SortedIsUnique(le, xs[..|xs| - 1], ys[..|ys| - 1]);
      SameEnds(xs, ys);
    }
  }

  lemma SortForgetsOrder<T(!new)>(le: (T, T) -> bool, xs: seq<T>, ys: seq<T>)
    requires Orders(le) && Strict(le, xs) && multiset(xs) == multiset(ys)
    ensures Sort(le, xs) == Sort(le, ys)
  {
    SortSorts(le, xs);
    SortSorts(le, ys);
    assert Strict(le, Sort(le, xs)) by {
      forall x | x in Sort(le, xs) ensures x in xs { assert x in multiset(Sort(le, xs)); }
    }
    SortedIsUnique(le, Sort(le, xs), Sort(le, ys));
  }

  // The elements that tie with a, in the order in which they come.
  function Ties<T>(le: (T, T) -> bool, xs: seq<T>, a: T): seq<T> {
    if xs == [] then []
    else (if le(xs[0], a) && le(a, xs[0]) then [xs[0]] else []) + Ties(le, xs[1..], a)
  }

  lemma {:induction false} InsertIsStable<T(!new)>(le: (T, T) -> bool, x: T, xs: seq<T>, a: T)
    requires Orders(le)
    ensures Ties(le, Insert(le, x, xs), a) == Ties(le, [x] + xs, a)
  {
    assert ([x] + xs)[1..] == xs;
    if xs != [] && !le(x, xs[0]) {
      var y, rest := xs[0], xs[1..];
      InsertIsStable(le, x, rest, a);
      assert ([y] + Insert(le, x, rest))[1..] == Insert(le, x, rest);
      assert ([x] + rest)[1..] == rest;
      // x and y do not both tie with a, or x would come before y.
      assert le(x, a) && le(a, y) ==> le(x, y);
    }
  }

  /** Sorting keeps the order of the elements that tie. */
  lemma {:induction false} SortIsStable<T(!new)>(le: (T, T) -> bool, xs: seq<T>, a: T)
    requires Orders(le)
    ensures Ties(le, Sort(le, xs), a) == Ties(le, xs, a)
  {
    if xs != [] {
      var sorted := Sort(le, xs[1..]);
      SortIsStable(le, xs[1..], a);
      InsertIsStable(le, xs[0], sorted, a);
      assert ([xs[0]] + sorted)[1..] == sorted;
    }
  }
}
