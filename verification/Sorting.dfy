/** Sorting by a string key, as Python's stable `sorted` does it. */
module Sorting {
  /** Lexicographic order by code point. */
  predicate Leq(a: string, b: string)
    decreases |a|
  {
    a == "" || (b != "" && (a[0] < b[0] || (a[0] == b[0] && Leq(a[1..], b[1..]))))
  }

  lemma {:induction false} LeqTotal(a: string, b: string)
    ensures Leq(a, b) || Leq(b, a)
    decreases |a|
  {
    if a != "" && b != "" {
      LeqTotal(a[1..], b[1..]);
    }
  }

  function InsertBy<T>(key: T -> string, xs: seq<T>, x: T): seq<T>
    decreases |xs|
  {
    if xs == [] || Leq(key(xs[|xs| - 1]), key(x)) then xs + [x]
    else InsertBy(key, xs[..|xs| - 1], x) + [xs[|xs| - 1]]
  }

  function SortBy<T>(key: T -> string, xs: seq<T>): seq<T>
    decreases |xs|
  {
    if xs == [] then [] else InsertBy(key, SortBy(key, xs[..|xs| - 1]), xs[|xs| - 1])
  }

  predicate OrderedBy<T>(key: T -> string, xs: seq<T>) {
    forall i | 0 <= i < |xs| - 1 :: Leq(key(xs[i]), key(xs[i + 1]))
  }

  predicate DistinctBy<T>(key: T -> string, xs: seq<T>) {
    forall i, j | 0 <= i < j < |xs| :: key(xs[i]) != key(xs[j])
  }

  lemma {:induction false} InsertFacts<T(!new)>(key: T -> string, xs: seq<T>, x: T)
    requires OrderedBy(key, xs)
    ensures
      var ys := InsertBy(key, xs, x);
      && OrderedBy(key, ys)
      && |ys| == |xs| + 1
      && (ys[|xs|] == x || (xs != [] && ys[|xs|] == xs[|xs| - 1]))
      && (forall y :: y in ys <==> y in xs || y == x)
    decreases |xs|
  {
    if xs != [] && !Leq(key(xs[|xs| - 1]), key(x)) {
      var last := xs[|xs| - 1];
      var init := xs[..|xs| - 1];
      assert xs == init + [last];
      LeqTotal(key(last), key(x));
      InsertFacts(key, init, x);
      if init != [] {
        assert Leq(key(init[|init| - 1]), key(xs[|init|]));
      }
    }
  }

  /** Sorting orders the elements, keeps them, and changes nothing exactly when they are ordered. */
  lemma {:induction false} SortFacts<T(!new)>(key: T -> string, xs: seq<T>)
    ensures OrderedBy(key, SortBy(key, xs)) && |SortBy(key, xs)| == |xs|
    ensures forall y :: y in SortBy(key, xs) <==> y in xs
    ensures SortBy(key, xs) == xs <==> OrderedBy(key, xs)
    decreases |xs|
  {
    if xs != [] {
      var last := xs[|xs| - 1];
      var init := xs[..|xs| - 1];
      assert xs == init + [last];
      SortFacts(key, init);
      InsertFacts(key, SortBy(key, init), last);
      if OrderedBy(key, xs) && init != [] {
        assert Leq(key(xs[|init| - 1]), key(xs[|init|]));
      }
    }
  }

  lemma {:induction false} InsertedElements<T(!new)>(key: T -> string, xs: seq<T>, x: T)
    ensures forall y :: y in InsertBy(key, xs, x) <==> y in xs || y == x
    decreases |xs|
  {
    if xs != [] && !Leq(key(xs[|xs| - 1]), key(x)) {
      assert xs == xs[..|xs| - 1] + [xs[|xs| - 1]];
      InsertedElements(key, xs[..|xs| - 1], x);
    }
  }

  lemma {:induction false} InsertKeepsDistinct<T(!new)>(key: T -> string, other: T -> string, xs: seq<T>, x: T)
    requires DistinctBy(other, xs) && forall y | y in xs :: other(y) != other(x)
    ensures DistinctBy(other, InsertBy(key, xs, x))
    ensures forall y :: y in InsertBy(key, xs, x) <==> y in xs || y == x
    decreases |xs|
  {
    hide DistinctBy;
    if xs != [] && !Leq(key(xs[|xs| - 1]), key(x)) {
      var last := xs[|xs| - 1];
      var init := xs[..|xs| - 1];
      assert xs == init + [last];
      DistinctAppend(other, init, last);
      InsertKeepsDistinct(key, other, init, x);
      var inserted := InsertBy(key, init, x);
      InsertedElements(key, init, x);
      forall y: T | y in inserted
        ensures other(y) != other(last)
      {
        assert y in init || y == x;
        assert last in xs;
      }
      DistinctAppend(other, inserted, last);
      assert InsertBy(key, xs, x) == inserted + [last];
    } else {
      DistinctAppend(other, xs, x);
    }
  }

  lemma DistinctAppend<T(!new)>(key: T -> string, xs: seq<T>, x: T)
    ensures DistinctBy(key, xs + [x]) <==> DistinctBy(key, xs) && forall y | y in xs :: key(y) != key(x)
  {
    var ys := xs + [x];
    if DistinctBy(key, ys) {
      forall i, j | 0 <= i < j < |xs|
        ensures key(xs[i]) != key(xs[j])
      {
        assert ys[i] == xs[i] && ys[j] == xs[j];
      }
      forall y | y in xs
        ensures key(y) != key(x)
      {
        var i :| 0 <= i < |xs| && xs[i] == y;
        assert ys[i] == y && ys[|xs|] == x;
      }
    }
  }

  lemma {:induction false} SortKeepsDistinct<T(!new)>(key: T -> string, other: T -> string, xs: seq<T>)
    requires DistinctBy(other, xs)
    ensures DistinctBy(other, SortBy(key, xs))
    decreases |xs|
  {
    hide DistinctBy, OrderedBy, InsertBy;
    if xs != [] {
      var last := xs[|xs| - 1];
      var init := xs[..|xs| - 1];
      assert xs == init + [last];
      DistinctAppend(other, init, last);
      SortKeepsDistinct(key, other, init);
      SortFacts(key, init);
      var sorted := SortBy(key, init);
      forall i | 0 <= i < |sorted|
        ensures other(sorted[i]) != other(last)
      {
        assert sorted[i] in sorted;
        assert sorted[i] in init;
      }
      InsertKeepsDistinct(key, other, SortBy(key, init), last);
    }
  }
}
