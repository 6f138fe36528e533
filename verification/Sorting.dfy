/** Sorting by a (text, number) key, and why a strictly sorted list is determined by its elements. */
module Sorting {
  import opened Text

  type Key = (string, nat)

  predicate KeyLess(a: Key, b: Key) {
    if a.0 == b.0 then a.1 < b.1 else Less(a.0, b.0)
  }

  lemma KeyLessIsTransitive(a: Key, b: Key, c: Key)
    requires KeyLess(a, b) && KeyLess(b, c)
    ensures KeyLess(a, c)
  {
    if a.0 != b.0 && b.0 != c.0 {
      LessIsTransitive(a.0, b.0, c.0);
      LessIsIrreflexive(a.0);
    }
  }

  lemma KeyLessIsTotal(a: Key, b: Key)
    ensures a == b || KeyLess(a, b) || KeyLess(b, a)
  {
    LessIsTotal(a.0, b.0);
  }

  lemma KeyLessIsIrreflexive(a: Key)
    ensures !KeyLess(a, a)
  {}

  ghost predicate StrictlySorted<T(!new)>(key: T -> Key, xs: seq<T>) {
    forall i, j :: 0 <= i < j < |xs| ==> KeyLess(key(xs[i]), key(xs[j]))
  }

  ghost predicate DistinctKeys<T(!new)>(key: T -> Key, xs: seq<T>) {
    forall i, j :: 0 <= i < j < |xs| ==> key(xs[i]) != key(xs[j])
  }

  /** Puts x into a strictly sorted list that does not hold its key. */
  function Insert<T(!new)>(key: T -> Key, x: T, xs: seq<T>): (ys: seq<T>)
    ensures multiset(ys) == multiset{x} + multiset(xs)
  {
    if xs == [] then [x]
    else if KeyLess(key(x), key(xs[0])) then [x] + xs
    else
      assert xs == [xs[0]] + xs[1..];
      [xs[0]] + Insert(key, x, xs[1..])
  }

  function SortBy<T(!new)>(key: T -> Key, xs: seq<T>): (ys: seq<T>)
    ensures multiset(ys) == multiset(xs)
  {
    if xs == [] then []
    else
      assert xs == [xs[0]] + xs[1..];
      Insert(key, xs[0], SortBy(key, xs[1..]))
  }

  lemma {:induction false} InsertKeepsOrder<T(!new)>(key: T -> Key, x: T, xs: seq<T>)
    requires StrictlySorted(key, xs)
    requires forall y :: y in xs ==> key(y) != key(x)
    ensures StrictlySorted(key, Insert(key, x, xs))
  {
    if xs != [] {
      KeyLessIsTotal(key(x), key(xs[0]));
      if KeyLess(key(x), key(xs[0])) {
        forall j | 0 < j < |xs| ensures KeyLess(key(x), key(xs[j])) {
          KeyLessIsTransitive(key(x), key(xs[0]), key(xs[j]));
        }
      } else {
        var rest := Insert(key, x, xs[1..]);
        InsertKeepsOrder(key, x, xs[1..]);
        forall j | 0 <= j < |rest| ensures KeyLess(key(xs[0]), key(rest[j])) {
          assert rest[j] in multiset(rest);
          assert rest[j] == x || rest[j] in xs[1..];
        }
      }
    }
  }

  lemma {:induction false} SortBySorts<T(!new)>(key: T -> Key, xs: seq<T>)
    requires DistinctKeys(key, xs)
    ensures StrictlySorted(key, SortBy(key, xs))
  {
    if xs != [] {
      var rest := SortBy(key, xs[1..]);
      SortBySorts(key, xs[1..]);
      forall y | y in rest ensures key(y) != key(xs[0]) {
        assert y in multiset(rest);
        assert y in xs[1..];
      }
      InsertKeepsOrder(key, xs[0], rest);
    }
  }

  lemma SortByKeepsElements<T(!new)>(key: T -> Key, xs: seq<T>)
    ensures |SortBy(key, xs)| == |xs| && forall x :: x in SortBy(key, xs) <==> x in xs
  {
    var ys := SortBy(key, xs);
    assert |ys| == |multiset(ys)| && |xs| == |multiset(xs)|;
    assert forall x :: x in ys <==> x in multiset(ys);
    assert forall x :: x in xs <==> x in multiset(xs);
  }

  /** Two strictly sorted lists with the same elements are the same list. */
  lemma {:induction false} StrictlySortedIsUnique<T(!new)>(key: T -> Key, xs: seq<T>, ys: seq<T>)
    requires StrictlySorted(key, xs) && StrictlySorted(key, ys)
    requires forall x :: x in xs <==> x in ys
    ensures xs == ys
  {
    assert xs != [] ==> xs[0] in xs;
    assert ys != [] ==> ys[0] in ys;
    if xs != [] && ys != [] {
      var i :| 0 <= i < |ys| && ys[i] == xs[0];
      var j :| 0 <= j < |xs| && xs[j] == ys[0];
      if i > 0 && j > 0 {
        KeyLessIsTransitive(key(xs[0]), key(ys[0]), key(xs[0]));
        KeyLessIsIrreflexive(key(xs[0]));
      }
      assert xs[0] == ys[0];
      TailKeepsElements(key, xs, ys);
      StrictlySortedIsUnique(key, xs[1..], ys[1..]);
      assert xs == [xs[0]] + xs[1..] && ys == [ys[0]] + ys[1..];
    }
  }

  lemma TailKeepsElements<T(!new)>(key: T -> Key, xs: seq<T>, ys: seq<T>)
    requires StrictlySorted(key, xs) && StrictlySorted(key, ys)
    requires xs != [] && ys != [] && xs[0] == ys[0]
    requires forall x :: x in xs <==> x in ys
    ensures forall x :: x in xs[1..] <==> x in ys[1..]
  {
    forall x
      ensures x in xs[1..] <==> x in xs && x != xs[0]
      ensures x in ys[1..] <==> x in ys && x != ys[0]
    {
      KeyLessIsIrreflexive(key(xs[0]));
    }
  }
}
