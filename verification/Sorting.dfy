/** Sorting by a total order: what the analyzers' sorted() and the backend's sort return is
    determined by the order and the multiset of elements alone. */
module Sorting {

  ghost predicate Preorder<T(!new)>(leq: (T, T) -> bool) {
    && (forall a, b :: leq(a, b) || leq(b, a))
    && (forall a, b, c :: leq(a, b) && leq(b, c) ==> leq(a, c))
  }

  ghost predicate TotalOrder<T(!new)>(leq: (T, T) -> bool) {
    Preorder(leq) && forall a, b :: leq(a, b) && leq(b, a) ==> a == b
  }

  predicate IsSorted<T>(s: seq<T>, leq: (T, T) -> bool) {
    forall i, j | 0 <= i < j < |s| :: leq(s[i], s[j])
  }

  function Insert<T>(x: T, s: seq<T>, leq: (T, T) -> bool): seq<T> {
    if s == [] || leq(x, s[0]) then [x] + s else [s[0]] + Insert(x, s[1..], leq)
  }

  function Sort<T>(s: seq<T>, leq: (T, T) -> bool): seq<T> {
    if s == [] then [] else Insert(s[0], Sort(s[1..], leq), leq)
  }

  lemma {:induction false} InsertMultiset<T>(x: T, s: seq<T>, leq: (T, T) -> bool)
    ensures multiset(Insert(x, s, leq)) == multiset(s) + multiset{x}
  {
    if s != [] && !leq(x, s[0]) {
      InsertMultiset(x, s[1..], leq);
      assert s == [s[0]] + s[1..];
    }
  }

  lemma {:induction false} InsertSorted<T(!new)>(x: T, s: seq<T>, leq: (T, T) -> bool)
    requires Preorder(leq) && IsSorted(s, leq)
    ensures IsSorted(Insert(x, s, leq), leq)
  {
    if s == [] || leq(x, s[0]) {
      Headed(x, s, leq);
    } else {
      var t := Insert(x, s[1..], leq);
      InsertSorted(x, s[1..], leq);
      InsertMultiset(x, s[1..], leq);
      forall y | y in t
        ensures leq(s[0], y)
      {
        assert y in multiset(t);
        assert y == x || y in s[1..];
      }
      Headed(s[0], t, leq);
    }
  }

  /** In front of a sorted sequence goes what is at most its elements. */
  lemma Headed<T(!new)>(x: T, s: seq<T>, leq: (T, T) -> bool)
    requires Preorder(leq) && IsSorted(s, leq) && (s == [] || leq(x, s[0]) || forall y | y in s :: leq(x, y))
    ensures IsSorted([x] + s, leq)
  {
    if s != [] {
      assert leq(x, s[0]);
    }
    forall i, j | 0 <= i < j < |s| + 1
      ensures leq(([x] + s)[i], ([x] + s)[j])
    {
      if i == 0 && j > 1 {
        assert leq(s[0], s[j - 1]);
      }
    }
  }

  lemma {:induction false} SortCorrect<T(!new)>(s: seq<T>, leq: (T, T) -> bool)
    requires Preorder(leq)
    ensures IsSorted(Sort(s, leq), leq) && multiset(Sort(s, leq)) == multiset(s) && |Sort(s, leq)| == |s|
  {
    if s != [] {
      SortCorrect(s[1..], leq);
      InsertMultiset(s[0], Sort(s[1..], leq), leq);
      InsertSorted(s[0], Sort(s[1..], leq), leq);
      assert s == [s[0]] + s[1..];
    }
    assert |multiset(Sort(s, leq))| == |multiset(s)|;
  }

  lemma TailMultiset<T>(s: seq<T>)
    requires s != []
    ensures multiset(s[1..]) == multiset(s) - multiset{s[0]}
  {
    assert s == [s[0]] + s[1..];
  }

  /** Transitive and total on any elements, antisymmetric among these: enough to sort them in
      one way only, when the order compares no more than a key that tells them apart. */
  ghost predicate OrderOn<T(!new)>(s: seq<T>, leq: (T, T) -> bool) {
    Preorder(leq) && forall a, b | a in s && b in s :: leq(a, b) && leq(b, a) ==> a == b
  }

  lemma {:induction false} SortedUniqueOn<T(!new)>(s: seq<T>, t: seq<T>, leq: (T, T) -> bool)
    requires OrderOn(s, leq) && IsSorted(s, leq) && IsSorted(t, leq) && multiset(s) == multiset(t)
    ensures s == t
  {
    assert |s| == |multiset(s)| == |multiset(t)| == |t|;
    if s != [] {
      assert s[0] in multiset(t) && t[0] in multiset(s);
      HeadOn(s, t[0], leq);
      HeadOn(t, s[0], leq);
      TailMultiset(s);
      TailMultiset(t);
      assert s[0] == t[0];
      SortedUniqueOn(s[1..], t[1..], leq);
      assert s == [s[0]] + s[1..] && t == [t[0]] + t[1..];
    }
  }

  lemma HeadOn<T(!new)>(s: seq<T>, x: T, leq: (T, T) -> bool)
    requires Preorder(leq) && IsSorted(s, leq) && x in s
    ensures leq(s[0], x)
  {
    var i :| 0 <= i < |s| && s[i] == x;
    assert i == 0 || leq(s[0], s[i]);
    assert leq(x, x) || leq(x, x);
  }

  /** There is only one way to sort. */
  lemma SortedUnique<T(!new)>(s: seq<T>, t: seq<T>, leq: (T, T) -> bool)
    requires TotalOrder(leq) && IsSorted(s, leq) && IsSorted(t, leq) && multiset(s) == multiset(t)
    ensures s == t
  {
    SortedUniqueOn(s, t, leq);
  }
}
