/** Dictionaries of lists, as the analyzers fill them: the rows of each key in input order, read
    back in the sorted order of the keys. */
module Grouping {
  import opened Sorting

  /** The keys in the order of their first row. */
  function KeysOf<T, K(==)>(rows: seq<T>, key: T -> K): seq<K> {
    if rows == [] then []
    else
      var m := |rows| - 1;
      var before := KeysOf(rows[..m], key);
      if key(rows[m]) in before then before else before + [key(rows[m])]
  }

  /** The rows of one key in input order. */
  function Members<T, K(==)>(rows: seq<T>, key: T -> K, k: K): seq<T> {
    if rows == [] then []
    else
      var m := |rows| - 1;
      Members(rows[..m], key, k) + (if key(rows[m]) == k then [rows[m]] else [])
  }

  ghost predicate HasKey<T, K>(rows: seq<T>, key: T -> K, k: K) {
    exists i :: 0 <= i < |rows| && key(rows[i]) == k
  }

  ghost predicate Distinct<K>(ks: seq<K>) {
    forall i, j | 0 <= i < j < |ks| :: ks[i] != ks[j]
  }

  lemma {:induction false} KeysExact<T, K(!new)>(rows: seq<T>, key: T -> K)
    ensures Distinct(KeysOf(rows, key))
    ensures forall k :: k in KeysOf(rows, key) <==> HasKey(rows, key, k)
  {
    if rows != [] {
      var m := |rows| - 1;
      KeysExact(rows[..m], key);
      forall k
        ensures k in KeysOf(rows, key) <==> HasKey(rows, key, k)
      {
        if i :| 0 <= i < m && key(rows[i]) == k {
          assert rows[..m][i] == rows[i];
          assert HasKey(rows[..m], key, k);
        }
        if HasKey(rows[..m], key, k) {
          var i :| 0 <= i < m && key(rows[..m][i]) == k;
          assert key(rows[i]) == k;
        }
        if k == key(rows[m]) {
          assert HasKey(rows, key, k);
        }
      }
    }
  }

  lemma {:induction false} MembersExact<T, K>(rows: seq<T>, key: T -> K, k: K, x: T)
    ensures multiset(Members(rows, key, k))[x] == if key(x) == k then multiset(rows)[x] else 0
  {
    if rows != [] {
      var m := |rows| - 1;
      MembersExact(rows[..m], key, k, x);
      assert rows == rows[..m] + [rows[m]];
    }
  }

  lemma {:induction false} MembersConcat<T, K>(a: seq<T>, b: seq<T>, key: T -> K, k: K)
    ensures Members(a + b, key, k) == Members(a, key, k) + Members(b, key, k)
  {
    if b == [] {
      assert a + b == a;
    } else {
      var m := |b| - 1;
      assert (a + b)[..|a + b| - 1] == a + b[..m];
      MembersConcat(a, b[..m], key, k);
    }
  }

  lemma {:induction false} MembersAll<T, K>(rows: seq<T>, key: T -> K, k: K)
    requires forall i | 0 <= i < |rows| :: key(rows[i]) == k
    ensures Members(rows, key, k) == rows
  {
    if rows != [] {
      MembersAll(rows[..|rows| - 1], key, k);
      assert rows == rows[..|rows| - 1] + [rows[|rows| - 1]];
    }
  }

  lemma {:induction false} MembersNone<T, K>(rows: seq<T>, key: T -> K, k: K)
    requires forall i | 0 <= i < |rows| :: key(rows[i]) != k
    ensures Members(rows, key, k) == []
  {
    if rows != [] {
      MembersNone(rows[..|rows| - 1], key, k);
    }
  }

  /** Group every row under its key. */
  method GroupBy<T, K(==, !new)>(rows: seq<T>, key: T -> K) returns (groups: map<K, seq<T>>)
    ensures forall k :: Filed(rows, key, groups, k)
  {
    groups := map[];
    for n := 0 to |rows|
      invariant forall k :: Filed(rows[..n], key, groups, k)
    {
      var r, before := rows[n], groups;
      groups := groups[key(r) := (if key(r) in groups then groups[key(r)] else []) + [r]];
      assert rows[..n + 1][..n] == rows[..n];
      ghost var next := rows[..n + 1];
      forall k
        ensures Filed(next, key, groups, k)
      {
        assert Filed(rows[..n], key, before, k);
      }
    }
    assert rows[..|rows|] == rows;
  }

  /** The dictionary holds the rows of k, and has k only if there are any. */
  predicate Filed<T(==), K(==)>(rows: seq<T>, key: T -> K, groups: map<K, seq<T>>, k: K) {
    if k in groups then groups[k] == Members(rows, key, k) && groups[k] != [] else Members(rows, key, k) == []
  }

  lemma FiledMembers<T, K>(rows: seq<T>, key: T -> K, groups: map<K, seq<T>>, k: K)
    requires Filed(rows, key, groups, k) && Members(rows, key, k) != []
    ensures k in groups && groups[k] == Members(rows, key, k)
  {
  }

  // ----- independence of the input order

  lemma {:induction false} Once<K>(ks: seq<K>, k: K)
    requires Distinct(ks)
    ensures multiset(ks)[k] == if k in ks then 1 else 0
  {
    if ks != [] {
      var m := |ks| - 1;
      Once(ks[..m], k);
      assert ks == ks[..m] + [ks[m]];
    }
  }

  lemma SameKeys<T(!new), K(!new)>(rows: seq<T>, rows': seq<T>, key: T -> K)
    requires multiset(rows) == multiset(rows')
    ensures multiset(KeysOf(rows, key)) == multiset(KeysOf(rows', key))
  {
    KeysExact(rows, key);
    KeysExact(rows', key);
    forall k
      ensures multiset(KeysOf(rows, key))[k] == multiset(KeysOf(rows', key))[k]
    {
      Once(KeysOf(rows, key), k);
      Once(KeysOf(rows', key), k);
      KeyKept(rows, rows', key, k);
      KeyKept(rows', rows, key, k);
    }
  }

  lemma KeyKept<T, K>(rows: seq<T>, rows': seq<T>, key: T -> K, k: K)
    requires multiset(rows) == multiset(rows')
    ensures HasKey(rows, key, k) ==> HasKey(rows', key, k)
  {
    if HasKey(rows, key, k) {
      var i :| 0 <= i < |rows| && key(rows[i]) == k;
      assert rows[i] in multiset(rows');
      var j :| 0 <= j < |rows'| && rows'[j] == rows[i];
    }
  }

  lemma SameMembers<T(!new), K>(rows: seq<T>, rows': seq<T>, key: T -> K, k: K)
    requires multiset(rows) == multiset(rows')
    ensures multiset(Members(rows, key, k)) == multiset(Members(rows', key, k))
  {
    forall x
      ensures multiset(Members(rows, key, k))[x] == multiset(Members(rows', key, k))[x]
    {
      MembersExact(rows, key, k, x);
      MembersExact(rows', key, k, x);
    }
  }

  /** The keys in sorted order do not depend on the order of the rows. */
  lemma SameSortedKeys<T(!new), K(!new)>(rows: seq<T>, rows': seq<T>, key: T -> K, leq: (K, K) -> bool)
    requires multiset(rows) == multiset(rows') && TotalOrder(leq)
    ensures Sort(KeysOf(rows, key), leq) == Sort(KeysOf(rows', key), leq)
  {
    SameKeys(rows, rows', key);
    SortCorrect(KeysOf(rows, key), leq);
    SortCorrect(KeysOf(rows', key), leq);
    SortedUnique(Sort(KeysOf(rows, key), leq), Sort(KeysOf(rows', key), leq), leq);
  }

  /** Every key of the list has rows. */
  ghost predicate Present<T, K>(rows: seq<T>, key: T -> K, ks: seq<K>) {
    forall i | 0 <= i < |ks| :: Members(rows, key, ks[i]) != []
  }

  lemma SortedPresent<T, K(!new)>(rows: seq<T>, key: T -> K, leq: (K, K) -> bool)
    requires TotalOrder(leq)
    ensures Present(rows, key, Sort(KeysOf(rows, key), leq))
  {
    var ks := Sort(KeysOf(rows, key), leq);
    KeysExact(rows, key);
    SortCorrect(KeysOf(rows, key), leq);
    forall i | 0 <= i < |ks|
      ensures Members(rows, key, ks[i]) != []
    {
      assert ks[i] in multiset(ks);
      assert HasKey(rows, key, ks[i]);
      var j :| 0 <= j < |rows| && key(rows[j]) == ks[i];
      MembersExact(rows, key, ks[i], rows[j]);
      assert rows[j] in multiset(Members(rows, key, ks[i]));
    }
  }
}
