/** Stall events: the affected iterations of each sample, grouped into runs of consecutive
    iterations. */
module Events {
  import opened Sequences
  import opened Grouping
  import opened Options
  import opened Sorting

  /** halo_words and sample_index. */
  type SampleKey = (int, int)

  datatype Affected = Affected(key: SampleKey, iteration: int)

  function IntLeq(): (int, int) -> bool { (a, b) => a <= b }

  lemma IntOrder()
    ensures TotalOrder(IntLeq())
  {
  }

  function Sorted(s: seq<int>): seq<int> { Sort(s, IntLeq()) }

  function KeyOf(): Affected -> SampleKey { (a: Affected) => a.key }

  function Iterations(records: seq<Affected>): (s: seq<int>)
    ensures |s| == |records|
  {
    seq(|records|, i requires 0 <= i < |records| => records[i].iteration)
  }

  /** The iterations recorded for one sample, in record order. */
  function Group(records: seq<Affected>, key: SampleKey): seq<int> {
    Iterations(Members(records, KeyOf(), key))
  }

  lemma GroupAppend(records: seq<Affected>, r: Affected, key: SampleKey)
    ensures Group(records + [r], key) == Group(records, key) + (if r.key == key then [r.iteration] else [])
  {
    assert (records + [r])[..|records|] == records;
  }

  /** The samples in the order in which a dictionary first meets them. */
  function Keys(records: seq<Affected>): (ks: seq<SampleKey>) {
    KeysOf(records, KeyOf())
  }

  // ----- one sample

  /** An event: its first iteration and its length. */
  datatype Event = Event(start: int, length: nat)

  /** The scan over the sorted iterations: the open event and the closed ones before it. */
  function Scan(s: seq<int>): (es: seq<Event>)
    ensures s == [] <==> es == []
  {
    if s == [] then []
    else
      var m := |s| - 1;
      var es := Scan(s[..m]);
      if m == 0 then [Event(s[0], 1)]
      else if s[m] == s[m - 1] + 1 then es[|es| - 1 := Event(es[|es| - 1].start, es[|es| - 1].length + 1)]
      else es + [Event(s[m], 1)]
  }

  function LengthsOf(es: seq<Event>): (ls: seq<nat>)
    ensures |ls| == |es| && forall i | 0 <= i < |ls| :: ls[i] == es[i].length
  {
    seq(|es|, i requires 0 <= i < |es| => es[i].length)
  }

  function Sum(ls: seq<nat>): nat {
    if ls == [] then 0 else Sum(ls[..|ls| - 1]) + ls[|ls| - 1]
  }

  lemma {:induction false} SumAppend(a: seq<nat>, b: seq<nat>)
    ensures Sum(a + b) == Sum(a) + Sum(b)
  {
    if b == [] {
      assert a + b == a;
    } else {
      assert (a + b)[..|a + b| - 1] == a + b[..|b| - 1];
      SumAppend(a, b[..|b| - 1]);
    }
  }

  /** Every record is counted in exactly one event. */
  lemma {:induction false} ScanTotal(s: seq<int>)
    ensures Sum(LengthsOf(Scan(s))) == |s|
  {
    if |s| > 0 {
      var m := |s| - 1;
      ScanTotal(s[..m]);
      var ls, ls' := LengthsOf(Scan(s[..m])), LengthsOf(Scan(s));
      if m > 0 && s[m] == s[m - 1] + 1 {
        assert ls'[..|ls'| - 1] == ls[..|ls| - 1];
      } else {
        assert ls'[..|ls'| - 1] == ls;
      }
    }
  }

  ghost predicate Increasing(s: seq<int>) {
    forall i, j | 0 <= i < j < |s| :: s[i] < s[j]
  }

  /** The event is a maximal run of consecutive iterations of s. */
  ghost predicate MaximalRun(s: seq<int>, e: Event) {
    && e.length >= 1
    && (forall x | e.start <= x < e.start + e.length :: x in s)
    && e.start - 1 !in s && e.start + e.length !in s
  }

  /** The events follow one another with gaps, and the last one ends at the last iteration. */
  lemma {:induction false} ScanOrdered(s: seq<int>)
    requires Increasing(s)
    ensures forall i, j | 0 <= i < j < |Scan(s)| :: Apart(Scan(s)[i], Scan(s)[j])
    ensures s != [] ==> Ends(Scan(s)[|Scan(s)| - 1], s[|s| - 1])
  {
    if |s| > 0 {
      ScanOrdered(s[..|s| - 1]);
    }
  }

  ghost predicate Ends(e: Event, x: int) {
    e.length >= 1 && e.start + e.length - 1 == x
  }

  /** For distinct iterations every event is a maximal run. */
  lemma {:induction false} ScanRuns(s: seq<int>, i: nat)
    requires Increasing(s) && i < |Scan(s)|
    ensures MaximalRun(s, Scan(s)[i])
  {
    var m := |s| - 1;
    var t, x, es := s[..m], s[m], Scan(s[..m]);
    assert s == t + [x];
    ScanOrdered(t);
    if i < |es| - 1 {
      ScanRuns(t, i);
      assert Apart(es[i], es[|es| - 1]) && Ends(es[|es| - 1], t[m - 1]);
      assert Scan(s)[i] == es[i];
      KeepRun(t, x, es[i]);
    } else if i < |es| {
      ScanRuns(t, i);
      assert Ends(es[i], t[m - 1]);
      RunExtended(t, x, es[i]);
    } else {
      assert Scan(s)[i] == Event(x, 1);
      assert m > 0 ==> t[m - 1] < x - 1;
      SingleRun(t, x);
    }
  }

  lemma KeepRun(t: seq<int>, x: int, e: Event)
    requires MaximalRun(t, e) && (forall y | y in t :: y < x) && e.start + e.length < x
    ensures MaximalRun(t + [x], e)
  {
    RunExtended(t, x, e);
  }

  lemma SingleRun(t: seq<int>, x: int)
    requires forall y | y in t :: y < x - 1
    ensures MaximalRun(t + [x], Event(x, 1))
  {
    assert forall y :: y in t + [x] <==> y in t || y == x;
  }

  ghost predicate Apart(e: Event, f: Event) {
    e.start + e.length < f.start
  }

  /** Appending a larger member keeps a run maximal, or makes it longer by one. */
  lemma RunExtended(t: seq<int>, x: int, e: Event)
    requires MaximalRun(t, e) && forall y | y in t :: y < x
    ensures x != e.start + e.length ==> MaximalRun(t + [x], e)
    ensures x == e.start + e.length ==> MaximalRun(t + [x], Event(e.start, e.length + 1))
  {
    assert e.start in t;
    assert forall y :: y in t + [x] <==> y in t || y == x;
  }

  /** Every maximal run is one of the events. */
  lemma {:induction false} RunsScanned(s: seq<int>, e: Event)
    requires Increasing(s) && MaximalRun(s, e)
    ensures e in Scan(s)
  {
    assert e.start in s;
    var i := ScanCovers(s, e.start);
    var f := Scan(s)[i];
    ScanRuns(s, i);
    assert e.start - 1 !in s && f.start - 1 !in s;
    assert e.start + e.length !in s && f.start + f.length !in s;
  }

  lemma {:induction false} ScanCovers(s: seq<int>, x: int) returns (i: nat)
    requires Increasing(s) && x in s
    ensures i < |Scan(s)| && Scan(s)[i].start <= x < Scan(s)[i].start + Scan(s)[i].length
  {
    var m := |s| - 1;
    ScanOrdered(s);
    if x == s[m] {
      i := |Scan(s)| - 1;
    } else {
      i := ScanCovers(s[..m], x);
    }
  }

  /** The iterations s of a sample whose predecessor is not among them. */
  function Starts(s: seq<int>, key: SampleKey): set<Affected> {
    set x | x in s && Opens(s, x) :: Affected(key, x)
  }

  predicate Opens(s: seq<int>, x: int) { x - 1 !in s }

  /** There are as many events as iterations without an affected predecessor. */
  lemma {:induction false} ScanCount(s: seq<int>, key: SampleKey)
    requires Increasing(s)
    ensures |Scan(s)| == |Starts(s, key)|
  {
    if |s| == 0 {
      assert Starts(s, key) == {};
    } else {
      var m := |s| - 1;
      var t, x := s[..m], s[m];
      assert s == t + [x];
      assert forall y | y in t :: y < x;
      ScanCount(t, key);
      StartsAppend(t, x, key);
      ScanGrows(s);
    }
  }

  /** An iteration opens an event exactly if its predecessor is not there. */
  lemma ScanGrows(s: seq<int>)
    requires Increasing(s) && s != []
    ensures var t, x := s[..|s| - 1], s[|s| - 1];
            |Scan(s)| == |Scan(t)| + (if x - 1 in t then 0 else 1)
  {
    var m := |s| - 1;
    if i :| 0 <= i < m && s[..m][i] == s[m] - 1 {
      assert s[i] <= s[m - 1] < s[m];
    } else {
      assert m > 0 ==> s[..m][m - 1] != s[m] - 1;
    }
  }

  lemma StartsAppend(t: seq<int>, x: int, key: SampleKey)
    requires forall y | y in t :: y < x
    ensures Starts(t + [x], key) == if x - 1 in t then Starts(t, key) else Starts(t, key) + {Affected(key, x)}
    ensures Affected(key, x) !in Starts(t, key)
  {
    assert forall y | y in t :: Opens(t + [x], y) == Opens(t, y);
    assert Opens(t + [x], x) == (x - 1 !in t);
  }

  // ----- all samples

  function RunLengths(records: seq<Affected>, key: SampleKey): seq<nat> {
    LengthsOf(Scan(Sorted(Group(records, key))))
  }

  function ForKeys(records: seq<Affected>, ks: seq<SampleKey>): seq<nat> {
    if ks == [] then [] else ForKeys(records, ks[..|ks| - 1]) + RunLengths(records, ks[|ks| - 1])
  }

  lemma ForKeysNext(records: seq<Affected>, ks: seq<SampleKey>, i: nat)
    requires i < |ks|
    ensures ForKeys(records, ks[..i + 1]) == ForKeys(records, ks[..i]) + RunLengths(records, ks[i])
  {
    assert ks[..i + 1][..i] == ks[..i];
  }

  method EventLengths(records: seq<Affected>) returns (lengths: seq<nat>)
    ensures lengths == ForKeys(records, Keys(records))
  {
    var order, bySample := GroupBySample(records);
    lengths := ScanAll(records, order, bySample);
  }

  method ScanAll(ghost records: seq<Affected>, order: seq<SampleKey>, bySample: map<SampleKey, seq<int>>)
    returns (lengths: seq<nat>)
    requires forall k | k in order :: k in bySample && bySample[k] == Group(records, k)
    ensures lengths == ForKeys(records, order)
  {
    lengths := [];
    for i := 0 to |order|
      invariant lengths == ForKeys(records, order[..i])
    {
      assert order[i] in order;
      var runs := ScanSample(bySample[order[i]]);
      ForKeysNext(records, order, i);
      lengths := lengths + runs;
    }
    assert order[..|order|] == order;
  }

  /** The dictionary of iteration lists, with its keys in insertion order. */
  method GroupBySample(records: seq<Affected>) returns (order: seq<SampleKey>, bySample: map<SampleKey, seq<int>>)
    ensures order == Keys(records)
    ensures forall k | k in order :: k in bySample && bySample[k] == Group(records, k)
  {
    order, bySample := [], map[];
    for n := 0 to |records|
      invariant order == Keys(records[..n])
      invariant forall k :: k in bySample <==> k in order
      invariant forall k :: Listed(records[..n], bySample, k)
    {
      var r := records[n];
      ghost var before := bySample;
      assert records[..n + 1] == records[..n] + [r] && records[..n + 1][..n] == records[..n];
      if r.key !in bySample {
        order := order + [r.key];
        bySample := bySample[r.key := []];
      }
      bySample := bySample[r.key := bySample[r.key] + [r.iteration]];
      ghost var next := records[..n + 1];
      forall k
        ensures Listed(next, bySample, k)
      {
        assert Listed(records[..n], before, k);
        GroupAppend(records[..n], r, k);
      }
    }
    assert records[..|records|] == records;
    forall k | k in order
      ensures bySample[k] == Group(records, k)
    {
      assert Listed(records, bySample, k);
    }
  }

  ghost predicate Listed(records: seq<Affected>, bySample: map<SampleKey, seq<int>>, k: SampleKey) {
    Group(records, k) == if k in bySample then bySample[k] else []
  }

  /** What one more iteration does to the lengths. */
  lemma ScanNext(s: seq<int>, n: nat, lengths: seq<nat>, current: nat)
    requires n < |s| && LengthsOf(Scan(s[..n])) == lengths + (if n > 0 then [current] else [])
    ensures LengthsOf(Scan(s[..n + 1]))
         == if n == 0 then lengths + [1] else if s[n] == s[n - 1] + 1 then lengths + [current + 1] else lengths + [current, 1]
  {
    assert s[..n + 1][..n] == s[..n];
  }

  /** The inner loop, with its current length and previous iteration. */
  method ScanSample(iterations: seq<int>) returns (lengths: seq<nat>)
    ensures lengths == LengthsOf(Scan(Sorted(iterations)))
  {
    hide Sort, Scan, LengthsOf;
    var sorted := Sorted(iterations);
    lengths := [];
    var current := 0;
    var previous := None;
    for n := 0 to |sorted|
      invariant previous == if n == 0 then None else Some(sorted[n - 1])
      invariant current > 0 <==> n > 0
      invariant n == 0 ==> lengths == []
      invariant LengthsOf(Scan(sorted[..n])) == lengths + (if current > 0 then [current] else [])
    {
      var iteration := sorted[n];
      ScanNext(sorted, n, lengths, current);
      if previous == None || iteration == previous.value + 1 {
        current := current + 1;
      } else {
        lengths := lengths + [current];
        current := 1;
      }
      previous := Some(iteration);
    }
    assert sorted[..|sorted|] == sorted;
    if current > 0 {
      lengths := lengths + [current];
    }
  }

  // ----- properties of the whole result

  /** The number of records of the samples ks. */
  function CountIn(records: seq<Affected>, ks: seq<SampleKey>): nat {
    if records == [] then 0
    else CountIn(records[..|records| - 1], ks) + (if records[|records| - 1].key in ks then 1 else 0)
  }

  lemma {:induction false} CountAdd(records: seq<Affected>, ks: seq<SampleKey>, k: SampleKey)
    requires k !in ks
    ensures CountIn(records, ks + [k]) == CountIn(records, ks) + |Group(records, k)|
  {
    if records != [] {
      CountAdd(records[..|records| - 1], ks, k);
    }
  }

  lemma {:induction false} CountAll(records: seq<Affected>, ks: seq<SampleKey>)
    requires forall i | 0 <= i < |records| :: records[i].key in ks
    ensures CountIn(records, ks) == |records|
  {
    if records != [] {
      CountAll(records[..|records| - 1], ks);
    }
  }

  lemma {:induction false} CountNone(records: seq<Affected>)
    ensures CountIn(records, []) == 0
  {
    if records != [] {
      CountNone(records[..|records| - 1]);
    }
  }

  lemma {:induction false} SumForKeys(records: seq<Affected>, ks: seq<SampleKey>)
    requires Distinct(ks)
    ensures Sum(ForKeys(records, ks)) == CountIn(records, ks)
  {
    if ks == [] {
      CountNone(records);
    } else {
      var m := |ks| - 1;
      SumForKeys(records, ks[..m]);
      CountAdd(records, ks[..m], ks[m]);
      assert ks == ks[..m] + [ks[m]];
      SumAppend(ForKeys(records, ks[..m]), RunLengths(records, ks[m]));
      ScanTotal(Sorted(Group(records, ks[m])));
      IntOrder();
      SortCorrect(Group(records, ks[m]), IntLeq());
    }
  }

  /** The event lengths add up to the number of affected records. */
  lemma EventsTotal(records: seq<Affected>)
    ensures Sum(ForKeys(records, Keys(records))) == |records|
  {
    KeysExact(records, KeyOf());
    forall i | 0 <= i < |records|
      ensures records[i].key in Keys(records)
    {
      assert KeyOf()(records[i]) == records[i].key;
      assert HasKey(records, KeyOf(), records[i].key);
    }
    SumForKeys(records, Keys(records));
    CountAll(records, Keys(records));
  }

  /** The records of samples ks whose iteration has no affected predecessor in its sample. */
  function StartsIn(records: seq<Affected>, ks: seq<SampleKey>): set<Affected> {
    set a | a in records && a.key in ks && Affected(a.key, a.iteration - 1) !in records
  }

  lemma {:induction false} GroupMembers(records: seq<Affected>, key: SampleKey)
    ensures forall x :: x in Group(records, key) <==> Affected(key, x) in records
    ensures forall x :: multiset(Group(records, key))[x] == multiset(records)[Affected(key, x)]
  {
    if records != [] {
      var m := |records| - 1;
      GroupMembers(records[..m], key);
      assert records == records[..m] + [records[m]];
      GroupAppend(records[..m], records[m], key);
    }
  }

  /** Sorting a sample of distinct records gives strictly increasing iterations. */
  lemma SortedIncreasing(records: seq<Affected>, key: SampleKey)
    requires Distinct(records)
    ensures Increasing(Sorted(Group(records, key)))
    ensures forall x :: x in Sorted(Group(records, key)) <==> Affected(key, x) in records
  {
    var s := Sorted(Group(records, key));
    GroupMembers(records, key);
    IntOrder();
    SortCorrect(Group(records, key), IntLeq());
    forall x
      ensures x in s <==> Affected(key, x) in records
    {
      assert x in s <==> x in multiset(s);
    }
    forall i, j | 0 <= i < j < |s|
      ensures s[i] < s[j]
    {
      assert IntLeq()(s[i], s[j]);
      if s[i] == s[j] {
        TwiceCounted(s, i, j);
        DistinctOnce(records, Affected(key, s[i]));
      }
    }
  }

  lemma TwiceCounted(s: seq<int>, i: nat, j: nat)
    requires i < j < |s| && s[i] == s[j]
    ensures multiset(s)[s[i]] >= 2
  {
    assert s == s[..j] + [s[j]] + s[j + 1..];
    assert s[i] in s[..j];
  }

  lemma {:induction false} DistinctOnce(records: seq<Affected>, a: Affected)
    requires Distinct(records)
    ensures multiset(records)[a] <= 1
  {
    if records != [] {
      assert records == [records[0]] + records[1..];
      DistinctOnce(records[1..], a);
      assert records[0] !in records[1..];
    }
  }

  /** The part of StartsIn that belongs to one sample. */
  function StartsOf(records: seq<Affected>, key: SampleKey): set<Affected> {
    Starts(Sorted(Group(records, key)), key)
  }

  lemma StartsSplit(records: seq<Affected>, ks: seq<SampleKey>, key: SampleKey)
    requires Distinct(records) && key !in ks
    ensures StartsIn(records, ks + [key]) == StartsIn(records, ks) + StartsOf(records, key)
    ensures StartsIn(records, ks) !! StartsOf(records, key)
  {
    var s := Sorted(Group(records, key));
    SortedIncreasing(records, key);
    forall a: Affected
      ensures a in StartsIn(records, ks + [key]) <==> a in StartsIn(records, ks) || a in StartsOf(records, key)
    {
      assert a.key == key ==> (a in StartsOf(records, key) <==> a.iteration in s && Opens(s, a.iteration));
    }
  }

  lemma {:induction false} CountForKeys(records: seq<Affected>, ks: seq<SampleKey>)
    requires Distinct(records) && Distinct(ks)
    ensures |ForKeys(records, ks)| == |StartsIn(records, ks)|
  {
    if ks == [] {
      assert StartsIn(records, ks) == {};
    } else {
      var m := |ks| - 1;
      CountForKeys(records, ks[..m]);
      SortedIncreasing(records, ks[m]);
      ScanCount(Sorted(Group(records, ks[m])), ks[m]);
      assert ks == ks[..m] + [ks[m]];
      StartsSplit(records, ks[..m], ks[m]);
    }
  }

  /** For distinct records there are as many events as records whose predecessor iteration was
      not affected in that sample. */
  lemma EventsCount(records: seq<Affected>)
    requires Distinct(records)
    ensures |ForKeys(records, Keys(records))|
         == |set a | a in records && Affected(a.key, a.iteration - 1) !in records|
  {
    KeysExact(records, KeyOf());
    forall a | a in records
      ensures a.key in Keys(records)
    {
      var i :| 0 <= i < |records| && records[i] == a;
      assert KeyOf()(records[i]) == a.key;
      assert HasKey(records, KeyOf(), a.key);
    }
    CountForKeys(records, Keys(records));
    assert StartsIn(records, Keys(records))
        == set a | a in records && Affected(a.key, a.iteration - 1) !in records;
  }

  lemma SameRunLengths(records: seq<Affected>, records': seq<Affected>, key: SampleKey)
    requires multiset(records) == multiset(records')
    ensures RunLengths(records, key) == RunLengths(records', key)
  {
    var g, g' := Group(records, key), Group(records', key);
    GroupMembers(records, key);
    GroupMembers(records', key);
    forall x
      ensures multiset(g)[x] == multiset(g')[x]
    {
      assert multiset(g)[x] == multiset(records)[Affected(key, x)];
    }
    IntOrder();
    SortCorrect(g, IntLeq());
    SortCorrect(g', IntLeq());
    SortedUnique(Sorted(g), Sorted(g'), IntLeq());
  }

  lemma ForKeysLast(records: seq<Affected>, ks: seq<SampleKey>)
    requires ks != []
    ensures ForKeys(records, ks) == ForKeys(records, ks[..|ks| - 1]) + RunLengths(records, ks[|ks| - 1])
  {
  }

  lemma {:induction false} ForKeysAppend(records: seq<Affected>, ks: seq<SampleKey>, ks': seq<SampleKey>)
    ensures ForKeys(records, ks + ks') == ForKeys(records, ks) + ForKeys(records, ks')
  {
    if ks' == [] {
      assert ks + ks' == ks;
    } else {
      var m, t := |ks'| - 1, ks + ks';
      assert t[..|t| - 1] == ks + ks'[..m] && t[|t| - 1] == ks'[m];
      ForKeysAppend(records, ks, ks'[..m]);
      ForKeysLast(records, t);
      ForKeysLast(records, ks');
      Associative(ForKeys(records, ks), ForKeys(records, ks'[..m]), RunLengths(records, ks'[m]));
    }
  }

  function Without(ks: seq<SampleKey>, i: nat): (rest: seq<SampleKey>)
    requires i < |ks|
    ensures |rest| == |ks| - 1
  {
    ks[..i] + ks[i + 1..]
  }

  lemma ForKeysRemove(records: seq<Affected>, ks: seq<SampleKey>, i: nat)
    requires i < |ks|
    ensures multiset(ForKeys(records, ks))
         == multiset(ForKeys(records, Without(ks, i))) + multiset(RunLengths(records, ks[i]))
    ensures multiset(Without(ks, i)) == multiset(ks) - multiset{ks[i]}
  {
    var front, back := ks[..i], ks[i + 1..];
    assert ks == front + ([ks[i]] + back);
    ForKeysAppend(records, front, [ks[i]] + back);
    ForKeysAppend(records, [ks[i]], back);
    ForKeysAppend(records, front, back);
    assert [ks[i]][..0] == [];
    assert ForKeys(records, [ks[i]]) == RunLengths(records, ks[i]);
  }

  lemma {:induction false} ForKeysPermuted(records: seq<Affected>, records': seq<Affected>,
                                           ks: seq<SampleKey>, ks': seq<SampleKey>)
    requires multiset(records) == multiset(records') && multiset(ks) == multiset(ks')
    ensures multiset(ForKeys(records, ks)) == multiset(ForKeys(records', ks'))
  {
    assert |ks| == |multiset(ks)| == |multiset(ks')| == |ks'|;
    if ks != [] {
      hide ForKeys, RunLengths, Without;
      assert ks[0] in multiset(ks');
      var i :| 0 <= i < |ks'| && ks'[i] == ks[0];
      ForKeysRemove(records, ks, 0);
      ForKeysRemove(records', ks', i);
      ForKeysPermuted(records, records', Without(ks, 0), Without(ks', i));
      SameRunLengths(records, records', ks[0]);
    }
  }

  /** The order of the records does not matter: the lengths are the same as a multiset. */
  lemma OrderIndependent(records: seq<Affected>, records': seq<Affected>)
    requires multiset(records) == multiset(records')
    ensures multiset(ForKeys(records, Keys(records))) == multiset(ForKeys(records', Keys(records')))
  {
    SameKeys(records, records', KeyOf());
    ForKeysPermuted(records, records', Keys(records), Keys(records'));
  }
}
