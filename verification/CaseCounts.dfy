/** The counting part of a case analysis: which records are stalls, how the stalls spread over
    the samples, and the longest stretch of samples without any. */
module CaseCounts {
  import opened Grouping
  import opened Counting

  type SampleKey = (int, int)

  datatype Record = Record(key: SampleKey, durationUs: real, maxRank: int)

  datatype SampleInfo = SampleInfo(key: SampleKey, iterations: nat)

  // ----- the longest stretch of 'F'

  ghost predicate Free(s: string, lo: int, hi: int) {
    0 <= lo <= hi <= |s| && forall i | lo <= i < hi :: s[i] == 'F'
  }

  /** Some stretch has that length and none is longer. */
  ghost predicate LongestFree(s: string, n: nat) {
    (exists lo, hi :: Free(s, lo, hi) && hi - lo == n) && forall lo, hi | Free(s, lo, hi) :: hi - lo <= n
  }

  /** The stretch that ends at the end of s cannot be extended to the left. */
  ghost predicate FreeTail(s: string, n: nat) {
    n <= |s| && Free(s, |s| - n, |s|) && (n < |s| ==> s[|s| - n - 1] != 'F')
  }

  method LongestStallFreeSequence(sequence: string) returns (longest: nat)
    ensures LongestFree(sequence, longest)
  {
    longest := 0;
    var current: nat := 0;
    assert Free(sequence[..0], 0, 0);
    for i := 0 to |sequence|
      invariant FreeTail(sequence[..i], current) && LongestFree(sequence[..i], longest) && current <= longest
    {
      TailStep(sequence[..i], sequence[i], current, longest);
      assert sequence[..i + 1] == sequence[..i] + [sequence[i]];
      if sequence[i] == 'F' {
        current := current + 1;
        longest := if current > longest then current else longest;
      } else {
        current := 0;
      }
    }
    assert sequence[..|sequence|] == sequence;
  }

  lemma TailStep(s: string, c: char, current: nat, longest: nat)
    requires FreeTail(s, current) && LongestFree(s, longest) && current <= longest
    ensures var n := if c == 'F' then current + 1 else 0;
            FreeTail(s + [c], n) && LongestFree(s + [c], if n > longest then n else longest)
  {
    var t, n := s + [c], if c == 'F' then current + 1 else 0;
    var lo, hi :| Free(s, lo, hi) && hi - lo == longest;
    assert Free(t, lo, hi);
    assert Free(t, |t| - n, |t|);
    assert n < |t| ==> t[|t| - n - 1] != 'F';
    forall lo, hi | Free(t, lo, hi)
      ensures hi - lo <= if n > longest then n else longest
    {
      if hi <= |s| {
        assert forall i | lo <= i < hi :: t[i] == s[i];
        assert Free(s, lo, hi);
      }
    }
  }

  // ----- stalls per sample

  function KeyOf(): Record -> SampleKey { (r: Record) => r.key }

  function Stalled(records: seq<Record>, thresholdUs: real): seq<Record> {
    if records == [] then []
    else
      var m := |records| - 1;
      Stalled(records[..m], thresholdUs) + (if records[m].durationUs >= thresholdUs then [records[m]] else [])
  }

  datatype Spread = None | Isolated | Multiple | NearlyAll

  /** The smallest integer that is at least nine tenths of n. */
  function NineTenths(n: nat): (m: nat)
    ensures 10 * m >= 9 * n && (m > 0 ==> 10 * (m - 1) < 9 * n)
  {
    (9 * n + 9) / 10
  }

  function ClassifySample(stalls: nat, iterations: nat): Spread {
    if stalls == 0 then None
    else if stalls == 1 then Isolated
    else if iterations > 0 && stalls >= NineTenths(iterations) then NearlyAll
    else Multiple
  }

  function Stalls(stalled: seq<Record>, key: SampleKey): nat { |Members(stalled, KeyOf(), key)| }

  function SpreadOf(stalled: seq<Record>, s: SampleInfo): Spread {
    ClassifySample(Stalls(stalled, s.key), s.iterations)
  }

  /** How many samples have that spread. */
  function CountSpread(stalled: seq<Record>, samples: seq<SampleInfo>, kind: Spread): nat {
    if samples == [] then 0
    else
      var m := |samples| - 1;
      CountSpread(stalled, samples[..m], kind) + (if SpreadOf(stalled, samples[m]) == kind then 1 else 0)
  }

  /** 'S' for a sample with stalls and 'F' for one without. */
  function Markers(stalled: seq<Record>, samples: seq<SampleInfo>): (s: string)
    ensures |s| == |samples|
    ensures forall i | 0 <= i < |s| :: s[i] == 'F' <==> Stalls(stalled, samples[i].key) == 0
  {
    if samples == [] then ""
    else
      var m := |samples| - 1;
      Markers(stalled, samples[..m]) + [if Stalls(stalled, samples[m].key) > 0 then 'S' else 'F']
  }

  datatype Counts = Counts(stallCount: nat, stalledSamples: nat, isolated: nat, multiple: nat, nearlyAll: nat,
                           maxStalls: nat, longestFree: nat, ranks: multiset<int>)

  /** The largest number of stalls any sample has, also of samples the result file lacks. */
  ghost predicate MostStalls(stalled: seq<Record>, n: nat) {
    (forall k :: Stalls(stalled, k) <= n) && exists k :: Stalls(stalled, k) == n
  }

  ghost predicate CountsOf(stalled: seq<Record>, samples: seq<SampleInfo>, c: Counts) {
    && c.stallCount == |stalled| == |c.ranks|
    && c.isolated == CountSpread(stalled, samples, Isolated)
    && c.multiple == CountSpread(stalled, samples, Multiple)
    && c.nearlyAll == CountSpread(stalled, samples, NearlyAll)
    && c.stalledSamples == |samples| - CountSpread(stalled, samples, None)
    && LongestFree(Markers(stalled, samples), c.longestFree)
    && c.ranks == multiset(Ranks(stalled))
  }

  function Ranks(rows: seq<Record>): (ranks: seq<int>)
    ensures |ranks| == |rows|
  {
    seq(|rows|, i requires 0 <= i < |rows| => rows[i].maxRank)
  }

  method CollectStalls(records: seq<Record>, thresholdUs: real) returns (stalled: seq<Record>, ranks: multiset<int>)
    ensures stalled == Stalled(records, thresholdUs) && ranks == multiset(Ranks(stalled))
  {
    stalled, ranks := [], multiset{};
    for i := 0 to |records|
      invariant stalled == Stalled(records[..i], thresholdUs) && ranks == multiset(Ranks(stalled))
    {
      assert records[..i + 1][..i] == records[..i];
      if records[i].durationUs >= thresholdUs {
        assert Ranks(stalled + [records[i]]) == Ranks(stalled) + [records[i].maxRank];
        stalled := stalled + [records[i]];
        ranks := ranks + multiset{records[i].maxRank};
      }
    }
    assert records[..|records|] == records;
  }

  /** The stalls of one sample, from the dictionary. */
  function InGroups(groups: map<SampleKey, seq<Record>>, key: SampleKey): nat {
    if key in groups then |groups[key]| else 0
  }

  method AnalyzeCase(samples: seq<SampleInfo>, records: seq<Record>, thresholdUs: real) returns (c: Counts)
    ensures CountsOf(Stalled(records, thresholdUs), samples, c)
    ensures MostStalls(Stalled(records, thresholdUs), c.maxStalls)
  {
    var stalled, ranks := CollectStalls(records, thresholdUs);
    var groups := GroupBy(stalled, KeyOf());
    forall k
      ensures InGroups(groups, k) == Stalls(stalled, k)
    {
      assert Filed(stalled, KeyOf(), groups, k);
    }
    var maxStalls := LargestGroup(stalled, groups);
    var spread := CountSamples(stalled, groups, samples);
    var longestFree := LongestStallFreeSequence(spread.sequence);
    SpreadsTotal(stalled, samples);
    c := Counts(|stalled|, spread.stalled, spread.isolated, spread.multiple, spread.nearlyAll, maxStalls, longestFree, ranks);
  }

  /** The running counts of the loop over the samples. */
  datatype SampleCounts = SampleCounts(sequence: string, stalled: nat, isolated: nat, multiple: nat, nearlyAll: nat)

  ghost predicate Counted(stalled: seq<Record>, samples: seq<SampleInfo>, c: SampleCounts) {
    && c.sequence == Markers(stalled, samples)
    && c.stalled + CountSpread(stalled, samples, None) == |samples|
    && c.isolated == CountSpread(stalled, samples, Isolated)
    && c.multiple == CountSpread(stalled, samples, Multiple)
    && c.nearlyAll == CountSpread(stalled, samples, NearlyAll)
  }

  function CountOne(c: SampleCounts, stalls: nat, iterations: nat): SampleCounts {
    var sequence := c.sequence + [if stalls > 0 then 'S' else 'F'];
    var stalled := c.stalled + (if stalls > 0 then 1 else 0);
    match ClassifySample(stalls, iterations)
    case None => c.(sequence := sequence, stalled := stalled)
    case Isolated => c.(sequence := sequence, stalled := stalled, isolated := c.isolated + 1)
    case Multiple => c.(sequence := sequence, stalled := stalled, multiple := c.multiple + 1)
    case NearlyAll => c.(sequence := sequence, stalled := stalled, nearlyAll := c.nearlyAll + 1)
  }

  lemma CountedNext(stalled: seq<Record>, samples: seq<SampleInfo>, i: nat, c: SampleCounts)
    requires i < |samples| && Counted(stalled, samples[..i], c)
    ensures Counted(stalled, samples[..i + 1], CountOne(c, Stalls(stalled, samples[i].key), samples[i].iterations))
  {
    hide Stalls;
    assert samples[..i + 1][..i] == samples[..i];
  }

  method CountSamples(ghost stalled: seq<Record>, groups: map<SampleKey, seq<Record>>, samples: seq<SampleInfo>)
    returns (c: SampleCounts)
    requires forall k :: InGroups(groups, k) == Stalls(stalled, k)
    ensures Counted(stalled, samples, c)
  {
    hide CountOne;
    c := SampleCounts("", 0, 0, 0, 0);
    for i := 0 to |samples|
      invariant Counted(stalled, samples[..i], c)
    {
      CountedNext(stalled, samples, i, c);
      c := CountOne(c, InGroups(groups, samples[i].key), samples[i].iterations);
    }
    assert samples[..|samples|] == samples;
  }

  method LargestGroup(ghost stalled: seq<Record>, groups: map<SampleKey, seq<Record>>) returns (largest: nat)
    requires forall k :: InGroups(groups, k) == Stalls(stalled, k)
    ensures MostStalls(stalled, largest)
  {
    largest := 0;
    var keys := groups.Keys;
    ghost var some := SpareKey(groups.Keys);
    assert Stalls(stalled, some) == InGroups(groups, some) == 0;
    while keys != {}
      invariant keys <= groups.Keys
      invariant forall k | k !in keys :: InGroups(groups, k) <= largest
      invariant Stalls(stalled, some) == largest
      decreases |keys|
    {
      var k :| k in keys;
      if |groups[k]| > largest {
        largest := |groups[k]|;
        some := k;
      }
      keys := keys - {k};
    }
    forall k
      ensures Stalls(stalled, k) <= largest
    {
      assert InGroups(groups, k) <= largest;
    }
  }

  /** No dictionary has every sample as a key. */
  lemma {:induction false} SpareKey(keys: set<SampleKey>) returns (k: SampleKey)
    ensures k !in keys
    ensures forall x | x in keys :: x.0 < k.0
    decreases keys
  {
    if keys == {} {
      k := (0, 0);
    } else {
      var x :| x in keys;
      var rest := SpareKey(keys - {x});
      k := if rest.0 > x.0 then rest else (x.0 + 1, 0);
      forall y | y in keys
        ensures y.0 < k.0
      {
        assert y == x || y in keys - {x};
      }
    }
  }

  // ----- the theorems

  /** Every sample is free of stalls or counted under exactly one spread. */
  lemma {:induction false} SpreadsTotal(stalled: seq<Record>, samples: seq<SampleInfo>)
    ensures CountSpread(stalled, samples, None) + CountSpread(stalled, samples, Isolated)
            + CountSpread(stalled, samples, Multiple) + CountSpread(stalled, samples, NearlyAll) == |samples|
  {
    if samples != [] {
      SpreadsTotal(stalled, samples[..|samples| - 1]);
    }
  }

  function SumStalls(stalled: seq<Record>, samples: seq<SampleInfo>): nat {
    if samples == [] then 0
    else SumStalls(stalled, samples[..|samples| - 1]) + Stalls(stalled, samples[|samples| - 1].key)
  }

  ghost predicate KeyedBy(samples: seq<SampleInfo>, key: SampleKey) {
    exists i :: 0 <= i < |samples| && samples[i].key == key
  }

  ghost predicate DistinctSamples(samples: seq<SampleInfo>) {
    forall i, j | 0 <= i < j < |samples| :: samples[i].key != samples[j].key
  }

  /** The stalls of samples that the result file does not describe. */
  ghost function Unmatched(stalled: seq<Record>, samples: seq<SampleInfo>): nat {
    if stalled == [] then 0
    else
      var m := |stalled| - 1;
      Unmatched(stalled[..m], samples) + (if KeyedBy(samples, stalled[m].key) then 0 else 1)
  }

  /** No stall is lost or counted twice: those of the described samples and the others add up. */
  lemma {:induction false} StallsConserved(stalled: seq<Record>, samples: seq<SampleInfo>)
    requires DistinctSamples(samples)
    ensures SumStalls(stalled, samples) + Unmatched(stalled, samples) == |stalled|
  {
    if stalled == [] {
      NoStalls(samples);
    } else {
      var m := |stalled| - 1;
      StallsConserved(stalled[..m], samples);
      OneMoreStall(stalled, samples);
    }
  }

  lemma {:induction false} NoStalls(samples: seq<SampleInfo>)
    ensures SumStalls([], samples) == 0
  {
    if samples != [] {
      NoStalls(samples[..|samples| - 1]);
    }
  }

  lemma {:induction false} OneMoreStall(stalled: seq<Record>, samples: seq<SampleInfo>)
    requires stalled != [] && DistinctSamples(samples)
    ensures var m := |stalled| - 1;
            SumStalls(stalled, samples)
            == SumStalls(stalled[..m], samples) + (if KeyedBy(samples, stalled[m].key) then 1 else 0)
  {
    if samples != [] {
      var n := |samples| - 1;
      var key := stalled[|stalled| - 1].key;
      OneMoreStall(stalled, samples[..n]);
      if i :| 0 <= i < n && samples[..n][i].key == key {
        assert samples[i].key == key;
      }
      if i :| 0 <= i < |samples| && samples[i].key == key {
        assert i == n || samples[..n][i].key == key;
      }
    }
  }

  // ----- the counts in terms of the records

  /** Record i is a stall. */
  predicate IsStall(records: seq<Record>, thresholdUs: real, i: nat) {
    i < |records| && records[i].durationUs >= thresholdUs
  }

  ghost function Stall(records: seq<Record>, thresholdUs: real): nat -> bool {
    (i: nat) => IsStall(records, thresholdUs, i)
  }

  ghost function StallOf(records: seq<Record>, thresholdUs: real, key: SampleKey): nat -> bool {
    (i: nat) => IsStall(records, thresholdUs, i) && records[i].key == key
  }

  ghost function StallOn(records: seq<Record>, thresholdUs: real, rank: int): nat -> bool {
    (i: nat) => IsStall(records, thresholdUs, i) && records[i].maxRank == rank
  }

  /** The number of records that are stalls, in all, of one sample and with one slowest rank. */
  ghost function AllStalls(records: seq<Record>, thresholdUs: real): nat {
    Number(|records|, Stall(records, thresholdUs))
  }

  ghost function StallsAmong(records: seq<Record>, thresholdUs: real, key: SampleKey): nat {
    Number(|records|, StallOf(records, thresholdUs, key))
  }

  ghost function StallsOn(records: seq<Record>, thresholdUs: real, rank: int): nat {
    Number(|records|, StallOn(records, thresholdUs, rank))
  }

  lemma StallsNext(records: seq<Record>, thresholdUs: real, key: SampleKey, rank: int)
    requires records != []
    ensures var m := |records| - 1; var before, r := records[..m], records[m];
            && StallsAmong(records, thresholdUs, key)
               == StallsAmong(before, thresholdUs, key) + (if r.durationUs >= thresholdUs && r.key == key then 1 else 0)
            && AllStalls(records, thresholdUs) == AllStalls(before, thresholdUs) + (if r.durationUs >= thresholdUs then 1 else 0)
            && StallsOn(records, thresholdUs, rank)
               == StallsOn(before, thresholdUs, rank) + (if r.durationUs >= thresholdUs && r.maxRank == rank then 1 else 0)
  {
    var m := |records| - 1;
    var before := records[..m];
    NumberNext(m, Stall(records, thresholdUs));
    NumberNext(m, StallOf(records, thresholdUs, key));
    NumberNext(m, StallOn(records, thresholdUs, rank));
    NumberSame(m, Stall(records, thresholdUs), Stall(before, thresholdUs));
    NumberSame(m, StallOf(records, thresholdUs, key), StallOf(before, thresholdUs, key));
    NumberSame(m, StallOn(records, thresholdUs, rank), StallOn(before, thresholdUs, rank));
  }

  lemma NoRecords(thresholdUs: real, key: SampleKey, rank: int)
    ensures StallsAmong([], thresholdUs, key) == AllStalls([], thresholdUs) == StallsOn([], thresholdUs, rank) == 0
  {
    assert Where(0, Stall([], thresholdUs)) == Where(0, StallOf([], thresholdUs, key)) == Where(0, StallOn([], thresholdUs, rank)) == {};
  }

  /** The collected stalls are the records that reach the threshold. */
  lemma {:induction false} StalledExact(records: seq<Record>, thresholdUs: real, key: SampleKey, rank: int)
    ensures var stalled := Stalled(records, thresholdUs);
            && |stalled| == AllStalls(records, thresholdUs)
            && Stalls(stalled, key) == StallsAmong(records, thresholdUs, key)
            && multiset(Ranks(stalled))[rank] == StallsOn(records, thresholdUs, rank)
  {
    hide StallsAmong, AllStalls, StallsOn;
    if records == [] {
      NoRecords(thresholdUs, key, rank);
    } else {
      var m := |records| - 1;
      StalledExact(records[..m], thresholdUs, key, rank);
      StallsNext(records, thresholdUs, key, rank);
      var before := Stalled(records[..m], thresholdUs);
      if records[m].durationUs >= thresholdUs {
        assert Ranks(before + [records[m]]) == Ranks(before) + [records[m].maxRank];
        assert (before + [records[m]])[..|before|] == before;
      } else {
        assert before + [] == before;
      }
    }
  }

  /** A sample has none, one, nine tenths or more of its iterations, or any other number of stalls. */
  lemma ClassifyExact(stalls: nat, iterations: nat)
    ensures ClassifySample(stalls, iterations) == None <==> stalls == 0
    ensures ClassifySample(stalls, iterations) == Isolated <==> stalls == 1
    ensures ClassifySample(stalls, iterations) == NearlyAll <==> stalls >= 2 && iterations > 0 && 10 * stalls >= 9 * iterations
    ensures ClassifySample(stalls, iterations) == Multiple <==> stalls >= 2 && (iterations == 0 || 10 * stalls < 9 * iterations)
  {
  }

  /** Sample i has that spread, by its number of stalls among the records. */
  ghost predicate HasSpread(records: seq<Record>, thresholdUs: real, samples: seq<SampleInfo>, kind: Spread, i: nat) {
    i < |samples| &&
    var n, iterations := StallsAmong(records, thresholdUs, samples[i].key), samples[i].iterations;
    match kind
    case None => n == 0
    case Isolated => n == 1
    case NearlyAll => n >= 2 && iterations > 0 && 10 * n >= 9 * iterations
    case Multiple => n >= 2 && (iterations == 0 || 10 * n < 9 * iterations)
  }

  ghost function Spreading(records: seq<Record>, thresholdUs: real, samples: seq<SampleInfo>, kind: Spread): nat -> bool {
    (i: nat) => HasSpread(records, thresholdUs, samples, kind, i)
  }

  lemma {:induction false} SpreadExact(records: seq<Record>, thresholdUs: real, samples: seq<SampleInfo>, kind: Spread)
    ensures CountSpread(Stalled(records, thresholdUs), samples, kind) == Number(|samples|, Spreading(records, thresholdUs, samples, kind))
  {
    hide Stalled, StallsAmong, Stalls, ClassifySample;
    if samples == [] {
      assert Where(0, Spreading(records, thresholdUs, samples, kind)) == {};
    } else {
      var m := |samples| - 1;
      SpreadExact(records, thresholdUs, samples[..m], kind);
      NumberNext(m, Spreading(records, thresholdUs, samples, kind));
      NumberSame(m, Spreading(records, thresholdUs, samples, kind), Spreading(records, thresholdUs, samples[..m], kind));
      StalledExact(records, thresholdUs, samples[m].key, 0);
      ClassifyExact(Stalls(Stalled(records, thresholdUs), samples[m].key), samples[m].iterations);
    }
  }

  /** No sample from lo up to hi has a stall. */
  ghost predicate StallFree(records: seq<Record>, thresholdUs: real, samples: seq<SampleInfo>, lo: int, hi: int) {
    0 <= lo <= hi <= |samples| && forall i | lo <= i < hi :: StallsAmong(records, thresholdUs, samples[i].key) == 0
  }

  /** All counts of a case in terms of its records and samples. */
  lemma CaseExact(samples: seq<SampleInfo>, records: seq<Record>, thresholdUs: real, c: Counts, rank: int)
    requires CountsOf(Stalled(records, thresholdUs), samples, c) && MostStalls(Stalled(records, thresholdUs), c.maxStalls)
    ensures c.stallCount == AllStalls(records, thresholdUs) && c.ranks[rank] == StallsOn(records, thresholdUs, rank)
    ensures c.isolated == Number(|samples|, Spreading(records, thresholdUs, samples, Isolated))
    ensures c.multiple == Number(|samples|, Spreading(records, thresholdUs, samples, Multiple))
    ensures c.nearlyAll == Number(|samples|, Spreading(records, thresholdUs, samples, NearlyAll))
    ensures c.stalledSamples == |samples| - Number(|samples|, Spreading(records, thresholdUs, samples, None))
    ensures (forall key :: StallsAmong(records, thresholdUs, key) <= c.maxStalls)
            && exists key :: StallsAmong(records, thresholdUs, key) == c.maxStalls
    ensures exists lo, hi :: StallFree(records, thresholdUs, samples, lo, hi) && hi - lo == c.longestFree
    ensures forall lo, hi | StallFree(records, thresholdUs, samples, lo, hi) :: hi - lo <= c.longestFree
  {
    hide Stalled, StallsAmong, AllStalls, StallsOn, Stalls, CountSpread, Spreading, Number;
    StalledExact(records, thresholdUs, (0, 0), rank);
    SpreadExact(records, thresholdUs, samples, Isolated);
    SpreadExact(records, thresholdUs, samples, Multiple);
    SpreadExact(records, thresholdUs, samples, NearlyAll);
    SpreadExact(records, thresholdUs, samples, None);
    var stalled := Stalled(records, thresholdUs);
    forall key
      ensures Stalls(stalled, key) == StallsAmong(records, thresholdUs, key)
    {
      StalledExact(records, thresholdUs, key, rank);
    }
    var markers := Markers(stalled, samples);
    forall lo, hi
      ensures Free(markers, lo, hi) <==> StallFree(records, thresholdUs, samples, lo, hi)
    {
    }
    var most :| Stalls(stalled, most) == c.maxStalls;
    var lo, hi :| Free(markers, lo, hi) && hi - lo == c.longestFree;
    assert StallFree(records, thresholdUs, samples, lo, hi);
  }
}
