/** The rows the benchmark gathers, read by the analyzer. A run's rows are the tables of its
    samples one after the other; the analyzer keys them by halo length, sample, iteration and
    rank. */
module StallJoin {
  import opened Control
  import opened Records
  import opened Sorting
  import opened Grouping
  import opened RankStalls
  import RankEvents
  import opened Gather

  /** Host, device and position of a rank. */
  datatype Place = Place(host: string, device: int, row: int, col: int)

  /** One sample of a run. */
  datatype Part = Part(halo: int, sample: int, data: Sample)

  ghost predicate ValidParts(parts: seq<Part>) {
    forall i | 0 <= i < |parts| :: ValidSample(parts[i].data)
  }

  function Read(p: Part, places: int -> Place, r: Row): RankRow {
    var at := places(r.rank);
    RankRow(Slot(p.halo, p.sample, r.local.iteration), r.rank, at.host, at.device, at.row, at.col,
            r.local.localSeconds * 1000000.0, r.local.globalSeconds * 1000000.0, r.local.globalRank)
  }

  function ReadAll(p: Part, places: int -> Place, rows: seq<Row>): (out: seq<RankRow>)
    ensures |out| == |rows| && forall i | 0 <= i < |rows| :: out[i] == Read(p, places, rows[i])
  {
    seq(|rows|, i requires 0 <= i < |rows| => Read(p, places, rows[i]))
  }

  /** The gathered table of one sample. */
  function PartRows(p: Part, places: int -> Place): seq<RankRow>
    requires ValidSample(p.data)
  {
    ReadAll(p, places, Table(p.data, |Emitted(p.data)|, |p.data.seconds|))
  }

  function RunRows(parts: seq<Part>, places: int -> Place): seq<RankRow>
    requires ValidParts(parts)
  {
    if parts == [] then []
    else RunRows(parts[..|parts| - 1], places) + PartRows(parts[|parts| - 1], places)
  }

  // ----- duplicates

  ghost predicate CommonKey(a: seq<RankRow>, b: seq<RankRow>) {
    exists x, y :: x in a && y in b && SameKey(x, y)
  }

  lemma DuplicateConcat(a: seq<RankRow>, b: seq<RankRow>)
    ensures HasDuplicate(a + b) <==> HasDuplicate(a) || HasDuplicate(b) || CommonKey(a, b)
  {
    var c := a + b;
    if i, j :| 0 <= i < j < |c| && SameKey(c[i], c[j]) {
      if j < |a| {
        assert SameKey(a[i], a[j]);
      } else if i >= |a| {
        assert SameKey(b[i - |a|], b[j - |a|]);
      } else {
        assert c[i] in a && c[j] in b;
      }
    }
    if i, j :| 0 <= i < j < |a| && SameKey(a[i], a[j]) {
      assert SameKey(c[i], c[j]);
    }
    if i, j :| 0 <= i < j < |b| && SameKey(b[i], b[j]) {
      assert SameKey(c[|a| + i], c[|a| + j]);
    }
    if x, y :| x in a && y in b && SameKey(x, y) {
      var i :| 0 <= i < |a| && a[i] == x;
      var j :| 0 <= j < |b| && b[j] == y;
      assert SameKey(c[i], c[|a| + j]);
    }
  }

  /** One sample's rows have different keys. */
  lemma PartDistinct(p: Part, places: int -> Place)
    requires ValidSample(p.data)
    ensures !HasDuplicate(PartRows(p, places))
  {
    var table := Table(p.data, |Emitted(p.data)|, |p.data.seconds|);
    TableStrict(p.data, |Emitted(p.data)|, |p.data.seconds|);
    forall i, j | 0 <= i < j < |table|
      ensures !SameKey(PartRows(p, places)[i], PartRows(p, places)[j])
    {
      assert KeyLess(table[i], table[j]);
    }
  }

  ghost predicate EmitsIn(p: Part, iteration: int)
    requires ValidSample(p.data)
  {
    exists j: nat :: j < |Emitted(p.data)| && Emitted(p.data)[j].iteration == iteration
  }

  ghost predicate IsRow(s: Sample, m: nat, n: nat, r: Row)
    requires ValidSample(s) && m <= |Emitted(s)| && n <= |s.seconds|
  {
    exists j: nat, q: nat :: j < m && q < n && r == RowAt(s, j, q)
  }

  lemma IterationRows(s: Sample, j: nat, n: nat, r: Row)
    requires ValidSample(s) && j < |Emitted(s)| && n <= |s.seconds|
    ensures r in ForIteration(s, j, n) <==> exists q: nat :: q < n && r == RowAt(s, j, q)
  {
    hide RowAt, Emitted;
    IterationStrict(s, j, n);
    if r in ForIteration(s, j, n) {
      var q :| 0 <= q < n && ForIteration(s, j, n)[q] == r;
      assert r == RowAt(s, j, q);
    }
    if q: nat :| q < n && r == RowAt(s, j, q) {
      assert ForIteration(s, j, n)[q] == r;
    }
  }

  /** The rows of a sample are those of its recorded iterations with its ranks. */
  lemma {:induction false} TableRows(s: Sample, m: nat, n: nat, r: Row)
    requires ValidSample(s) && m <= |Emitted(s)| && n <= |s.seconds|
    ensures r in Table(s, m, n) <==> IsRow(s, m, n, r)
  {
    hide RowAt, Emitted, ForIteration;
    if m > 0 {
      TableRows(s, m - 1, n, r);
      IterationRows(s, m - 1, n, r);
    }
  }

  ghost predicate HasRow(rows: seq<RankRow>, slot: Slot, rank: int) {
    exists x :: x in rows && x.slot == slot && x.rank == rank
  }

  ghost predicate Expected(p: Part, slot: Slot, rank: int)
    requires ValidSample(p.data)
  {
    slot.halo == p.halo && slot.sample == p.sample && EmitsIn(p, slot.iteration) && 0 <= rank < |p.data.seconds|
  }

  lemma RowExpected(p: Part, places: int -> Place, x: RankRow)
    requires ValidSample(p.data) && x in PartRows(p, places)
    ensures Expected(p, x.slot, x.rank)
  {
    hide Emitted, Table;
    var s := p.data;
    var table := Table(s, |Emitted(s)|, |s.seconds|);
    var i :| 0 <= i < |table| && PartRows(p, places)[i] == x;
    TableRows(s, |Emitted(s)|, |s.seconds|, table[i]);
    var j: nat, q: nat :| j < |Emitted(s)| && q < |s.seconds| && table[i] == RowAt(s, j, q);
    assert Emitted(s)[j].iteration == x.slot.iteration;
  }

  lemma ExpectedRow(p: Part, places: int -> Place, slot: Slot, rank: int)
    requires ValidSample(p.data) && Expected(p, slot, rank)
    ensures HasRow(PartRows(p, places), slot, rank)
  {
    hide Emitted, Table;
    var s := p.data;
    var table := Table(s, |Emitted(s)|, |s.seconds|);
    var j: nat :| j < |Emitted(s)| && Emitted(s)[j].iteration == slot.iteration;
    var r := RowAt(s, j, rank);
    assert IsRow(s, |Emitted(s)|, |s.seconds|, r);
    TableRows(s, |Emitted(s)|, |s.seconds|, r);
    var i :| 0 <= i < |table| && table[i] == r;
    assert PartRows(p, places)[i] == Read(p, places, r);
  }

  /** The keys of a sample's rows: its recorded iterations with all its ranks. */
  lemma PartKeys(p: Part, places: int -> Place, slot: Slot, rank: int)
    requires ValidSample(p.data)
    ensures HasRow(PartRows(p, places), slot, rank) <==> Expected(p, slot, rank)
  {
    hide PartRows, Expected;
    if x :| x in PartRows(p, places) && x.slot == slot && x.rank == rank {
      RowExpected(p, places, x);
    }
    if Expected(p, slot, rank) {
      ExpectedRow(p, places, slot, rank);
    }
  }

  /** Two samples under the same name that recorded the same iteration. */
  ghost predicate Overlap(p: Part, q: Part)
    requires ValidSample(p.data) && ValidSample(q.data)
  {
    p.halo == q.halo && p.sample == q.sample && exists i :: EmitsIn(p, i) && EmitsIn(q, i)
  }

  lemma OverlapCommon(p: Part, q: Part, places: int -> Place)
    requires ValidSample(p.data) && ValidSample(q.data)
    ensures CommonKey(PartRows(p, places), PartRows(q, places)) <==> Overlap(p, q)
  {
    var a, b := PartRows(p, places), PartRows(q, places);
    if x, y :| x in a && y in b && SameKey(x, y) {
      RowExpected(p, places, x);
      RowExpected(q, places, y);
      assert EmitsIn(p, x.slot.iteration) && EmitsIn(q, x.slot.iteration);
    }
    if Overlap(p, q) {
      var i :| EmitsIn(p, i) && EmitsIn(q, i);
      var slot := Slot(p.halo, p.sample, i);
      PartKeys(p, places, slot, 0);
      PartKeys(q, places, slot, 0);
      var x :| x in a && x.slot == slot && x.rank == 0;
      var y :| y in b && y.slot == slot && y.rank == 0;
      assert SameKey(x, y);
    }
  }

  ghost predicate OverlapsEarlier(parts: seq<Part>, n: nat, p: Part)
    requires ValidParts(parts) && n <= |parts| && ValidSample(p.data)
  {
    exists i :: 0 <= i < n && Overlap(parts[i], p)
  }

  lemma EarlierStep(parts: seq<Part>, p: Part)
    requires ValidParts(parts) && parts != [] && ValidSample(p.data)
    ensures var m := |parts| - 1;
            OverlapsEarlier(parts, |parts|, p) <==> OverlapsEarlier(parts[..m], m, p) || Overlap(parts[m], p)
  {
    hide Overlap, ValidSample;
    var m := |parts| - 1;
    if i :| 0 <= i < m && Overlap(parts[..m][i], p) {
      assert Overlap(parts[i], p);
    }
    if i :| 0 <= i < |parts| && Overlap(parts[i], p) {
      if i < m {
        assert Overlap(parts[..m][i], p);
      }
    }
  }

  lemma {:induction false} RunCommon(parts: seq<Part>, places: int -> Place, p: Part)
    requires ValidParts(parts) && ValidSample(p.data)
    ensures CommonKey(RunRows(parts, places), PartRows(p, places)) <==> OverlapsEarlier(parts, |parts|, p)
  {
    if parts == [] {
      assert RunRows(parts, places) == [];
    } else {
      hide Overlap, CommonKey, OverlapsEarlier, PartRows, ValidSample;
      var m := |parts| - 1;
      RunCommon(parts[..m], places, p);
      OverlapCommon(parts[m], p, places);
      CommonConcat(RunRows(parts[..m], places), PartRows(parts[m], places), PartRows(p, places));
      EarlierStep(parts, p);
    }
  }

  lemma CommonConcat(a: seq<RankRow>, b: seq<RankRow>, c: seq<RankRow>)
    ensures CommonKey(a + b, c) <==> CommonKey(a, c) || CommonKey(b, c)
  {
    if x, y :| x in a + b && y in c && SameKey(x, y) {
      assert x in a || x in b;
    }
    if x, y :| x in a && y in c && SameKey(x, y) {
      assert x in a + b;
    }
    if x, y :| x in b && y in c && SameKey(x, y) {
      assert x in a + b;
    }
  }

  /** Some two of the first n samples overlap. */
  ghost predicate AnyOverlap(parts: seq<Part>, n: nat)
    requires ValidParts(parts) && n <= |parts|
  {
    exists k :: 0 <= k < n && OverlapsEarlier(parts, k, parts[k])
  }

  lemma AnyStep(parts: seq<Part>)
    requires ValidParts(parts) && parts != []
    ensures var m := |parts| - 1;
            AnyOverlap(parts, |parts|) <==> AnyOverlap(parts[..m], m) || OverlapsEarlier(parts[..m], m, parts[m])
  {
    hide OverlapsEarlier, ValidSample;
    var m := |parts| - 1;
    forall k: nat | k <= m
      ensures OverlapsEarlier(parts, k, parts[k]) == OverlapsEarlier(parts[..m], k, parts[k])
    {
      EarlierPrefix(parts, m, k, parts[k]);
    }
    if k: nat :| k < m && OverlapsEarlier(parts[..m], k, parts[..m][k]) {
      assert OverlapsEarlier(parts, k, parts[k]);
    }
    if k: nat :| k < |parts| && OverlapsEarlier(parts, k, parts[k]) {
      if k < m {
        assert OverlapsEarlier(parts[..m], k, parts[..m][k]);
      }
    }
  }

  /** The analyzer's duplicate error fires on a run exactly if two samples of the run go by the
      same halo length and number and recorded a common iteration. */
  lemma {:induction false} RunDuplicates(parts: seq<Part>, places: int -> Place)
    requires ValidParts(parts)
    ensures HasDuplicate(RunRows(parts, places)) <==> AnyOverlap(parts, |parts|)
  {
    if parts != [] {
      hide HasDuplicate, AnyOverlap, OverlapsEarlier, PartRows, ValidSample, CommonKey;
      var m := |parts| - 1;
      RunDuplicates(parts[..m], places);
      PartDistinct(parts[m], places);
      RunCommon(parts[..m], places, parts[m]);
      DuplicateConcat(RunRows(parts[..m], places), PartRows(parts[m], places));
      AnyStep(parts);
    }
  }

  lemma EarlierPrefix(parts: seq<Part>, m: nat, k: nat, p: Part)
    requires ValidParts(parts) && k <= m <= |parts| && ValidSample(p.data)
    ensures OverlapsEarlier(parts, k, p) == OverlapsEarlier(parts[..m], k, p)
  {
    if i :| 0 <= i < k && Overlap(parts[i], p) {
      assert Overlap(parts[..m][i], p);
    }
    if i :| 0 <= i < k && Overlap(parts[..m][i], p) {
      assert Overlap(parts[i], p);
    }
  }

  // ----- the recorded rank among the slow ones

  /** The slot under which the analyzer files iteration j of a sample. */
  function SlotAt(p: Part, j: nat): Slot
    requires ValidSample(p.data) && j < |Emitted(p.data)|
  {
    Slot(p.halo, p.sample, Emitted(p.data)[j].iteration)
  }

  /** The rows of one recorded iteration, as the analyzer reads them. */
  function IterationRead(p: Part, places: int -> Place, j: nat): seq<RankRow>
    requires ValidSample(p.data) && j < |Emitted(p.data)|
  {
    ReadAll(p, places, ForIteration(p.data, j, |p.data.seconds|))
  }

  lemma IterationKeyed(p: Part, places: int -> Place, j: nat, i: nat)
    requires ValidSample(p.data) && i < |Emitted(p.data)| && j < |Emitted(p.data)|
    ensures Members(IterationRead(p, places, i), SlotOf(), SlotAt(p, j))
         == if i == j then IterationRead(p, places, j) else []
  {
    hide Emitted, RowAt;
    var rows := IterationRead(p, places, i);
    var block := ForIteration(p.data, i, |p.data.seconds|);
    IterationStrict(p.data, i, |p.data.seconds|);
    forall k | 0 <= k < |rows|
      ensures SlotOf()(rows[k]) == SlotAt(p, i)
    {
      assert block[k] in block;
    }
    if i == j {
      MembersAll(rows, SlotOf(), SlotAt(p, j));
    } else {
      if i < j { EmittedIncreasing(p.data, i, j); } else { EmittedIncreasing(p.data, j, i); }
      MembersNone(rows, SlotOf(), SlotAt(p, j));
    }
  }

  lemma {:induction false} TableKeyed(p: Part, places: int -> Place, m: nat, j: nat)
    requires ValidSample(p.data) && m <= |Emitted(p.data)| && j < |Emitted(p.data)|
    ensures Members(ReadAll(p, places, Table(p.data, m, |p.data.seconds|)), SlotOf(), SlotAt(p, j))
         == if j < m then IterationRead(p, places, j) else []
  {
    hide Emitted, RowAt, Members;
    var n := |p.data.seconds|;
    if m == 0 {
      MembersNone(ReadAll(p, places, Table(p.data, m, n)), SlotOf(), SlotAt(p, j));
    } else {
      TableKeyed(p, places, m - 1, j);
      IterationKeyed(p, places, j, m - 1);
      assert ReadAll(p, places, Table(p.data, m, n))
          == ReadAll(p, places, Table(p.data, m - 1, n)) + IterationRead(p, places, m - 1);
      MembersConcat(ReadAll(p, places, Table(p.data, m - 1, n)), IterationRead(p, places, m - 1), SlotOf(), SlotAt(p, j));
    }
  }

  lemma OverlapBack(p: Part, q: Part)
    requires ValidSample(p.data) && ValidSample(q.data)
    ensures Overlap(p, q) == Overlap(q, p)
  {
  }

  lemma OtherPart(p: Part, q: Part, places: int -> Place, j: nat)
    requires ValidSample(p.data) && ValidSample(q.data) && j < |Emitted(p.data)| && !Overlap(p, q)
    ensures Members(PartRows(q, places), SlotOf(), SlotAt(p, j)) == []
  {
    hide Emitted, Table, PartRows;
    var rows := PartRows(q, places);
    forall k | 0 <= k < |rows|
      ensures SlotOf()(rows[k]) != SlotAt(p, j)
    {
      if rows[k].slot == SlotAt(p, j) {
        RowExpected(q, places, rows[k]);
        assert EmitsIn(p, rows[k].slot.iteration);
      }
    }
    MembersNone(rows, SlotOf(), SlotAt(p, j));
  }

  /** The analyzer's group for a recorded iteration is that iteration's block of rows. */
  lemma {:induction false} RunKeyed(parts: seq<Part>, places: int -> Place, i: nat, j: nat)
    requires ValidParts(parts) && !AnyOverlap(parts, |parts|) && i < |parts| && j < |Emitted(parts[i].data)|
    ensures Members(RunRows(parts, places), SlotOf(), SlotAt(parts[i], j)) == IterationRead(parts[i], places, j)
  {
    hide Emitted, Members, SlotAt, IterationRead, Overlap, AnyOverlap;
    var m := |parts| - 1;
    AnyStep(parts);
    MembersConcat(RunRows(parts[..m], places), PartRows(parts[m], places), SlotOf(), SlotAt(parts[i], j));
    if i == m {
      TableKeyed(parts[m], places, |Emitted(parts[m].data)|, j);
      forall k | 0 <= k < m
        ensures !Overlap(parts[m], parts[..m][k])
      {
        OverlapBack(parts[m], parts[..m][k]);
      }
      RunOther(parts[..m], places, parts[m], j);
    } else {
      RunKeyed(parts[..m], places, i, j);
      OverlapBack(parts[..m][i], parts[m]);
      OtherPart(parts[i], parts[m], places, j);
    }
  }

  lemma {:induction false} RunOther(parts: seq<Part>, places: int -> Place, p: Part, j: nat)
    requires ValidParts(parts) && ValidSample(p.data) && j < |Emitted(p.data)|
    requires forall i | 0 <= i < |parts| :: !Overlap(p, parts[i])
    ensures Members(RunRows(parts, places), SlotOf(), SlotAt(p, j)) == []
  {
    if parts == [] {
      MembersNone(RunRows(parts, places), SlotOf(), SlotAt(p, j));
    } else {
      hide Emitted, Members, ValidSample, SlotAt, Overlap;
      var m := |parts| - 1;
      MembersConcat(RunRows(parts[..m], places), PartRows(parts[m], places), SlotOf(), SlotAt(p, j));
      RunOther(parts[..m], places, p, j);
      OtherPart(p, parts[m], places, j);
    }
  }

  lemma {:induction false} AllSameMax(rows: seq<RankRow>, value: real)
    requires rows != [] && forall i | 0 <= i < |rows| :: rows[i].globalUs == value
    ensures GlobalMax(rows) == value
  {
    if |rows| > 1 {
      AllSameMax(rows[..|rows| - 1], value);
    }
  }

  /** The recorded rank's own row among those of its iteration. */
  lemma RecordedRow(p: Part, places: int -> Place, j: nat) returns (x: RankRow)
    requires ValidSample(p.data) && j < |Emitted(p.data)|
    ensures var e := Emitted(p.data)[j]; var rows := IterationRead(p, places, j);
            && |rows| == |p.data.seconds| && x in rows && x.rank == x.globalRank == e.rank
            && x.localUs == e.seconds * 1000000.0
            && (forall i | 0 <= i < |rows| :: rows[i].globalUs == e.seconds * 1000000.0 && rows[i].globalRank == e.rank)
  {
    hide Emitted;
    var n := |p.data.seconds|;
    RecordedMaximum(p.data, j);
    IterationStrict(p.data, j, n);
    var e := Emitted(p.data)[j];
    x := IterationRead(p, places, j)[e.rank];
    assert x == Read(p, places, RowAt(p.data, j, e.rank));
  }

  /** In a run without duplicate rows the analyzer groups the rows of every recorded
      iteration with one row per rank, finds the recorded maximum as the global maximum, and the
      recorded rank is in the group's slow set for any fraction from 0 to 1 of that maximum, so
      also among those at 50, 80 and 95 percent. */
  lemma RecordedRankIsSlow(parts: seq<Part>, places: int -> Place, i: nat, j: nat, fraction: real)
    requires ValidParts(parts) && !HasDuplicate(RunRows(parts, places)) && i < |parts| && j < |Emitted(parts[i].data)|
    requires Nonnegative(parts[i].data) && 0.0 <= fraction <= 1.0
    ensures var e := Emitted(parts[i].data)[j]; var rows := Ranked(RunRows(parts, places), SlotAt(parts[i], j));
            && |rows| == |parts[i].data.seconds| > 0 && GlobalMax(rows) == e.seconds * 1000000.0
            && rows[0].globalRank == e.rank
            && exists x :: x in Slow(rows, fraction) && x.rank == e.rank
  {
    hide Emitted, Members, RunRows, IterationRead, SlotAt, AnyOverlap, HasDuplicate, Slow, GlobalMax, Sort;
    RunDuplicates(parts, places);
    var e := Emitted(parts[i].data)[j];
    var block := IterationRead(parts[i], places, j);
    RunKeyed(parts, places, i, j);
    var x := RecordedRow(parts[i], places, j);
    var rows := Sort(block, RankLeq());
    SortedBlock(block, rows, e.seconds * 1000000.0, e.rank, x);
    AllSameMax(rows, e.seconds * 1000000.0);
    NonnegativeTime(parts[i].data, j);
    LongestIsSlow(rows, x, fraction);
  }

  lemma LongestIsSlow(rows: seq<RankRow>, x: RankRow, fraction: real)
    requires x in rows && x.localUs == GlobalMax(rows) >= 0.0 && 0.0 <= fraction <= 1.0
    ensures x in Slow(rows, fraction)
  {
    hide GlobalMax;
    var cutoff := GlobalMax(rows) * fraction;
    Portion(GlobalMax(rows), fraction, cutoff);
    RankEvents.AtLeastExact(rows, cutoff, x);
    assert x in multiset(rows);
    assert x in multiset(AtLeast(rows, cutoff));
  }

  lemma Portion(t: real, fraction: real, part: real)
    requires t >= 0.0 && 0.0 <= fraction <= 1.0 && part == t * fraction
    ensures part <= t
  {
    assert t * (1.0 - fraction) >= 0.0;
    assert t * (1.0 - fraction) == t - t * fraction;
  }

  lemma SortedBlock(block: seq<RankRow>, rows: seq<RankRow>, value: real, rank: int, x: RankRow)
    requires rows == Sort(block, RankLeq()) && x in block
    requires forall i | 0 <= i < |block| :: block[i].globalUs == value && block[i].globalRank == rank
    ensures |rows| == |block| && x in rows
    ensures forall i | 0 <= i < |rows| :: rows[i].globalUs == value && rows[i].globalRank == rank
  {
    Orders();
    SortCorrect(block, RankLeq());
    assert x in multiset(rows);
    forall i | 0 <= i < |rows|
      ensures rows[i].globalUs == value && rows[i].globalRank == rank
    {
      assert rows[i] in multiset(block);
    }
  }

  lemma NonnegativeTime(s: Sample, j: nat)
    requires ValidSample(s) && Nonnegative(s) && j < |Emitted(s)|
    ensures Emitted(s)[j].seconds >= 0.0
  {
    RecordedMaximum(s, j);
    var e := Emitted(s)[j];
    assert Measured(s, e.rank);
    assert s.seconds[e.rank][e.iteration - 1] >= 0.0;
  }
}
