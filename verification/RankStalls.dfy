/** The analyzer's view of stalled-rank rows: which ranks were slow in each stalled iteration, how
    the iteration is classified, and how often each rank, node, device, row and column was slow. */
module RankStalls {
  import opened Sorting
  import opened Grouping

  datatype Slot = Slot(halo: int, sample: int, iteration: int)

  datatype RankRow = RankRow(slot: Slot, rank: int, host: string, device: int, row: int, col: int,
                             localUs: real, globalUs: real, globalRank: int)

  predicate SlotLess(a: Slot, b: Slot) {
    a.halo < b.halo || (a.halo == b.halo && (a.sample < b.sample || (a.sample == b.sample && a.iteration < b.iteration)))
  }

  function SlotLeq(): (Slot, Slot) -> bool { (a, b) => !SlotLess(b, a) }

  function RankLeq(): (RankRow, RankRow) -> bool { (a: RankRow, b: RankRow) => a.rank <= b.rank }

  function SlotOf(): RankRow -> Slot { (r: RankRow) => r.slot }

  lemma Orders()
    ensures TotalOrder(SlotLeq()) && Preorder(RankLeq())
  {
  }

  // ----- one stalled iteration

  function GlobalMax(rows: seq<RankRow>): real
    requires rows != []
  {
    var m := |rows| - 1;
    if m == 0 then rows[0].globalUs
    else if rows[m].globalUs > GlobalMax(rows[..m]) then rows[m].globalUs else GlobalMax(rows[..m])
  }

  /** The rows whose local time reaches the cutoff. */
  function AtLeast(rows: seq<RankRow>, cutoff: real): (slow: seq<RankRow>)
    ensures |slow| <= |rows|
  {
    if rows == [] then []
    else
      var m := |rows| - 1;
      AtLeast(rows[..m], cutoff) + (if rows[m].localUs >= cutoff then [rows[m]] else [])
  }

  datatype Class = CollectiveWide | RankLocalized | NodeLocalized | RowLocalized | ColumnLocalized | Mixed

  function Hosts(rows: seq<RankRow>): set<string> { set r | r in rows :: r.host }
  function Rows(rows: seq<RankRow>): set<int> { set r | r in rows :: r.row }
  function Cols(rows: seq<RankRow>): set<int> { set r | r in rows :: r.col }

  /** The smallest integer that is at least four fifths of n. */
  function FourFifths(n: nat): (m: nat)
    ensures 5 * m >= 4 * n && (m > 0 ==> 5 * (m - 1) < 4 * n)
  {
    (4 * n + 4) / 5
  }

  function Classify(slow: seq<RankRow>, worldSize: nat): Class {
    if |slow| >= FourFifths(worldSize) then CollectiveWide
    else if |slow| <= 2 then RankLocalized
    else if |Hosts(slow)| == 1 then NodeLocalized
    else if |Rows(slow)| == 1 then RowLocalized
    else if |Cols(slow)| == 1 then ColumnLocalized
    else Mixed
  }

  datatype Event = Event(slot: Slot, kind: Class, worldSize: nat, globalMaxUs: real, globalMaxRank: int,
                         ge50: nat, ge80: nat, ge95: nat)

  /** The rows at or above that fraction of the global maximum. */
  function Slow(rows: seq<RankRow>, fraction: real): seq<RankRow>
    requires rows != []
  {
    AtLeast(rows, GlobalMax(rows) * fraction)
  }

  function Slow80(rows: seq<RankRow>): seq<RankRow>
    requires rows != []
  {
    Slow(rows, 0.8)
  }

  function EventOf(slot: Slot, rows: seq<RankRow>): Event
    requires rows != []
  {
    Event(slot, Classify(Slow80(rows), |rows|), |rows|, GlobalMax(rows), rows[0].globalRank,
          |Slow(rows, 0.5)|, |Slow80(rows)|, |Slow(rows, 0.95)|)
  }

  lemma {:induction false} AtLeastFewer(rows: seq<RankRow>, c: real, d: real)
    requires c <= d
    ensures |AtLeast(rows, d)| <= |AtLeast(rows, c)|
  {
    if rows != [] {
      AtLeastFewer(rows[..|rows| - 1], c, d);
    }
  }

  lemma SlowFewer(rows: seq<RankRow>, f: real, g: real)
    requires rows != [] && GlobalMax(rows) >= 0.0 && f <= g
    ensures |Slow(rows, g)| <= |Slow(rows, f)| <= |rows|
  {
    hide GlobalMax, AtLeast;
    var c, d := GlobalMax(rows) * f, GlobalMax(rows) * g;
    ProductOrder(GlobalMax(rows), f, g, c, d);
    AtLeastFewer(rows, c, d);
  }

  lemma ProductOrder(m: real, f: real, g: real, c: real, d: real)
    requires m >= 0.0 && f <= g && c == m * f && d == m * g
    ensures c <= d
  {
    assert m * (g - f) >= 0.0 && m * (g - f) == d - c;
  }

  lemma CollectiveIff(slow: seq<RankRow>, worldSize: nat)
    ensures Classify(slow, worldSize) == CollectiveWide <==> 5 * |slow| >= 4 * worldSize
  {
    hide Hosts, Rows, Cols;
  }

  /** The counts of an event are nested, and it is collective-wide exactly if at least four
      fifths of its ranks are slow. */
  lemma EventNested(slot: Slot, rows: seq<RankRow>)
    requires rows != [] && GlobalMax(rows) >= 0.0
    ensures var e := EventOf(slot, rows);
            && e.ge95 <= e.ge80 <= e.ge50 <= e.worldSize == |rows|
            && (e.kind == CollectiveWide <==> 5 * e.ge80 >= 4 * e.worldSize)
  {
    hide Slow, GlobalMax, Classify;
    SlowFewer(rows, 0.8, 0.95);
    SlowFewer(rows, 0.5, 0.8);
    CollectiveIff(Slow80(rows), |rows|);
  }

  // ----- all of them

  /** The counters, as multisets of what they count. */
  datatype Tally = Tally(ranks: multiset<int>, nodes: multiset<string>, gpus: multiset<(string, int)>,
                         rows: multiset<int>, cols: multiset<int>)

  const NO_TALLY := Tally(multiset{}, multiset{}, multiset{}, multiset{}, multiset{})

  function Node(r: RankRow): string { if r.host == "" then "unknown" else r.host }

  function Count(t: Tally, r: RankRow): Tally {
    Tally(t.ranks + multiset{r.rank}, t.nodes + multiset{Node(r)}, t.gpus + multiset{(Node(r), r.device)},
          t.rows + multiset{r.row}, t.cols + multiset{r.col})
  }

  function CountAll(rows: seq<RankRow>): Tally {
    if rows == [] then NO_TALLY else Count(CountAll(rows[..|rows| - 1]), rows[|rows| - 1])
  }

  /** The rows of one iteration in rank order. */
  function Ranked(rows: seq<RankRow>, slot: Slot): (ranked: seq<RankRow>)
    ensures |ranked| == |Members(rows, SlotOf(), slot)|
  {
    SortCorrect(Members(rows, SlotOf(), slot), RankLeq());
    Sort(Members(rows, SlotOf(), slot), RankLeq())
  }

  /** The stalled iterations in order. */
  function Slots(rows: seq<RankRow>): seq<Slot> {
    Sort(KeysOf(rows, SlotOf()), SlotLeq())
  }

  function Events(rows: seq<RankRow>, slots: seq<Slot>): (es: seq<Event>)
    requires Present(rows, SlotOf(), slots)
    ensures |es| == |slots|
  {
    if slots == [] then []
    else
      var m := |slots| - 1;
      Events(rows, slots[..m]) + [EventOf(slots[m], Ranked(rows, slots[m]))]
  }

  /** The rows that were slow in their own iteration. */
  function SlowRows(rows: seq<RankRow>, slots: seq<Slot>): seq<RankRow>
    requires Present(rows, SlotOf(), slots)
  {
    if slots == [] then []
    else
      var m := |slots| - 1;
      SlowRows(rows, slots[..m]) + Slow80(Ranked(rows, slots[m]))
  }

  function Total80(es: seq<Event>): nat {
    if es == [] then 0 else Total80(es[..|es| - 1]) + es[|es| - 1].ge80
  }

  /** Every counter's values add up to the total of ranks_ge_80pct. */
  lemma {:induction false} TalliesTotal(rows: seq<RankRow>, slots: seq<Slot>)
    requires Present(rows, SlotOf(), slots)
    ensures var t := CountAll(SlowRows(rows, slots));
            |t.ranks| == |t.nodes| == |t.gpus| == |t.rows| == |t.cols| == Total80(Events(rows, slots))
  {
    TallySizes(SlowRows(rows, slots));
    SlowTotal(rows, slots);
  }

  lemma {:induction false} TallySizes(slow: seq<RankRow>)
    ensures var t := CountAll(slow); |t.ranks| == |t.nodes| == |t.gpus| == |t.rows| == |t.cols| == |slow|
  {
    if slow != [] {
      TallySizes(slow[..|slow| - 1]);
    }
  }

  lemma {:induction false} SlowTotal(rows: seq<RankRow>, slots: seq<Slot>)
    requires Present(rows, SlotOf(), slots)
    ensures |SlowRows(rows, slots)| == Total80(Events(rows, slots))
  {
    if slots != [] {
      var m := |slots| - 1;
      SlowTotal(rows, slots[..m]);
      assert Events(rows, slots)[..m] == Events(rows, slots[..m]);
    }
  }

  /** A rank is counted once for every row of it that was slow. */
  lemma {:induction false} RankCounted(slow: seq<RankRow>, rank: int)
    ensures CountAll(slow).ranks[rank] == |OfRank(slow, rank)|
  {
    if slow != [] {
      RankCounted(slow[..|slow| - 1], rank);
    }
  }

  function OfRank(rows: seq<RankRow>, rank: int): seq<RankRow> {
    if rows == [] then []
    else OfRank(rows[..|rows| - 1], rank) + (if rows[|rows| - 1].rank == rank then [rows[|rows| - 1]] else [])
  }

  // ----- the analysis

  /** Two rows of the same iteration and rank. */
  ghost predicate HasDuplicate(rows: seq<RankRow>) {
    exists i, j :: 0 <= i < j < |rows| && SameKey(rows[i], rows[j])
  }

  predicate SameKey(a: RankRow, b: RankRow) { a.slot == b.slot && a.rank == b.rank }

  datatype Analysis = Duplicate | Analysis(events: seq<Event>, tally: Tally)

  method CheckDuplicates(rows: seq<RankRow>) returns (duplicate: bool)
    ensures duplicate <==> HasDuplicate(rows)
  {
    var seen: set<(Slot, int)> := {};
    for i := 0 to |rows|
      invariant forall k :: k in seen <==> SeenIn(rows[..i], k)
      invariant !HasDuplicate(rows[..i])
    {
      var k := (rows[i].slot, rows[i].rank);
      ghost var before, next := rows[..i], rows[..i + 1];
      assert next == before + [rows[i]];
      if k in seen {
        ghost var j :| 0 <= j < |before| && (before[j].slot, before[j].rank) == k;
        assert SameKey(rows[j], rows[i]);
        return true;
      }
      SeenMore(before, rows[i]);
      seen := seen + {k};
    }
    assert rows[..|rows|] == rows;
    return false;
  }

  ghost predicate SeenIn(rows: seq<RankRow>, k: (Slot, int)) {
    exists j :: 0 <= j < |rows| && (rows[j].slot, rows[j].rank) == k
  }

  lemma SeenMore(rows: seq<RankRow>, r: RankRow)
    ensures forall k :: SeenIn(rows + [r], k) <==> SeenIn(rows, k) || k == (r.slot, r.rank)
    ensures !HasDuplicate(rows) && !SeenIn(rows, (r.slot, r.rank)) ==> !HasDuplicate(rows + [r])
  {
    forall k
      ensures SeenIn(rows + [r], k) <==> SeenIn(rows, k) || k == (r.slot, r.rank)
    {
      if j :| 0 <= j < |rows| && (rows[j].slot, rows[j].rank) == k {
        assert (rows + [r])[j] == rows[j];
      }
      assert (rows + [r])[|rows|] == r;
    }
    if i, j :| 0 <= i < j < |rows + [r]| && SameKey((rows + [r])[i], (rows + [r])[j]) {
      if j < |rows| {
        assert SameKey(rows[i], rows[j]);
      } else {
        assert (rows[i].slot, rows[i].rank) == (r.slot, r.rank);
      }
    }
  }

  method CountSlow(t: Tally, slow: seq<RankRow>) returns (t': Tally)
    ensures t' == Merge(t, CountAll(slow))
  {
    hide Count, Merge;
    t' := t;
    NothingMerged(t);
    for i := 0 to |slow|
      invariant t' == Merge(t, CountAll(slow[..i]))
    {
      assert slow[..i + 1][..i] == slow[..i];
      MergeCount(t, CountAll(slow[..i]), slow[i]);
      t' := Count(t', slow[i]);
    }
    assert slow[..|slow|] == slow;
  }

  lemma NothingMerged(t: Tally)
    ensures Merge(t, NO_TALLY) == t
  {
  }

  function Merge(a: Tally, b: Tally): Tally {
    Tally(a.ranks + b.ranks, a.nodes + b.nodes, a.gpus + b.gpus, a.rows + b.rows, a.cols + b.cols)
  }

  lemma MergeCount(a: Tally, b: Tally, r: RankRow)
    ensures Count(Merge(a, b), r) == Merge(a, Count(b, r))
  {
  }

  lemma {:induction false} CountConcat(a: seq<RankRow>, b: seq<RankRow>)
    ensures CountAll(a + b) == Merge(CountAll(a), CountAll(b))
  {
    if b == [] {
      assert a + b == a;
    } else {
      var m := |b| - 1;
      assert (a + b)[..|a + b| - 1] == a + b[..m];
      CountConcat(a, b[..m]);
      MergeCount(CountAll(a), CountAll(b[..m]), b[m]);
    }
  }

  lemma SlotsPresent(rows: seq<RankRow>)
    ensures Present(rows, SlotOf(), Slots(rows))
  {
    Orders();
    SortedPresent(rows, SlotOf(), SlotLeq());
  }

  method AnalyzeRankRecords(rows: seq<RankRow>) returns (a: Analysis)
    ensures Present(rows, SlotOf(), Slots(rows))
    ensures a.Duplicate? <==> HasDuplicate(rows)
    ensures a.Analysis? ==> a.events == Events(rows, Slots(rows)) && a.tally == CountAll(SlowRows(rows, Slots(rows)))
  {
    SlotsPresent(rows);
    var duplicate := CheckDuplicates(rows);
    if duplicate {
      return Duplicate;
    }
    var groups := GroupBy(rows, SlotOf());
    a := AnalyzeSlots(rows, groups, Slots(rows));
  }

  method AnalyzeSlots(ghost rows: seq<RankRow>, groups: map<Slot, seq<RankRow>>, slots: seq<Slot>) returns (a: Analysis)
    requires Present(rows, SlotOf(), slots) && forall k :: Filed(rows, SlotOf(), groups, k)
    ensures a == Analysis(Events(rows, slots), CountAll(SlowRows(rows, slots)))
  {
    hide EventOf, Slow80, Present, Filed;
    var events: seq<Event>, tally := [], NO_TALLY;
    NoSlots(rows);
    for i := 0 to |slots|
      invariant Present(rows, SlotOf(), slots[..i])
      invariant events == Events(rows, slots[..i]) && tally == CountAll(SlowRows(rows, slots[..i]))
    {
      PresentNext(rows, slots, i);
      FiledMembers(rows, SlotOf(), groups, slots[i]);
      var ranked := Sort(groups[slots[i]], RankLeq());
      CountConcat(SlowRows(rows, slots[..i]), Slow80(ranked));
      events := events + [EventOf(slots[i], ranked)];
      tally := CountSlow(tally, Slow80(ranked));
    }
    assert slots[..|slots|] == slots;
    a := Analysis(events, tally);
  }

  lemma NoSlots(rows: seq<RankRow>)
    ensures Present(rows, SlotOf(), [])
  {
  }

  lemma PresentNext(rows: seq<RankRow>, slots: seq<Slot>, i: nat)
    requires Present(rows, SlotOf(), slots) && i < |slots|
    ensures Present(rows, SlotOf(), slots[..i]) && Present(rows, SlotOf(), slots[..i + 1]) && Ranked(rows, slots[i]) != []
    ensures Members(rows, SlotOf(), slots[i]) != []
    ensures Events(rows, slots[..i + 1]) == Events(rows, slots[..i]) + [EventOf(slots[i], Ranked(rows, slots[i]))]
    ensures SlowRows(rows, slots[..i + 1]) == SlowRows(rows, slots[..i]) + Slow80(Ranked(rows, slots[i]))
  {
    assert slots[..i + 1][..i] == slots[..i];
  }

  // ----- independence of the input order

  ghost predicate RanksDiffer(g: seq<RankRow>) {
    forall i, j | 0 <= i < j < |g| :: g[i].rank != g[j].rank
  }

  lemma {:induction false} RankedUnique(rows: seq<RankRow>, slot: Slot)
    requires !HasDuplicate(rows)
    ensures RanksDiffer(Members(rows, SlotOf(), slot))
    ensures forall r | r in Members(rows, SlotOf(), slot) :: r in rows && r.slot == slot
  {
    if rows != [] {
      var m := |rows| - 1;
      forall i, j | 0 <= i < j < m
        ensures !SameKey(rows[..m][i], rows[..m][j])
      {
        assert !SameKey(rows[i], rows[j]);
      }
      RankedUnique(rows[..m], slot);
      var g := Members(rows[..m], SlotOf(), slot);
      if rows[m].slot == slot {
        forall i | 0 <= i < |g|
          ensures g[i].rank != rows[m].rank
        {
          assert g[i] in g;
          var j :| 0 <= j < m && rows[j] == g[i];
          assert !SameKey(rows[j], rows[m]);
        }
        assert Members(rows, SlotOf(), slot) == g + [rows[m]];
      } else {
        assert Members(rows, SlotOf(), slot) == g;
      }
    }
  }

  lemma RanksOrder(g: seq<RankRow>, s: seq<RankRow>)
    requires RanksDiffer(g) && multiset(s) == multiset(g)
    ensures OrderOn(s, RankLeq())
  {
    Orders();
    forall a, b | a in s && b in s && RankLeq()(a, b) && RankLeq()(b, a)
      ensures a == b
    {
      assert a in multiset(g) && b in multiset(g);
      var i :| 0 <= i < |g| && g[i] == a;
      var j :| 0 <= j < |g| && g[j] == b;
      assert i == j;
    }
  }

  lemma SameRanked(rows: seq<RankRow>, rows': seq<RankRow>, slot: Slot)
    requires multiset(rows) == multiset(rows') && !HasDuplicate(rows)
    ensures Ranked(rows, slot) == Ranked(rows', slot)
  {
    hide RanksDiffer, OrderOn, HasDuplicate;
    var g, g' := Members(rows, SlotOf(), slot), Members(rows', SlotOf(), slot);
    Orders();
    SameMembers(rows, rows', SlotOf(), slot);
    SortCorrect(g, RankLeq());
    SortCorrect(g', RankLeq());
    RankedUnique(rows, slot);
    RanksOrder(g, Sort(g, RankLeq()));
    SortedUniqueOn(Sort(g, RankLeq()), Sort(g', RankLeq()), RankLeq());
  }

  lemma {:induction false} SameEvents(rows: seq<RankRow>, rows': seq<RankRow>, slots: seq<Slot>)
    requires multiset(rows) == multiset(rows') && !HasDuplicate(rows) && Present(rows, SlotOf(), slots)
    ensures Present(rows', SlotOf(), slots)
    ensures Events(rows, slots) == Events(rows', slots) && SlowRows(rows, slots) == SlowRows(rows', slots)
  {
    forall i | 0 <= i < |slots|
      ensures Members(rows', SlotOf(), slots[i]) != []
    {
      SameRanked(rows, rows', slots[i]);
    }
    if slots != [] {
      var m := |slots| - 1;
      SameEvents(rows, rows', slots[..m]);
      SameRanked(rows, rows', slots[m]);
    }
  }

  /** The order of the rows in the file does not matter: same events, same tallies. */
  lemma OrderIndependent(rows: seq<RankRow>, rows': seq<RankRow>)
    requires multiset(rows) == multiset(rows') && !HasDuplicate(rows)
    ensures Present(rows, SlotOf(), Slots(rows)) && Present(rows', SlotOf(), Slots(rows')) && Slots(rows) == Slots(rows')
    ensures Events(rows, Slots(rows)) == Events(rows', Slots(rows'))
    ensures CountAll(SlowRows(rows, Slots(rows))) == CountAll(SlowRows(rows', Slots(rows')))
  {
    Orders();
    SlotsPresent(rows);
    SlotsPresent(rows');
    SameSortedKeys(rows, rows', SlotOf(), SlotLeq());
    SameEvents(rows, rows', Slots(rows));
  }
}
