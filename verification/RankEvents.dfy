/** The stall analyzer's events and counters in terms of the rows it reads. */
module RankEvents {
  import opened Sorting
  import opened Grouping
  import opened Counting
  import opened RankStalls

  // ----- one stalled iteration

  lemma {:induction false} GlobalMaxExact(rows: seq<RankRow>)
    requires rows != []
    ensures (exists i :: 0 <= i < |rows| && rows[i].globalUs == GlobalMax(rows))
    ensures forall i | 0 <= i < |rows| :: rows[i].globalUs <= GlobalMax(rows)
  {
    var m := |rows| - 1;
    assert rows[m].globalUs <= GlobalMax(rows);
    if m > 0 {
      GlobalMaxExact(rows[..m]);
      var i :| 0 <= i < m && rows[..m][i].globalUs == GlobalMax(rows[..m]);
      assert rows[if GlobalMax(rows) == rows[m].globalUs then m else i].globalUs == GlobalMax(rows);
      forall i | 0 <= i < |rows|
        ensures rows[i].globalUs <= GlobalMax(rows)
      {
        assert i < m ==> rows[..m][i] == rows[i];
      }
    } else {
      assert rows[0].globalUs == GlobalMax(rows);
    }
  }

  ghost function Reaches(rows: seq<RankRow>, cutoff: real): nat -> bool {
    (i: nat) => i < |rows| && rows[i].localUs >= cutoff
  }

  lemma {:induction false} AtLeastCount(rows: seq<RankRow>, cutoff: real)
    ensures |AtLeast(rows, cutoff)| == Number(|rows|, Reaches(rows, cutoff))
  {
    if rows == [] {
      assert Where(0, Reaches(rows, cutoff)) == {};
    } else {
      var m := |rows| - 1;
      AtLeastCount(rows[..m], cutoff);
      NumberNext(m, Reaches(rows, cutoff));
      NumberSame(m, Reaches(rows, cutoff), Reaches(rows[..m], cutoff));
    }
  }

  /** An event counts the ranks whose local time is at least 50, 80 and 95 percent of the longest
      global time of the iteration. */
  lemma EventExact(slot: Slot, rows: seq<RankRow>)
    requires rows != []
    ensures var e := EventOf(slot, rows);
            && e.slot == slot && e.worldSize == |rows| && e.globalMaxRank == rows[0].globalRank
            && (exists i :: 0 <= i < |rows| && rows[i].globalUs == e.globalMaxUs)
            && (forall i | 0 <= i < |rows| :: rows[i].globalUs <= e.globalMaxUs)
            && e.ge50 == Number(|rows|, Reaches(rows, e.globalMaxUs * 0.5))
            && e.ge80 == Number(|rows|, Reaches(rows, e.globalMaxUs * 0.8))
            && e.ge95 == Number(|rows|, Reaches(rows, e.globalMaxUs * 0.95))
  {
    hide GlobalMax, AtLeast, Classify;
    GlobalMaxExact(rows);
    AtLeastCount(rows, GlobalMax(rows) * 0.5);
    AtLeastCount(rows, GlobalMax(rows) * 0.8);
    AtLeastCount(rows, GlobalMax(rows) * 0.95);
  }

  ghost predicate OneHost(slow: seq<RankRow>) {
    forall i, j | 0 <= i < j < |slow| :: slow[i].host == slow[j].host
  }

  ghost predicate OneRow(slow: seq<RankRow>) {
    forall i, j | 0 <= i < j < |slow| :: slow[i].row == slow[j].row
  }

  ghost predicate OneCol(slow: seq<RankRow>) {
    forall i, j | 0 <= i < j < |slow| :: slow[i].col == slow[j].col
  }

  lemma SingleValue<T>(s: set<T>, x: T)
    requires x in s
    ensures |s| == 1 <==> forall y | y in s :: y == x
  {
    var rest := s - {x};
    assert s == rest + {x};
    if rest != {} {
      var y :| y in rest;
      assert y in s && y != x;
    }
  }

  lemma HostsOne(slow: seq<RankRow>)
    requires slow != []
    ensures |Hosts(slow)| == 1 <==> OneHost(slow)
    ensures |Rows(slow)| == 1 <==> OneRow(slow)
    ensures |Cols(slow)| == 1 <==> OneCol(slow)
  {
    assert slow[0] in slow;
    SingleValue(Hosts(slow), slow[0].host);
    SingleValue(Rows(slow), slow[0].row);
    SingleValue(Cols(slow), slow[0].col);
    if OneHost(slow) {
      assert forall r | r in slow :: r.host == slow[0].host;
    }
    if OneRow(slow) {
      assert forall r | r in slow :: r.row == slow[0].row;
    }
    if OneCol(slow) {
      assert forall r | r in slow :: r.col == slow[0].col;
    }
    forall i | 0 <= i < |slow|
      ensures slow[i].host in Hosts(slow) && slow[i].row in Rows(slow) && slow[i].col in Cols(slow)
    {
      assert slow[i] in slow;
    }
  }

  /** Each class, by the number of slow ranks and by what they have in common. */
  lemma ClassExact(slow: seq<RankRow>, worldSize: nat)
    ensures var kind, many, few := Classify(slow, worldSize), 5 * |slow| >= 4 * worldSize, |slow| <= 2;
            && (kind == CollectiveWide <==> many)
            && (kind == RankLocalized <==> !many && few)
            && (kind == NodeLocalized <==> !many && !few && OneHost(slow))
            && (kind == RowLocalized <==> !many && !few && !OneHost(slow) && OneRow(slow))
            && (kind == ColumnLocalized <==> !many && !few && !OneHost(slow) && !OneRow(slow) && OneCol(slow))
            && (kind == Mixed <==> !many && !few && !OneHost(slow) && !OneRow(slow) && !OneCol(slow))
  {
    hide Hosts, Rows, Cols, OneHost, OneRow, OneCol;
    if |slow| > 2 {
      HostsOne(slow);
    }
  }

  // ----- the order of the events

  /** One event per stalled iteration, in the order of halo length, sample and iteration. */
  lemma SlotsExact(rows: seq<RankRow>)
    ensures forall i, j | 0 <= i < j < |Slots(rows)| :: SlotBefore(Slots(rows)[i], Slots(rows)[j])
    ensures forall s :: s in Slots(rows) <==> HasKey(rows, SlotOf(), s)
  {
    Orders();
    KeysExact(rows, SlotOf());
    SortCorrect(KeysOf(rows, SlotOf()), SlotLeq());
    var keys, slots := KeysOf(rows, SlotOf()), Slots(rows);
    forall s
      ensures s in slots <==> HasKey(rows, SlotOf(), s)
    {
      assert s in slots <==> s in multiset(slots);
      assert s in keys <==> s in multiset(keys);
    }
    forall i, j | 0 <= i < j < |slots|
      ensures SlotBefore(slots[i], slots[j])
    {
      Once(keys, slots[i]);
      if slots[i] == slots[j] {
        Repeated(slots, i, j);
      }
      assert SlotLeq()(slots[i], slots[j]);
    }
  }

  lemma Repeated(b: seq<Slot>, i: nat, j: nat)
    requires i < j < |b| && b[i] == b[j]
    ensures multiset(b)[b[i]] >= 2
  {
    assert b == b[..i] + [b[i]] + b[i + 1..j] + [b[j]] + b[j + 1..];
  }

  predicate SlotBefore(a: Slot, b: Slot) {
    || a.halo < b.halo
    || (a.halo == b.halo && a.sample < b.sample)
    || (a.halo == b.halo && a.sample == b.sample && a.iteration < b.iteration)
  }

  lemma {:induction false} EventsAt(rows: seq<RankRow>, slots: seq<Slot>, i: nat)
    requires Present(rows, SlotOf(), slots) && i < |slots|
    ensures Members(rows, SlotOf(), slots[i]) != [] && Events(rows, slots)[i] == EventOf(slots[i], Ranked(rows, slots[i]))
  {
    var m := |slots| - 1;
    if i < m {
      EventsAt(rows, slots[..m], i);
    }
  }

  /** The rows behind an event are those of its iteration, in rank order. */
  lemma RankedExact(rows: seq<RankRow>, slot: Slot, x: RankRow)
    ensures multiset(Ranked(rows, slot))[x] == if x.slot == slot then multiset(rows)[x] else 0
    ensures forall i, j | 0 <= i < j < |Ranked(rows, slot)| :: Ranked(rows, slot)[i].rank <= Ranked(rows, slot)[j].rank
  {
    Orders();
    SortCorrect(Members(rows, SlotOf(), slot), RankLeq());
    MembersExact(rows, SlotOf(), slot, x);
    var ranked := Ranked(rows, slot);
    forall i, j | 0 <= i < j < |ranked|
      ensures ranked[i].rank <= ranked[j].rank
    {
      assert RankLeq()(ranked[i], ranked[j]);
    }
  }

  // ----- the counters

  lemma {:induction false} AtLeastExact(rows: seq<RankRow>, cutoff: real, x: RankRow)
    ensures multiset(AtLeast(rows, cutoff))[x] == if x.localUs >= cutoff then multiset(rows)[x] else 0
  {
    if rows != [] {
      var m := |rows| - 1;
      AtLeastExact(rows[..m], cutoff, x);
      assert rows == rows[..m] + [rows[m]];
    }
  }

  lemma {:induction false} SlowRowsAt(rows: seq<RankRow>, slots: seq<Slot>, x: RankRow)
    requires Present(rows, SlotOf(), slots) && Distinct(slots)
    ensures multiset(SlowRows(rows, slots))[x]
         == if x.slot in slots && Ranked(rows, x.slot) != [] && x.localUs >= GlobalMax(Ranked(rows, x.slot)) * 0.8 then multiset(rows)[x] else 0
  {
    hide GlobalMax, AtLeast, Ranked;
    if slots != [] {
      var m := |slots| - 1;
      SlowRowsAt(rows, slots[..m], x);
      assert slots == slots[..m] + [slots[m]];
      AtLeastExact(Ranked(rows, slots[m]), GlobalMax(Ranked(rows, slots[m])) * 0.8, x);
      RankedExact(rows, slots[m], x);
    }
  }

  /** The longest global time of the row's own iteration. */
  ghost predicate SlowInIteration(rows: seq<RankRow>, x: RankRow) {
    forall y | y in rows && y.slot == x.slot :: x.localUs >= y.globalUs * 0.8
  }

  /** The slow rows are those whose local time is at least four fifths of every global time of their
      iteration, each as often as it occurs. */
  lemma SlowRowsExact(rows: seq<RankRow>, x: RankRow)
    ensures Present(rows, SlotOf(), Slots(rows))
    ensures multiset(SlowRows(rows, Slots(rows)))[x] == if SlowInIteration(rows, x) then multiset(rows)[x] else 0
  {
    hide GlobalMax, Ranked, SlowRows, Slots;
    SlotsPresent(rows);
    SlotsExact(rows);
    SlowRowsAt(rows, Slots(rows), x);
    if x in rows {
      var k :| 0 <= k < |rows| && rows[k] == x;
      assert HasKey(rows, SlotOf(), x.slot);
      var group := Ranked(rows, x.slot);
      RankedExact(rows, x.slot, x);
      assert x in multiset(rows) && x in multiset(group);
      GlobalMaxExact(group);
      forall y
        ensures y in group <==> y in rows && y.slot == x.slot
      {
        RankedExact(rows, x.slot, y);
        assert y in group <==> y in multiset(group);
        assert y in rows <==> y in multiset(rows);
      }
      SlowByMax(rows, group, x);
    } else {
      assert x !in multiset(rows);
    }
  }

  lemma SlowByMax(rows: seq<RankRow>, group: seq<RankRow>, x: RankRow)
    requires group != [] && forall y :: y in group <==> y in rows && y.slot == x.slot
    ensures SlowInIteration(rows, x) <==> x.localUs >= GlobalMax(group) * 0.8
  {
    hide GlobalMax;
    GlobalMaxExact(group);
    var i :| 0 <= i < |group| && group[i].globalUs == GlobalMax(group);
    assert group[i] in group;
    forall y | y in rows && y.slot == x.slot
      ensures y.globalUs <= GlobalMax(group)
    {
      assert y in group;
      var j :| 0 <= j < |group| && group[j] == y;
    }
  }

  ghost function Having<T(!new)>(rows: seq<RankRow>, value: RankRow -> T, x: T): nat -> bool {
    (i: nat) => i < |rows| && value(rows[i]) == x
  }

  ghost function RankOf(): RankRow -> int { (r: RankRow) => r.rank }
  ghost function RowOf(): RankRow -> int { (r: RankRow) => r.row }
  ghost function ColOf(): RankRow -> int { (r: RankRow) => r.col }
  ghost function HostOf(): RankRow -> string { (r: RankRow) => if r.host == "" then "unknown" else r.host }
  ghost function DeviceOf(): RankRow -> (string, int) { (r: RankRow) => (if r.host == "" then "unknown" else r.host, r.device) }

  lemma HavingNext<T(!new)>(rows: seq<RankRow>, value: RankRow -> T, x: T)
    requires rows != []
    ensures var m := |rows| - 1;
            Number(|rows|, Having(rows, value, x)) == Number(m, Having(rows[..m], value, x)) + (if value(rows[m]) == x then 1 else 0)
  {
    var m := |rows| - 1;
    NumberNext(m, Having(rows, value, x));
    NumberSame(m, Having(rows, value, x), Having(rows[..m], value, x));
  }

  lemma NoneHave<T(!new)>(value: RankRow -> T, x: T)
    ensures Number(0, Having([], value, x)) == 0
  {
    assert Where(0, Having([], value, x)) == {};
  }

  /** Each counter counts the rows that have that rank, node, device, row or column; rows without a
      host name count under "unknown". */
  lemma {:induction false} CountsExact(rows: seq<RankRow>, rank: int, node: string, gpu: (string, int), row: int, col: int)
    ensures var t := CountAll(rows);
            && t.ranks[rank] == Number(|rows|, Having(rows, RankOf(), rank))
            && t.nodes[node] == Number(|rows|, Having(rows, HostOf(), node))
            && t.gpus[gpu] == Number(|rows|, Having(rows, DeviceOf(), gpu))
            && t.rows[row] == Number(|rows|, Having(rows, RowOf(), row))
            && t.cols[col] == Number(|rows|, Having(rows, ColOf(), col))
  {
    hide Having, Number;
    if rows == [] {
      NoneHave(RankOf(), rank);
      NoneHave(HostOf(), node);
      NoneHave(DeviceOf(), gpu);
      NoneHave(RowOf(), row);
      NoneHave(ColOf(), col);
    } else {
      CountsExact(rows[..|rows| - 1], rank, node, gpu, row, col);
      HavingNext(rows, RankOf(), rank);
      HavingNext(rows, HostOf(), node);
      HavingNext(rows, DeviceOf(), gpu);
      HavingNext(rows, RowOf(), row);
      HavingNext(rows, ColOf(), col);
    }
  }
}
