/** The stalled-rank rows of one sample: what the ranks pack, how the root concatenates and
    sorts them, and how they join with the recorded iterations. */
module Gather {
  import opened Reduction
  import opened PhaseTiming
  import opened Control
  import opened Records
  import opened Sorting
  import opened Topology

  /** A packed record with the rank that sent it. */
  datatype Row = Row(local: LocalRecord, rank: nat)

  /** What every rank measured in one sample: as many iterations and phase records everywhere. */
  datatype Sample = Sample(thresholdUs: real, iterations: nat, seconds: seq<seq<real>>, phases: seq<seq<Phases>>)

  ghost predicate ValidSample(s: Sample) {
    && s.seconds != [] && |s.phases| == |s.seconds|
    && (forall q | 0 <= q < |s.seconds| :: Measured(s, q))
  }

  /** No time is negative, as with a clock that never runs backwards. */
  ghost predicate Nonnegative(s: Sample) {
    forall q, i | 0 <= q < |s.seconds| && 0 <= i < |s.seconds[q]| :: s.seconds[q][i] >= 0.0
  }

  predicate Measured(s: Sample, q: nat) {
    q < |s.seconds| && |s.seconds[q]| == s.iterations
  }

  /** What max_time_ranks returns to every rank. */
  function Reduced(s: Sample): (r: seq<TimeRank>)
    requires s.seconds != []
    ensures |r| == s.iterations
  {
    seq(s.iterations, i requires 0 <= i < s.iterations => MaxLoc(Column(s.seconds, i)))
  }

  /** The records of the sample, the same on every rank. */
  function Emitted(s: Sample): (records: seq<IterationRecord>)
    requires s.seconds != []
    ensures Within(records, s.iterations)
  {
    Recorded(Reduced(s), Kept(s.thresholdUs, Reduced(s)))
  }

  /** The row of one recorded iteration and rank. */
  function RowAt(s: Sample, j: nat, q: nat): Row
    requires ValidSample(s) && j < |Emitted(s)| && q < |s.seconds|
  {
    assert Measured(s, q);
    Row(Local(s.seconds[q], s.phases[q], Emitted(s)[j]), q)
  }

  // ----- rows by rank and rows by iteration

  /** The rows one rank sends, in the order of its records. */
  function FromRank(s: Sample, q: nat, m: nat): seq<Row>
    requires ValidSample(s) && q < |s.seconds| && m <= |Emitted(s)|
  {
    if m == 0 then [] else FromRank(s, q, m - 1) + [RowAt(s, m - 1, q)]
  }

  /** They are its local records. */
  lemma {:induction false} FromRankLocals(s: Sample, q: nat, m: nat)
    requires ValidSample(s) && q < |s.seconds| && m <= |Emitted(s)|
    ensures |FromRank(s, q, m)| == m
    ensures Measured(s, q) && forall j: nat | j < m ::
              FromRank(s, q, m)[j] == Row(Locals(s.seconds[q], s.phases[q], Emitted(s))[j], q)
  {
    assert Measured(s, q);
    if m > 0 {
      FromRankLocals(s, q, m - 1);
    }
  }

  /** The receive buffer of the gather: the blocks of ranks 0 up to n in rank order. */
  function Gathered(s: Sample, n: nat, m: nat): seq<Row>
    requires ValidSample(s) && n <= |s.seconds| && m <= |Emitted(s)|
  {
    if n == 0 then [] else Gathered(s, n - 1, m) + FromRank(s, n - 1, m)
  }

  /** All ranks' rows of one iteration. */
  function ForIteration(s: Sample, j: nat, n: nat): seq<Row>
    requires ValidSample(s) && j < |Emitted(s)| && n <= |s.seconds|
  {
    if n == 0 then [] else ForIteration(s, j, n - 1) + [RowAt(s, j, n - 1)]
  }

  /** The table that is promised: every recorded iteration with every rank, once, in order. */
  function Table(s: Sample, m: nat, n: nat): seq<Row>
    requires ValidSample(s) && m <= |Emitted(s)| && n <= |s.seconds|
  {
    if m == 0 then [] else Table(s, m - 1, n) + ForIteration(s, m - 1, n)
  }

  lemma AddToBoth(whole: seq<Row>, part: seq<Row>, rest: seq<Row>, more: seq<Row>, x: Row)
    requires multiset(whole) == multiset(part) + multiset(rest)
    ensures multiset(whole + (more + [x])) == multiset(part + more) + multiset(rest + [x])
  {
  }

  lemma Concatenated(a: seq<Row>, b: seq<Row>, whole: seq<Row>, part: seq<Row>)
    requires multiset(a) == multiset(part) && multiset(whole) == multiset(part) + multiset(b)
    ensures multiset(a + b) == multiset(whole)
  {
  }

  lemma NoIterations(s: Sample, n: nat)
    requires ValidSample(s) && 0 < n <= |s.seconds|
    ensures multiset(Table(s, 0, n)) == multiset(Table(s, 0, n - 1)) + multiset(FromRank(s, n - 1, 0))
  {
  }

  lemma TableStep(s: Sample, m: nat, n: nat)
    requires ValidSample(s) && 0 < m <= |Emitted(s)| && 0 < n <= |s.seconds|
    ensures Table(s, m, n) == Table(s, m - 1, n) + (ForIteration(s, m - 1, n - 1) + [RowAt(s, m - 1, n - 1)])
    ensures Table(s, m, n - 1) == Table(s, m - 1, n - 1) + ForIteration(s, m - 1, n - 1)
    ensures FromRank(s, n - 1, m) == FromRank(s, n - 1, m - 1) + [RowAt(s, m - 1, n - 1)]
  {
    hide RowAt, Emitted, ValidSample;
  }

  /** One more rank adds one row to every iteration. */
  lemma {:induction false} TableRank(s: Sample, m: nat, n: nat)
    requires ValidSample(s) && m <= |Emitted(s)| && 0 < n <= |s.seconds|
    ensures multiset(Table(s, m, n)) == multiset(Table(s, m, n - 1)) + multiset(FromRank(s, n - 1, m))
  {
    hide RowAt, Emitted, ValidSample, Table, FromRank, ForIteration;
    if m == 0 {
      NoIterations(s, n);
    } else {
      TableRank(s, m - 1, n);
      TableStep(s, m, n);
      AddToBoth(Table(s, m - 1, n), Table(s, m - 1, n - 1), FromRank(s, n - 1, m - 1),
                ForIteration(s, m - 1, n - 1), RowAt(s, m - 1, n - 1));
    }
  }

  lemma {:induction false} GatheredIsTable(s: Sample, n: nat, m: nat)
    requires ValidSample(s) && n <= |s.seconds| && m <= |Emitted(s)|
    ensures multiset(Gathered(s, n, m)) == multiset(Table(s, m, n))
  {
    hide RowAt, Emitted, ValidSample, FromRank, Table;
    if n == 0 {
      EmptyTable(s, m);
    } else {
      GatheredIsTable(s, n - 1, m);
      TableRank(s, m, n);
      Concatenated(Gathered(s, n - 1, m), FromRank(s, n - 1, m), Table(s, m, n), Table(s, m, n - 1));
    }
  }

  lemma {:induction false} EmptyTable(s: Sample, m: nat)
    requires ValidSample(s) && m <= |Emitted(s)|
    ensures Table(s, m, 0) == []
  {
    hide RowAt, Emitted;
    if m > 0 {
      EmptyTable(s, m - 1);
    }
  }

  // ----- order

  predicate KeyLess(a: Row, b: Row) {
    a.local.iteration < b.local.iteration || (a.local.iteration == b.local.iteration && a.rank < b.rank)
  }

  /** The order of the sort: iteration first, then rank. */
  function RowLeq(): (Row, Row) -> bool { (a, b) => !KeyLess(b, a) }

  predicate Strict(rows: seq<Row>) {
    forall i, j | 0 <= i < j < |rows| :: KeyLess(rows[i], rows[j])
  }

  lemma StrictAppend(a: seq<Row>, b: seq<Row>)
    requires Strict(a) && Strict(b) && forall x, y | x in a && y in b :: KeyLess(x, y)
    ensures Strict(a + b)
  {
    forall i, j | 0 <= i < j < |a + b|
      ensures KeyLess((a + b)[i], (a + b)[j])
    {
      if i < |a| <= j {
        assert (a + b)[i] in a && (a + b)[j] in b;
      }
    }
  }

  lemma {:induction false} IterationStrict(s: Sample, j: nat, n: nat)
    requires ValidSample(s) && j < |Emitted(s)| && n <= |s.seconds|
    ensures Strict(ForIteration(s, j, n)) && |ForIteration(s, j, n)| == n
    ensures forall q: nat | q < n :: ForIteration(s, j, n)[q] == RowAt(s, j, q)
    ensures forall r | r in ForIteration(s, j, n) :: r.local.iteration == Emitted(s)[j].iteration && r.rank < n
  {
    if n > 0 {
      IterationStrict(s, j, n - 1);
    }
  }

  /** Records are in increasing order of iteration. */
  lemma EmittedIncreasing(s: Sample, i: nat, j: nat)
    requires s.seconds != [] && i < j < |Emitted(s)|
    ensures Emitted(s)[i].iteration < Emitted(s)[j].iteration
  {
    KeptExact(s.thresholdUs, Reduced(s));
  }

  lemma {:induction false} TableStrict(s: Sample, m: nat, n: nat)
    requires ValidSample(s) && m <= |Emitted(s)| && n <= |s.seconds|
    ensures Strict(Table(s, m, n))
    ensures forall r | r in Table(s, m, n) :: m > 0 && r.local.iteration <= Emitted(s)[m - 1].iteration
  {
    if m > 0 {
      TableStrict(s, m - 1, n);
      IterationStrict(s, m - 1, n);
      if m > 1 {
        EmittedIncreasing(s, m - 2, m - 1);
      }
      StrictAppend(Table(s, m - 1, n), ForIteration(s, m - 1, n));
    }
  }

  lemma StrictSorted(rows: seq<Row>)
    requires Strict(rows)
    ensures IsSorted(rows, RowLeq()) && OrderOn(rows, RowLeq())
  {
    forall a, b | a in rows && b in rows && RowLeq()(a, b) && RowLeq()(b, a)
      ensures a == b
    {
      var i :| 0 <= i < |rows| && rows[i] == a;
      var j :| 0 <= j < |rows| && rows[j] == b;
      assert i == j;
    }
  }

  /** Whatever way the root sorts the gathered rows by iteration and rank, it gets the table:
      every recorded iteration with every rank exactly once. */
  lemma GatherExact(s: Sample, sorted: seq<Row>)
    requires ValidSample(s)
    requires multiset(sorted) == multiset(Gathered(s, |s.seconds|, |Emitted(s)|)) && IsSorted(sorted, RowLeq())
    ensures sorted == Table(s, |Emitted(s)|, |s.seconds|) && Strict(sorted)
  {
    var table := Table(s, |Emitted(s)|, |s.seconds|);
    GatheredIsTable(s, |s.seconds|, |Emitted(s)|);
    TableStrict(s, |Emitted(s)|, |s.seconds|);
    StrictSorted(table);
    SortedUniqueOn(table, sorted, RowLeq());
  }

  lemma {:induction false} IterationAt(s: Sample, j: nat, n: nat, q: nat)
    requires ValidSample(s) && j < |Emitted(s)| && q < n <= |s.seconds|
    ensures |ForIteration(s, j, n)| == n && ForIteration(s, j, n)[q] == RowAt(s, j, q)
  {
    IterationLength(s, j, n);
    IterationLength(s, j, n - 1);
    if q < n - 1 {
      IterationAt(s, j, n - 1, q);
    }
  }

  lemma {:induction false} IterationLength(s: Sample, j: nat, n: nat)
    requires ValidSample(s) && j < |Emitted(s)| && n <= |s.seconds|
    ensures |ForIteration(s, j, n)| == n
  {
    if n > 0 {
      IterationLength(s, j, n - 1);
    }
  }

  lemma {:induction false} TableLength(s: Sample, m: nat, n: nat)
    requires ValidSample(s) && m <= |Emitted(s)| && n <= |s.seconds|
    ensures |Table(s, m, n)| == m * n
  {
    if m > 0 {
      TableLength(s, m - 1, n);
      IterationLength(s, m - 1, n);
      assert m * n == (m - 1) * n + n;
    }
  }

  /** Row q of the block of the j-th recorded iteration is rank q's own record of it. */
  lemma {:induction false} TableAt(s: Sample, m: nat, n: nat, j: nat, q: nat)
    requires ValidSample(s) && m <= |Emitted(s)| && n <= |s.seconds| && j < m && q < n
    ensures |Table(s, m, n)| == m * n && j * n + q < m * n
    ensures var e := Emitted(s)[j];
            && Measured(s, q)
            && Table(s, m, n)[j * n + q]
               == Row(LocalRecord(e.iteration, s.seconds[q][e.iteration - 1], e.seconds, e.rank,
                                  if e.iteration <= |s.phases[q]| then s.phases[q][e.iteration - 1] else NO_TIME), q)
  {
    hide Emitted;
    TableLength(s, m, n);
    TableLength(s, m - 1, n);
    assert m * n == (m - 1) * n + n;
    MulLessEq(j + 1, m, n);
    assert (j + 1) * n == j * n + n;
    assert Measured(s, q);
    if j < m - 1 {
      TableAt(s, m - 1, n, j, q);
    } else {
      IterationAt(s, j, n, q);
    }
  }

  // ----- the join with the recorded iterations

  /** Per recorded iteration: no rank was slower than the recorded maximum, the recorded rank
      attained it, and no lower rank did. */
  lemma RecordedMaximum(s: Sample, j: nat)
    requires ValidSample(s) && j < |Emitted(s)|
    ensures var e := Emitted(s)[j];
            && e.rank < |s.seconds|
            && RowAt(s, j, e.rank).local.localSeconds == e.seconds
            && (forall q: nat | q < |s.seconds| :: AtMost(s, j, q) && (q < e.rank ==> Below(s, j, q)))
  {
    var i := Emitted(s)[j].iteration - 1;
    var xs := Column(s.seconds, i);
    MaxLocCorrect(xs);
    forall q: nat | q < |s.seconds|
      ensures xs[q] == RowAt(s, j, q).local.localSeconds
    {
      assert Measured(s, q);
    }
  }

  ghost predicate AtMost(s: Sample, j: nat, q: nat)
    requires ValidSample(s) && j < |Emitted(s)| && q < |s.seconds|
  {
    RowAt(s, j, q).local.localSeconds <= Emitted(s)[j].seconds
  }

  ghost predicate Below(s: Sample, j: nat, q: nat)
    requires ValidSample(s) && j < |Emitted(s)| && q < |s.seconds|
  {
    RowAt(s, j, q).local.localSeconds < Emitted(s)[j].seconds
  }
}
