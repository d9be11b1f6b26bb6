/** The phase rows a run reports, traced to what all ranks read: one row per phase and recorded
    iteration, with the longest of the ranks' own times of that phase in that iteration. */
module JointPhases {
  import opened Reduction
  import opened Control
  import opened PhaseTiming
  import opened PhaseBounds
  import opened Records
  import opened Backend
  import opened Driver
  import opened Gather
  import opened Joint
  import Topology

  // ----- where a row stands

  lemma {:induction false} AllRowsAt(template: seq<PhaseValue>, records: seq<IterationRecord>, replies: seq<seq<TimeRank>>, p: nat, k: nat)
    requires |replies| <= |template| && Answered(records, replies) && p < |replies| && k < |records|
    ensures |AllRows(template, records, replies)| == |replies| * |records| && p * |records| + k < |replies| * |records|
    ensures AllRows(template, records, replies)[p * |records| + k]
         == PhaseRecord(records[k], template[p].phase, replies[p][k].seconds, replies[p][k].rank)
  {
    var m, n := |replies| - 1, |records|;
    AllRowsLength(template, records, replies[..m]);
    Topology.MulLessEq(p + 1, |replies|, n);
    assert (p + 1) * n == p * n + n;
    assert |replies| * n == m * n + n;
    if p < m {
      AllRowsAt(template, records, replies[..m], p, k);
    }
  }

  lemma {:induction false} AllRowsLength(template: seq<PhaseValue>, records: seq<IterationRecord>, replies: seq<seq<TimeRank>>)
    requires |replies| <= |template| && Answered(records, replies)
    ensures |AllRows(template, records, replies)| == |replies| * |records|
  {
    if replies != [] {
      var m := |replies| - 1;
      AllRowsLength(template, records, replies[..m]);
      assert |replies| * |records| == m * |records| + |records|;
    }
  }

  lemma {:induction false} PhaseBringsAt(at: At, schema: Schema, template: seq<PhaseValue>, records: seq<IterationRecord>,
                                         phases: seq<Phases>, n: nat, p: nat)
    requires Within(records, |phases|) && p < n <= |template|
    ensures |PhaseBrings(at, schema, template, records, phases, n)| == n
    ensures PhaseBrings(at, schema, template, records, phases, n)[p]
         == Brought(ReducePhase(at, |records|, p), PhaseVector(schema, template[p].phase, records, phases))
  {
    PhaseBringsLength(at, schema, template, records, phases, n);
    PhaseBringsLength(at, schema, template, records, phases, n - 1);
    if p < n - 1 {
      PhaseBringsAt(at, schema, template, records, phases, n - 1, p);
    }
  }

  // ----- what the ranks read

  /** The phases a rank read in iteration i of sample j. */
  ghost function Own(run: RankRun, j: nat, i: nat): Phases {
    if j < |run.traces| && 1 <= i <= |run.traces[j].readings.phases| then run.traces[j].readings.phases[i - 1] else NO_TIME
  }

  /** All ranks' times of phase p in iteration i. */
  ghost function OwnTimes(runs: seq<RankRun>, ordered: bool, j: nat, i: nat, p: nat): (xs: seq<real>)
    requires p < if ordered then 4 else 6
    ensures |xs| == |runs|
  {
    seq(|runs|, q requires 0 <= q < |runs| => FieldOf(Own(runs[q], j, i), PhaseName(ordered, p)))
  }

  function PhaseName(ordered: bool, p: nat): Phase
    requires p < if ordered then 4 else 6
  {
    PhaseNames(SchemaOf(ordered))[p]
  }

  lemma FieldOfName(ordered: bool, x: Phases, p: nat)
    requires p < if ordered then 4 else 6
    ensures LocalPhases(ordered, x)[p] == FieldOf(x, PhaseName(ordered, p))
  {
    LocalPhasesOfSchema(ordered, x);
    NamedAfterField(SchemaOf(ordered), x, p);
  }

  /** What a rank brings to the reduction of phase p of a sample. */
  ghost function OwnVector(run: RankRun, ordered: bool, j: nat, records: seq<IterationRecord>, p: nat): (xs: seq<real>)
    requires p < if ordered then 4 else 6
    ensures |xs| == |records|
  {
    seq(|records|, k requires 0 <= k < |records| => FieldOf(Own(run, j, records[k].iteration), PhaseName(ordered, p)))
  }

  lemma VectorOfOwn(run: RankRun, ordered: bool, j: nat, records: seq<IterationRecord>, p: nat, template: Phases)
    requires j < |run.traces| && Within(records, |run.traces[j].readings.phases|) && p < if ordered then 4 else 6
    ensures PhaseValues(SchemaOf(ordered), template)[p].phase == PhaseName(ordered, p)
    ensures PhaseVector(SchemaOf(ordered), PhaseName(ordered, p), records, run.traces[j].readings.phases)
         == OwnVector(run, ordered, j, records, p)
  {
    var phases := run.traces[j].readings.phases;
    var v := PhaseVector(SchemaOf(ordered), PhaseName(ordered, p), records, phases);
    forall k | 0 <= k < |records|
      ensures v[k] == OwnVector(run, ordered, j, records, p)[k]
    {
      var own := phases[records[k].iteration - 1];
      SchemaLength(ordered, own);
      SchemaLength(ordered, NO_TIME);
      LookupOwn(SchemaOf(ordered), NO_TIME, own, p);
      NamedAfterField(SchemaOf(ordered), own, p);
    }
  }

  /** The contribution of phase p of a sample, and the rows its reply gives. */
  lemma PhaseEntry(cfg: Config, run: RankRun, j: nat, p: nat)
    requires j < |run.results| == |run.traces| && Reported(cfg, run.ordered, run.log, run.results[j], run.traces[j])
    requires cfg.recordIterations && cfg.recordPhases && p < cfg.phases == (if run.ordered then 4 else 6)
    requires run.results[j].timed.records != []
    ensures var t, x := run.results[j].timed, run.traces[j]; var i := x.first + 1 + p;
            && Within(t.records, |x.readings.phases|) && x.readings.phases != []
            && i < |run.log.contributed|
            && run.log.contributed[i] == Brought(ReducePhase(x.at, |t.records|, p), OwnVector(run, run.ordered, j, t.records, p))
            && PhasesRows(SchemaOf(run.ordered), t.records, x.readings.phases,
                          Replies(run.log.replies, x.first + 1, |t.records|, cfg.phases), t.phaseRecords)
  {
    hide MeasuredBy, CalibratedBy, Spans, Named, PhasesReported, PhasesRows, Kept, Recorded, Locals, Shares, LocalPhases, PhaseValues,
         PhaseVector, PhaseBrings, Reported, GatherBrings, OwnVector, PhaseName, Reply;
    var t, x, schema := run.results[j].timed, run.traces[j], SchemaOf(run.ordered);
    SampleValues(cfg, run.ordered, run.log, run.results[j], x);
    assert 1 <= t.records[0].iteration <= |x.readings.phases|;
    SchemaLength(run.ordered, x.readings.phases[0]);
    var template := PhaseValues(schema, x.readings.phases[0]);
    PhaseBringsAt(x.at, schema, template, t.records, x.readings.phases, |template|, p);
    VectorOfOwn(run, run.ordered, j, t.records, p, x.readings.phases[0]);
    var own := PhaseBrings(x.at, schema, template, t.records, x.readings.phases, |template|);
    assert RecordPart(cfg, run.ordered, t, x)[1 + p] == own[p];
    SampleEntry(cfg, run.ordered, run.log, run.results[j], x, 1 + p);
  }

  // ----- the rows of all ranks

  /** Row k of phase p among m recorded iterations. */
  function RowIndex(p: nat, m: nat, k: nat): nat { p * m + k }

  /** Every rank's row for phase p of a recorded iteration names the longest time any rank read
      for that phase in that iteration, and the lowest rank that read it. */
  lemma RowJoin(cfg: Config, runs: seq<RankRun>, j: nat, q: nat, p: nat, k: nat)
    requires HasSample(cfg, runs, j) && cfg.recordIterations && cfg.recordPhases && q < |runs|
    requires Everywhere(runs, j) && k < |Emitted(SampleOf(cfg, runs, j))| && p < cfg.phases
    ensures cfg.phases == if runs[q].ordered then 4 else 6
    ensures var records, rows := Emitted(SampleOf(cfg, runs, j)), runs[q].results[j].timed.phaseRecords;
            var longest := MaxLoc(OwnTimes(runs, runs[q].ordered, j, records[k].iteration, p));
            && |rows| == cfg.phases * |records| && RowIndex(p, |records|, k) < |rows|
            && rows[RowIndex(p, |records|, k)] == PhaseRecord(records[k], PhaseName(runs[q].ordered, p), longest.seconds, longest.rank)
  {
    hide Met, Reported, MaxLoc, Column, Emitted, PhaseValues, Reply, OwnVector, LocalPhases, SampleOf, AllRows, PhasesRows, ValidSample;
    var records, ordered := Emitted(SampleOf(cfg, runs, j)), runs[q].ordered;
    PhasesOfMode(cfg, runs, q);
    SampleJoin(cfg, runs, j, q);
    assert SampleIn(cfg, runs, q, j);
    PhaseEntry(cfg, runs[q], j, p);
    PhaseReply(cfg, runs, j, q, p);
    RowOfReply(cfg, runs, j, q, p, k, records);
  }

  /** What the reduction of phase p returns. */
  lemma PhaseReply(cfg: Config, runs: seq<RankRun>, j: nat, q: nat, p: nat)
    requires HasSample(cfg, runs, j) && cfg.recordIterations && cfg.recordPhases && q < |runs|
    requires Everywhere(runs, j) && Emitted(SampleOf(cfg, runs, j)) != [] && p < cfg.phases
    ensures cfg.phases == if runs[q].ordered then 4 else 6
    ensures var records := Emitted(SampleOf(cfg, runs, j));
            Reply(runs[q].log.replies, runs[q].traces[j].first + 1 + p, |records|)
            == Longest(OwnVectors(runs, runs[q].ordered, j, records, p), |records|)
  {
    hide Met, Reported, MaxLoc, Column, Emitted, PhaseValues, Reply, OwnVector, LocalPhases, SampleOf, AllRows, PhasesRows, ValidSample,
         Longest, OwnTimes;
    var records, ordered := Emitted(SampleOf(cfg, runs, j)), runs[q].ordered;
    PhasesOfMode(cfg, runs, q);
    assert SampleIn(cfg, runs, q, j);
    var i := runs[q].traces[j].first + 1 + p;
    var xs := OwnVectors(runs, ordered, j, records, p);
    forall r | 0 <= r < |runs|
      ensures i < |runs[r].log.contributed|
      ensures runs[r].log.contributed[i] == Brought(ReducePhase(runs[q].traces[j].at, |records|, p), xs[r])
    {
      assert SampleIn(cfg, runs, r, j);
      SampleJoin(cfg, runs, j, r);
      PhaseEntry(cfg, runs[r], j, p);
    }
    assert BroughtAt(runs, i, xs);
    ReductionReturns(cfg, runs, q, i, Op.MaxTimeRanks, |records|, xs);
  }

  ghost function OwnVectors(runs: seq<RankRun>, ordered: bool, j: nat, records: seq<IterationRecord>, p: nat): (xs: seq<seq<real>>)
    requires p < if ordered then 4 else 6
    ensures |xs| == |runs|
  {
    seq(|runs|, r requires 0 <= r < |runs| => OwnVector(runs[r], ordered, j, records, p))
  }

  lemma ColumnOfVectors(runs: seq<RankRun>, ordered: bool, j: nat, records: seq<IterationRecord>, p: nat, k: nat)
    requires k < |records| && p < if ordered then 4 else 6
    ensures Column(OwnVectors(runs, ordered, j, records, p), k) == OwnTimes(runs, ordered, j, records[k].iteration, p)
  {
    hide FieldOf, Own;
  }

  lemma RowOfReply(cfg: Config, runs: seq<RankRun>, j: nat, q: nat, p: nat, k: nat, records: seq<IterationRecord>)
    requires q < |runs| && j < |runs[q].results| == |runs[q].traces| && runs[q].results[j].timed.records == records
    requires k < |records| && p < cfg.phases == (if runs[q].ordered then 4 else 6)
    requires runs[q].traces[j].readings.phases != []
    requires PhasesRows(SchemaOf(runs[q].ordered), records, runs[q].traces[j].readings.phases,
                        Replies(runs[q].log.replies, runs[q].traces[j].first + 1, |records|, cfg.phases),
                        runs[q].results[j].timed.phaseRecords)
    requires Reply(runs[q].log.replies, runs[q].traces[j].first + 1 + p, |records|)
             == Longest(OwnVectors(runs, runs[q].ordered, j, records, p), |records|)
    ensures var rows := runs[q].results[j].timed.phaseRecords;
            var longest := MaxLoc(OwnTimes(runs, runs[q].ordered, j, records[k].iteration, p));
            && |rows| == cfg.phases * |records| && RowIndex(p, |records|, k) < |rows|
            && rows[RowIndex(p, |records|, k)] == PhaseRecord(records[k], PhaseName(runs[q].ordered, p), longest.seconds, longest.rank)
  {
    hide MaxLoc, Column, PhaseValues, Reply, AllRows, OwnVectors, OwnTimes;
    var schema, phases := SchemaOf(runs[q].ordered), runs[q].traces[j].readings.phases;
    var replies := Replies(runs[q].log.replies, runs[q].traces[j].first + 1, |records|, cfg.phases);
    SchemaLength(runs[q].ordered, phases[0]);
    SchemaLength(runs[q].ordered, NO_TIME);
    AllRowsAt(PhaseValues(schema, phases[0]), records, replies, p, k);
    assert replies[p] == Longest(OwnVectors(runs, runs[q].ordered, j, records, p), |records|);
    ColumnOfVectors(runs, runs[q].ordered, j, records, p, k);
    SamePhase(runs[q].ordered, phases[0], p);
  }

  lemma SamePhase(ordered: bool, template: Phases, p: nat)
    requires p < if ordered then 4 else 6
    ensures |PhaseValues(SchemaOf(ordered), template)| > p && PhaseValues(SchemaOf(ordered), template)[p].phase == PhaseName(ordered, p)
  {
  }

  // ----- what the rows of one iteration add up to

  /** The reduced times of all phases of recorded iteration k. */
  ghost function RowTimes(rows: seq<PhaseRecord>, phases: nat, m: nat, k: nat): (xs: seq<real>)
    ensures |xs| == phases
  {
    seq(phases, p requires 0 <= p < phases => if RowIndex(p, m, k) < |rows| then rows[RowIndex(p, m, k)].seconds else 0.0)
  }

  /** A rank's phases of one iteration are not negative and fit into its time of it. */
  lemma OwnFits(cfg: Config, runs: seq<RankRun>, j: nat, r: nat, i: nat)
    requires HasSample(cfg, runs, j) && cfg.recordIterations && cfg.recordPhases && r < |runs| && Everywhere(runs, j)
    requires 1 <= i <= SampleOf(cfg, runs, j).iterations
    ensures |runs[r].traces[j].readings.seconds| >= i
    ensures Elapsed(runs[r].ordered, Own(runs[r], j, i))
    ensures PhaseTimingSum(Own(runs[r], j, i)) <= runs[r].traces[j].readings.seconds[i - 1]
  {
    hide Met, CalibratedBy, SampleBrings, Spans, Named, ValuesOf, TotalCost, Elapsed, PhaseTimingSum, Series;
    assert SampleIn(cfg, runs, r, j);
    var x, log := runs[r].traces[j], runs[r].log;
    var run := RunOf(log.exchanges, x.made, x.at.iterations);
    assert ReadAround(runs[r].ordered, log.clock, run[i - 1], x.readings.seconds[i - 1]);
  }

  /** What no phase accounts for in a recorded iteration, by the reported rows: at most the
      iteration's time, and at least minus P - 1 times it, for the P phases of the mode. */
  lemma RowsUnattributed(cfg: Config, runs: seq<RankRun>, j: nat, q: nat, k: nat)
    requires HasSample(cfg, runs, j) && cfg.recordIterations && cfg.recordPhases && q < |runs|
    requires Everywhere(runs, j) && k < |Emitted(SampleOf(cfg, runs, j))|
    ensures var records := Emitted(SampleOf(cfg, runs, j));
            var total, sum := records[k].seconds, Sum(RowTimes(runs[q].results[j].timed.phaseRecords, cfg.phases, |records|, k));
            -Times(if runs[q].ordered then 3 else 5, total) <= total - sum <= total
  {
    hide HasSample, MaxLoc, Column, Emitted, Times, Sum, OwnTimes, SampleOf, MaxOver, RowIndex, Everywhere, ReducedPhase, Accounted;
    var s := SampleOf(cfg, runs, j);
    var e, ordered, n := Emitted(s)[k], runs[q].ordered, cfg.phases;
    SameMode(cfg, runs, j, q);
    var rows, m := runs[q].results[j].timed.phaseRecords, |Emitted(s)|;
    var local := OwnLocals(runs, ordered, j, e.iteration);
    var totals := Column(s.seconds, e.iteration - 1);
    var reduced := RowTimes(rows, n, m, k);
    forall r | 0 <= r < |local|
      ensures Accounted(local[r], totals[r], n)
    {
      OwnAccounted(cfg, runs, j, q, r, e.iteration);
    }
    forall p: nat | p < n
      ensures ReducedPhase(local, n, reduced, p)
    {
      RowJoin(cfg, runs, j, q, p, k);
      RowReduced(runs, ordered, j, e.iteration, p, reduced);
    }
    UnattributedBound(local, totals, n, reduced);
    LongestIsMax(totals);
    EmittedIs(s, k);
  }

  /** All ranks' phases of iteration i. */
  ghost function OwnLocals(runs: seq<RankRun>, ordered: bool, j: nat, i: nat): (local: seq<seq<real>>)
    ensures |local| == |runs|
  {
    seq(|runs|, r requires 0 <= r < |runs| => LocalPhases(ordered, Own(runs[r], j, i)))
  }

  lemma SameMode(cfg: Config, runs: seq<RankRun>, j: nat, q: nat)
    requires HasSample(cfg, runs, j) && q < |runs|
    ensures cfg.phases == (if runs[q].ordered then 4 else 6) && runs[q].ordered == runs[0].ordered
    ensures j < |runs[q].results|
  {
    hide Met, Reported;
    PhasesOfMode(cfg, runs, q);
    assert SampleIn(cfg, runs, q, j);
  }

  lemma EmittedIs(s: Sample, k: nat)
    requires s.seconds != [] && k < |Emitted(s)|
    ensures 1 <= Emitted(s)[k].iteration <= s.iterations
    ensures Emitted(s)[k].seconds == MaxLoc(Column(s.seconds, Emitted(s)[k].iteration - 1)).seconds
  {
  }

  lemma OwnAccounted(cfg: Config, runs: seq<RankRun>, j: nat, q: nat, r: nat, i: nat)
    requires HasSample(cfg, runs, j) && cfg.recordIterations && cfg.recordPhases && q < |runs| && r < |runs|
    requires Everywhere(runs, j) && 1 <= i <= SampleOf(cfg, runs, j).iterations
    ensures Accounted(OwnLocals(runs, runs[q].ordered, j, i)[r], Column(SampleOf(cfg, runs, j).seconds, i - 1)[r], cfg.phases)
  {
    hide HasSample, Elapsed, PhaseTimingSum, LocalPhases, Sum, Own;
    SameMode(cfg, runs, j, q);
    SameMode(cfg, runs, j, r);
    OwnFits(cfg, runs, j, r, i);
    PhasesNonnegative(runs[r].ordered, Own(runs[r], j, i));
  }

  lemma RowReduced(runs: seq<RankRun>, ordered: bool, j: nat, i: nat, p: nat, reduced: seq<real>)
    requires runs != [] && p < |reduced| == (if ordered then 4 else 6)
    requires reduced[p] == MaxLoc(OwnTimes(runs, ordered, j, i, p)).seconds
    ensures ReducedPhase(OwnLocals(runs, ordered, j, i), |reduced|, reduced, p)
  {
    hide MaxLoc, LocalPhases, Own, FieldOf;
    var xs, local := OwnTimes(runs, ordered, j, i, p), OwnLocals(runs, ordered, j, i);
    MaxLocCorrect(xs);
    forall q | 0 <= q < |local|
      ensures local[q][p] == xs[q]
    {
      FieldOfName(ordered, Own(runs[q], j, i), p);
    }
    var r := MaxLoc(xs).rank;
    assert local[r][p] == xs[r];
  }

  // ----- the clock readings behind a phase

  /** The time between the two clock readings of the p-th phase of an exchange. */
  function Interval(clock: nat -> real, e: Exch, p: nat): real {
    if e.collected then clock(e.from + 2 * p + 1) - clock(e.from + 2 * p) else 0.0
  }

  lemma CostByInterval(ordered: bool, clock: nat -> real, e: Exch, p: nat)
    requires Intervals(ordered, clock, e) && e.collected && p < if ordered then 4 else 6
    ensures FieldOf(e.cost, PhaseName(ordered, p)) == Interval(clock, e, p)
  {
    var t := e.from;
    assert t + 2 * 0 == t && t + 2 * 1 == t + 2 && t + 2 * 2 == t + 4 && t + 2 * 3 == t + 6 && t + 2 * 4 == t + 8 && t + 2 * 5 == t + 10;
  }

  ghost function IntervalsOf(clock: nat -> real, run: seq<Exch>, p: nat): (xs: seq<real>)
    ensures |xs| == |run|
  {
    seq(|run|, k requires 0 <= k < |run| => Interval(clock, run[k], p))
  }

  lemma FieldPlus(p: Phases, q: Phases, phase: Phase)
    ensures FieldOf(Plus(p, q), phase) == FieldOf(p, phase) + FieldOf(q, phase) && FieldOf(NO_TIME, phase) == 0.0
  {
  }

  /** What a run of collected exchanges adds to a phase is the sum of that phase's intervals. */
  lemma {:induction false} SumOfIntervals(ordered: bool, clock: nat -> real, run: seq<Exch>, p: nat)
    requires Timings(ordered, clock, run) && p < (if ordered then 4 else 6) && forall k | 0 <= k < |run| :: run[k].collected
    ensures FieldOf(TotalCost(run), PhaseName(ordered, p)) == Sum(IntervalsOf(clock, run, p))
  {
    hide FieldOf, Plus, Intervals, Interval;
    if run == [] {
      FieldPlus(NO_TIME, NO_TIME, PhaseName(ordered, p));
    } else {
      var m := |run| - 1;
      SumOfIntervals(ordered, clock, run[..m], p);
      CostByInterval(ordered, clock, run[m], p);
      TotalCostStep(run[..m], run[m]);
      assert run == run[..m] + [run[m]];
      FieldPlus(TotalCost(run[..m]), run[m].cost, PhaseName(ordered, p));
      assert IntervalsOf(clock, run, p)[..m] == IntervalsOf(clock, run[..m], p);
    }
  }

  /** The timed exchanges of sample j on one rank. */
  ghost function TimedRun(run: RankRun, j: nat): seq<Exch> {
    if j < |run.traces| then RunOf(run.log.exchanges, run.traces[j].made, run.traces[j].at.iterations) else []
  }

  /** The accumulators of a rank at the end of sample j. */
  ghost function AccOf(run: RankRun, j: nat): Phases {
    if j < |run.traces| then run.traces[j].acc else NO_TIME
  }

  /** A phase a rank brings to the averages is the time between that phase's clock readings in the
      timed exchanges of the sample. */
  lemma AccumulatedIntervals(cfg: Config, runs: seq<RankRun>, j: nat, q: nat, p: nat)
    requires HasSample(cfg, runs, j) && cfg.phaseTiming && q < |runs| && p < if runs[q].ordered then 4 else 6
    ensures LocalPhases(runs[q].ordered, AccOf(runs[q], j))[p] == FieldOf(AccOf(runs[q], j), PhaseName(runs[q].ordered, p))
         == Sum(IntervalsOf(runs[q].log.clock, TimedRun(runs[q], j), p))
  {
    hide Met, CalibratedBy, SampleBrings, Spans, Named, ValuesOf, TotalCost, Elapsed, PhaseTimingSum, FieldOf, Intervals, Covered, Readied;
    assert SampleIn(cfg, runs, q, j);
    FieldOfName(runs[q].ordered, runs[q].traces[j].acc, p);
    SumOfIntervals(runs[q].ordered, runs[q].log.clock, TimedRun(runs[q], j), p);
  }

  /** A phase time of one iteration is the time between its two clock readings. */
  lemma OwnInterval(cfg: Config, runs: seq<RankRun>, j: nat, q: nat, i: nat, p: nat)
    requires HasSample(cfg, runs, j) && cfg.recordIterations && cfg.recordPhases && q < |runs| && Everywhere(runs, j)
    requires 1 <= i <= SampleOf(cfg, runs, j).iterations && p < if runs[q].ordered then 4 else 6
    ensures |TimedRun(runs[q], j)| >= i
    ensures FieldOf(Own(runs[q], j, i), PhaseName(runs[q].ordered, p)) == Interval(runs[q].log.clock, TimedRun(runs[q], j)[i - 1], p)
  {
    hide Met, CalibratedBy, SampleBrings, Spans, Named, ValuesOf, TotalCost, Elapsed, PhaseTimingSum, FieldOf, Intervals, Interval, Readied;
    assert SampleIn(cfg, runs, q, j);
    CostByInterval(runs[q].ordered, runs[q].log.clock, TimedRun(runs[q], j)[i - 1], p);
  }
}
