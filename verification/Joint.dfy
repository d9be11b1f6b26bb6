/** All ranks' runs of the benchmark together. A collective call returns to every rank what the
    ranks brought to it, combined; from this the values one rank reports are traced to the clock
    readings of all ranks. */
module Joint {
  import opened Reduction
  import opened Control
  import opened PhaseTiming
  import opened Records
  import opened Backend
  import opened Driver
  import opened Spmd
  import Sorting
  import opened Gather
  import opened PhaseBounds

  /** One rank's finished run. */
  datatype RankRun = RankRun(ordered: bool, log: Log, history: seq<seq<TimeRank>>, results: seq<Result>, traces: seq<Trace>)

  /** What RunBenchmark leaves behind when it reports all samples. */
  ghost predicate Ran(cfg: Config, run: RankRun) {
    && MonotoneClock(run.log.clock) && cfg.averages == cfg.phases == (if run.ordered then 4 else 6)
    && Legal(cfg, run.history) && Logged(cfg, run.log.replies, run.history, run.log.contributed)
    && AllContribute(cfg, run.log.contributed)
    && Reports(cfg, run.ordered, run.log, run.results, run.traces)
    && KeysOf(run.results) == Keys(cfg.halos, cfg.samples)
  }

  lemma BenchmarkRan(b: RcclBackend, cfg: Config, results: seq<Result>, traces: seq<Trace>)
    requires b.Valid() && b.cfg == cfg && Done(b, cfg, Ok(results), traces, |cfg.halos|)
    ensures Ran(cfg, RankRun(b.ordered, LogOf(b), b.history, results, traces))
  {
    hide Reports, Keys, KeysOf, Logged, Legal, MonotoneClock;
    assert cfg.halos[..|cfg.halos|] == cfg.halos;
  }

  /** What every rank brought to its i-th collective call. */
  ghost function AllValues(runs: seq<RankRun>, i: nat): (xs: seq<seq<real>>)
    ensures |xs| == |runs|
  {
    seq(|runs|, p requires 0 <= p < |runs| => ValuesAt(runs[p], i))
  }

  function ValuesAt(run: RankRun, i: nat): seq<real> {
    if i < |run.log.contributed| then run.log.contributed[i].values else []
  }

  /** Rank q's i-th collective call was entered by all ranks and returned their combined values. */
  ghost predicate MetAt(cfg: Config, runs: seq<RankRun>, q: nat, i: nat)
    requires q < |runs| && i < |runs[q].log.contributed|
  {
    var call := Request(cfg, runs[q].log.contributed[i].at);
    && (forall p | 0 <= p < |runs| :: i < |runs[p].log.contributed|)
    && Reply(runs[q].log.replies, i, Elements(call)) == Combine(call, AllValues(runs, i))
  }

  ghost predicate Met(cfg: Config, runs: seq<RankRun>) {
    && (forall q | 0 <= q < |runs| :: Ran(cfg, runs[q]))
    && forall q, i | 0 <= q < |runs| && 0 <= i < |runs[q].log.contributed| :: MetAt(cfg, runs, q, i)
  }

  // ----- the ranks make the same calls

  /** The i-th call of a run, from the results before it. */
  lemma CallAt(cfg: Config, run: RankRun, i: nat)
    requires Ran(cfg, run) && i < |run.log.contributed|
    ensures |Returned(cfg, run.history)| == |run.log.contributed|
    ensures run.log.contributed[i].at == Wait(cfg, Epoch(cfg, Returned(cfg, run.history)[..i]))
    ensures Returned(cfg, run.history)[i] == Reply(run.log.replies, i, Elements(Request(cfg, run.log.contributed[i].at)))
  {
    hide Reports, Keys, KeysOf, Logged, Legal, MonotoneClock, Wait, Epoch, Request, Returned, Points;
    LoggedLength(cfg, run.log.replies, run.history, run.log.contributed);
    LoggedEntry(cfg, run.log.replies, run.history, run.log.contributed, i);
    PointsFollow(cfg, run.history, i);
  }

  lemma {:induction false} SameBefore(cfg: Config, runs: seq<RankRun>, p: nat, q: nat, i: nat)
    requires Met(cfg, runs) && p < |runs| && q < |runs| && i <= |runs[q].log.contributed|
    ensures i <= |Returned(cfg, runs[p].history)| && i <= |Returned(cfg, runs[q].history)|
    ensures Returned(cfg, runs[p].history)[..i] == Returned(cfg, runs[q].history)[..i]
  {
    hide Ran, Wait, Epoch, Request, Returned, Combine, Elements, Reply;
    if i > 0 {
      var m := i - 1;
      SameBefore(cfg, runs, p, q, m);
      assert MetAt(cfg, runs, q, m);
      assert MetAt(cfg, runs, p, m);
      CallAt(cfg, runs[p], m);
      CallAt(cfg, runs[q], m);
      var a, b := Returned(cfg, runs[p].history), Returned(cfg, runs[q].history);
      assert a[..i] == a[..m] + [a[m]] && b[..i] == b[..m] + [b[m]];
    }
  }

  /** Two ranks' i-th collective calls are made at the same point of the program. */
  lemma SamePoint(cfg: Config, runs: seq<RankRun>, p: nat, q: nat, i: nat)
    requires Met(cfg, runs) && p < |runs| && q < |runs| && i < |runs[q].log.contributed|
    ensures i < |runs[p].log.contributed| && runs[p].log.contributed[i].at == runs[q].log.contributed[i].at
  {
    hide Ran, Wait, Epoch, Request, Returned, Combine, Elements, Reply;
    assert MetAt(cfg, runs, q, i);
    SameBefore(cfg, runs, p, q, i);
    CallAt(cfg, runs[p], i);
    CallAt(cfg, runs[q], i);
  }

  lemma SameCount(cfg: Config, runs: seq<RankRun>, p: nat, q: nat)
    requires Met(cfg, runs) && p < |runs| && q < |runs|
    ensures |runs[p].log.contributed| == |runs[q].log.contributed|
  {
    hide Ran;
    if |runs[q].log.contributed| > 0 {
      assert MetAt(cfg, runs, q, |runs[q].log.contributed| - 1);
    }
    if |runs[p].log.contributed| > 0 {
      assert MetAt(cfg, runs, p, |runs[p].log.contributed| - 1);
    }
  }

  lemma {:induction false} StartsOfPoints(cfg: Config, a: seq<Brought>, b: seq<Brought>)
    requires |a| == |b| && forall i | 0 <= i < |a| :: a[i].at == b[i].at
    ensures Starts(cfg, a) == Starts(cfg, b)
  {
    if a != [] {
      StartsOfPoints(cfg, a[..|a| - 1], b[..|b| - 1]);
    }
  }

  /** The j-th samples of two ranks belong together. */
  lemma SameSample(cfg: Config, runs: seq<RankRun>, p: nat, q: nat, j: nat)
    requires Met(cfg, runs) && p < |runs| && q < |runs| && j < |runs[q].results|
    ensures j < |runs[p].results| && |runs[p].traces| == |runs[p].results| && |runs[q].traces| == |runs[q].results|
    ensures runs[p].traces[j].first == runs[q].traces[j].first && runs[p].traces[j].at == runs[q].traces[j].at
  {
    hide Wait, Epoch, Request, Returned, Combine, Elements, Reply, Reported, Starts, Legal, Logged, MonotoneClock;
    var a, b := runs[p].log.contributed, runs[q].log.contributed;
    SameCount(cfg, runs, p, q);
    forall i | 0 <= i < |a|
      ensures a[i].at == b[i].at
    {
      SamePoint(cfg, runs, p, q, i);
    }
    StartsOfPoints(cfg, a, b);
    assert Ran(cfg, runs[p]) && Ran(cfg, runs[q]);
    var fp, fq := FirstsOf(runs[p].traces), FirstsOf(runs[q].traces);
    assert |fp| == |fq| && fp[j] == fq[j];
    StartPoint(cfg, runs[p].ordered, runs[p].log, runs[p].results[j], runs[p].traces[j]);
    StartPoint(cfg, runs[q].ordered, runs[q].log, runs[q].results[j], runs[q].traces[j]);
  }

  /** The first contribution of a sample names the sample. */
  lemma StartPoint(cfg: Config, ordered: bool, log: Log, res: Result, x: Trace)
    requires Reported(cfg, ordered, log, res, x)
    ensures x.first < |log.contributed|
    ensures log.contributed[x.first].at == if cfg.recordIterations then ReduceIterations(x.at) else ReduceTotal(x.at)
    ensures cfg.recordIterations ==> log.contributed[x.first].values == x.readings.seconds
  {
    hide MeasuredBy, CalibratedBy, ValuesOf, PhasesBrought, GatherBrings, Shares, LocalPhases, Named;
    var b := SampleBrings(cfg, ordered, res.timed, x);
    assert log.contributed[x.first] == log.contributed[x.first..x.first + |b|][0] == b[0];
  }

  // ----- what the reductions of a sample return

  ghost predicate BroughtAt(runs: seq<RankRun>, i: nat, xs: seq<seq<real>>) {
    |xs| == |runs| && forall p | 0 <= p < |runs| :: i < |runs[p].log.contributed| && runs[p].log.contributed[i].values == xs[p]
  }

  /** MAXLOC of the i-th elements of all ranks' vectors. */
  function Longest(xs: seq<seq<real>>, count: nat): (r: seq<TimeRank>)
    requires xs != []
    ensures |r| == count
  {
    seq(count, i requires 0 <= i < count => MaxLoc(Column(xs, i)))
  }

  lemma ReductionReturns(cfg: Config, runs: seq<RankRun>, q: nat, i: nat, op: Op, count: nat, xs: seq<seq<real>>)
    requires Met(cfg, runs) && q < |runs| && BroughtAt(runs, i, xs) && (op.MaxTime? || op.MaxTimeRanks?)
    requires Request(cfg, runs[q].log.contributed[i].at) == Reduce(op, count)
    ensures Reply(runs[q].log.replies, i, count) == Longest(xs, count)
  {
    hide Ran, Request, Reply, MaxLoc, Column;
    assert MetAt(cfg, runs, q, i);
    assert AllValues(runs, i) == xs;
  }

  /** The k-th contribution of a sample. */
  lemma SampleEntry(cfg: Config, ordered: bool, log: Log, res: Result, x: Trace, k: nat)
    requires Reported(cfg, ordered, log, res, x) && k < |SampleBrings(cfg, ordered, res.timed, x)|
    ensures x.first + k < |log.contributed|
    ensures log.contributed[x.first + k] == SampleBrings(cfg, ordered, res.timed, x)[k]
  {
    hide MeasuredBy, CalibratedBy, ValuesOf, SampleBrings, Named;
    var b := SampleBrings(cfg, ordered, res.timed, x);
    assert log.contributed[x.first + k] == log.contributed[x.first..x.first + |b|][k];
  }

  /** Sample j of a run, on all ranks. */
  ghost predicate HasSample(cfg: Config, runs: seq<RankRun>, j: nat) {
    Met(cfg, runs) && runs != [] && forall q | 0 <= q < |runs| :: SampleIn(cfg, runs, q, j)
  }

  ghost predicate SampleIn(cfg: Config, runs: seq<RankRun>, q: nat, j: nat)
    requires 0 < |runs|
  {
    && q < |runs| && j < |runs[q].results| == |runs[q].traces| && j < |runs[0].traces|
    && Reported(cfg, runs[q].ordered, runs[q].log, runs[q].results[j], runs[q].traces[j])
    && runs[q].ordered == runs[0].ordered && MonotoneClock(runs[q].log.clock)
    && runs[q].traces[j].at == runs[0].traces[j].at && runs[q].traces[j].first == runs[0].traces[j].first
  }

  lemma SampleEverywhere(cfg: Config, runs: seq<RankRun>, q: nat, j: nat)
    requires Met(cfg, runs) && q < |runs| && j < |runs[q].results|
    ensures HasSample(cfg, runs, j)
  {
    hide Reported, Starts, Legal, Logged, MonotoneClock, Keys, KeysOf;
    SameSample(cfg, runs, 0, q, j);
    forall p | 0 <= p < |runs|
      ensures SampleIn(cfg, runs, p, j)
    {
      SameSample(cfg, runs, p, q, j);
      assert Ran(cfg, runs[p]) && Ran(cfg, runs[0]);
      assert Reported(cfg, runs[p].ordered, runs[p].log, runs[p].results[j], runs[p].traces[j]);
    }
  }

  /** Every rank has a sample j. */
  ghost predicate Everywhere(runs: seq<RankRun>, j: nat) {
    runs != [] && forall q | 0 <= q < |runs| :: j < |runs[q].traces| == |runs[q].results|
  }

  lemma SampleShared(cfg: Config, runs: seq<RankRun>, j: nat)
    requires HasSample(cfg, runs, j)
    ensures Everywhere(runs, j)
  {
    hide Met, Reported;
    forall q | 0 <= q < |runs|
      ensures j < |runs[q].traces| == |runs[q].results|
    {
      assert SampleIn(cfg, runs, q, j);
    }
  }

  /** The time vectors and phases all ranks read in sample j. */
  ghost function SampleOf(cfg: Config, runs: seq<RankRun>, j: nat): (s: Sample)
    requires Everywhere(runs, j)
    ensures |s.seconds| == |s.phases| == |runs| && s.seconds != []
  {
    Sample(cfg.thresholdUs, runs[0].traces[j].at.iterations,
           seq(|runs|, q requires 0 <= q < |runs| => runs[q].traces[j].readings.seconds),
           seq(|runs|, q requires 0 <= q < |runs| => runs[q].traces[j].readings.phases))
  }

  lemma ReadingsLength(cfg: Config, runs: seq<RankRun>, q: nat, j: nat)
    requires HasSample(cfg, runs, j) && q < |runs| && cfg.recordIterations
    ensures |runs[q].traces| > j && |runs[0].traces| > j
    ensures |runs[q].traces[j].readings.seconds| == runs[0].traces[j].at.iterations
  {
    hide Met, MeasuredBy, CalibratedBy, SampleBrings, Spans, Named, PhasesReported, Kept, Recorded, Locals;
    assert SampleIn(cfg, runs, q, j) && SampleIn(cfg, runs, 0, j);
  }

  /** Every rank records the same iterations of a sample: those of the MAXLOC over all ranks'
      readings; its local records are its own readings of them. */
  lemma SampleJoin(cfg: Config, runs: seq<RankRun>, j: nat, q: nat)
    requires HasSample(cfg, runs, j) && cfg.recordIterations && q < |runs|
    ensures Everywhere(runs, j) && ValidSample(SampleOf(cfg, runs, j))
    ensures runs[q].results[j].timed.records == Emitted(SampleOf(cfg, runs, j))
    ensures cfg.recordStalled ==>
              var s := SampleOf(cfg, runs, j);
              Gather.Measured(s, q) && runs[q].results[j].timed.localRecords == Locals(s.seconds[q], s.phases[q], Emitted(s))
  {
    hide Met, MeasuredBy, CalibratedBy, SampleBrings, Spans, Named, Kept, Recorded, Locals, Reported;
    SampleShared(cfg, runs, j);
    var s := SampleOf(cfg, runs, j);
    forall p | 0 <= p < |s.seconds|
      ensures Gather.Measured(s, p)
    {
      ReadingsLength(cfg, runs, p, j);
    }
    ReducedTimes(cfg, runs, j, q);
    assert SampleIn(cfg, runs, q, j);
    SampleValues(cfg, runs[q].ordered, runs[q].log, runs[q].results[j], runs[q].traces[j]);
  }

  lemma SampleValues(cfg: Config, ordered: bool, log: Log, res: Result, x: Trace)
    requires Reported(cfg, ordered, log, res, x) && cfg.recordIterations
    ensures Recording(cfg, SchemaOf(ordered), log.replies, x.first, x.at.iterations, x.readings, res.timed)
  {
    hide MeasuredBy, CalibratedBy, SampleBrings, Spans, Named, Recording;
  }

  /** What the reduction of the time vectors returns. */
  lemma ReducedTimes(cfg: Config, runs: seq<RankRun>, j: nat, q: nat)
    requires HasSample(cfg, runs, j) && cfg.recordIterations && q < |runs| && Everywhere(runs, j)
    ensures var s := SampleOf(cfg, runs, j);
            Reply(runs[q].log.replies, runs[q].traces[j].first, s.iterations) == Reduced(s)
  {
    hide Met, Reported, Reply, MaxLoc, Column;
    var s, first := SampleOf(cfg, runs, j), runs[0].traces[j].first;
    forall p | 0 <= p < |runs|
      ensures first < |runs[p].log.contributed| && runs[p].log.contributed[first].values == s.seconds[p]
      ensures runs[p].log.contributed[first].at == ReduceIterations(runs[0].traces[j].at)
    {
      assert SampleIn(cfg, runs, p, j);
      StartPoint(cfg, runs[p].ordered, runs[p].log, runs[p].results[j], runs[p].traces[j]);
    }
    assert BroughtAt(runs, first, s.seconds);
    ReductionReturns(cfg, runs, q, first, Op.MaxTimeRanks, s.iterations, s.seconds);
    assert SampleIn(cfg, runs, q, j);
    assert Longest(s.seconds, s.iterations) == Reduced(s);
  }

  // ----- totals and phase averages

  lemma TemplateLength(ordered: bool, cfg: Config, at: At, records: seq<IterationRecord>, phases: seq<Phases>)
    requires cfg.phases == (if ordered then 4 else 6) && phases != [] && Within(records, |phases|)
    ensures |PhasesBrought(cfg, SchemaOf(ordered), at, records, phases)| == PhaseCount(cfg, records)
  {
    if cfg.recordPhases && records != [] {
      SchemaLength(ordered, phases[0]);
      PhaseBringsLength(at, SchemaOf(ordered), PhaseValues(SchemaOf(ordered), phases[0]), records, phases, cfg.phases);
    }
  }

  lemma {:induction false} PhaseBringsLength(at: At, schema: Schema, template: seq<PhaseValue>, records: seq<IterationRecord>,
                                             phases: seq<Phases>, n: nat)
    requires Within(records, |phases|) && n <= |template|
    ensures |PhaseBrings(at, schema, template, records, phases, n)| == n
  {
    if n > 0 {
      PhaseBringsLength(at, schema, template, records, phases, n - 1);
    }
  }

  function GatherCount(cfg: Config, records: seq<IterationRecord>): nat {
    if cfg.recordStalled then (if records == [] then 2 else 3) else 0
  }

  /** How many calls a sample makes before the reduction of its total, from its records alone. */
  lemma RecordPartLength(cfg: Config, ordered: bool, log: Log, res: Result, x: Trace)
    requires Reported(cfg, ordered, log, res, x) && cfg.phases == (if ordered then 4 else 6) && cfg.recordIterations
    ensures |RecordPart(cfg, ordered, res.timed, x)| == 1 + PhaseCount(cfg, res.timed.records) + GatherCount(cfg, res.timed.records)
  {
    hide MeasuredBy, CalibratedBy, SampleBrings, Spans, Named, PhasesReported, Kept, Recorded, Locals, PhasesBrought, PhasesRows;
    SampleValues(cfg, ordered, log, res, x);
    if cfg.recordPhases {
      TemplateLength(ordered, cfg, x.at, res.timed.records, x.readings.phases);
    } else {
      assert PhasesBrought(cfg, SchemaOf(ordered), x.at, res.timed.records, x.readings.phases) == [] by {
        NoPhasesBrought(cfg, SchemaOf(ordered), x.at, res.timed.records, x.readings.phases);
      }
    }
  }

  lemma NoPhasesBrought(cfg: Config, schema: Schema, at: At, records: seq<IterationRecord>, phases: seq<Phases>)
    requires !cfg.recordPhases
    ensures PhasesBrought(cfg, schema, at, records, phases) == []
  {
  }

  /** All ranks reduce the total of a sample in the same call. */
  lemma SameTotalAt(cfg: Config, runs: seq<RankRun>, j: nat, p: nat, q: nat)
    requires HasSample(cfg, runs, j) && p < |runs| && q < |runs|
    ensures SampleIn(cfg, runs, p, j) && SampleIn(cfg, runs, q, j)
    ensures TotalAt(cfg, runs[p].ordered, runs[p].results[j].timed, runs[p].traces[j])
         == TotalAt(cfg, runs[q].ordered, runs[q].results[j].timed, runs[q].traces[j])
  {
    hide Met, Reported, SampleOf, Emitted, ValidSample, Locals;
    assert SampleIn(cfg, runs, p, j) && SampleIn(cfg, runs, q, j);
    if cfg.recordIterations {
      SampleJoin(cfg, runs, j, p);
      SampleJoin(cfg, runs, j, q);
      PhasesOfMode(cfg, runs, p);
      PhasesOfMode(cfg, runs, q);
      RecordPartLength(cfg, runs[p].ordered, runs[p].log, runs[p].results[j], runs[p].traces[j]);
      RecordPartLength(cfg, runs[q].ordered, runs[q].log, runs[q].results[j], runs[q].traces[j]);
    }
  }

  lemma PhasesOfMode(cfg: Config, runs: seq<RankRun>, q: nat)
    requires Met(cfg, runs) && q < |runs|
    ensures cfg.averages == cfg.phases == if runs[q].ordered then 4 else 6
  {
    assert Ran(cfg, runs[q]);
  }

  /** The local total every rank brings in sample j. */
  ghost function Totals(runs: seq<RankRun>, j: nat): (xs: seq<real>)
    requires Everywhere(runs, j)
    ensures |xs| == |runs|
  {
    seq(|runs|, q requires 0 <= q < |runs| => runs[q].results[j].timed.localTotal)
  }

  /** A vector of one element per rank. */
  function Singles(xs: seq<real>): (ys: seq<seq<real>>)
    ensures |ys| == |xs|
  {
    seq(|xs|, i requires 0 <= i < |xs| => [xs[i]])
  }

  lemma SinglesColumn(xs: seq<real>)
    ensures Column(Singles(xs), 0) == xs
  {
  }

  /** The entry of the total, and those of the averages behind it. */
  lemma TotalEntry(cfg: Config, ordered: bool, log: Log, res: Result, x: Trace)
    requires Reported(cfg, ordered, log, res, x)
    ensures var i := TotalAt(cfg, ordered, res.timed, x);
            && i < |log.contributed| && log.contributed[i] == Brought(ReduceTotal(x.at), [res.timed.localTotal])
            && res.maxTotal == First(Reply(log.replies, i, 1))
  {
    hide MeasuredBy, CalibratedBy, Spans, Named, RecordPart, PhasesReported, Shares, LocalPhases, Recording, Reply;
    var k := |RecordPart(cfg, ordered, res.timed, x)|;
    SampleEntry(cfg, ordered, log, res, x, k);
  }

  /** The reported total is the largest of the ranks' local totals. */
  lemma TotalJoin(cfg: Config, runs: seq<RankRun>, j: nat, q: nat)
    requires HasSample(cfg, runs, j) && q < |runs|
    ensures Everywhere(runs, j) && runs[q].results[j].maxTotal == MaxOver(Totals(runs, j))
    ensures var n := runs[q].traces[j].at.iterations;
            n == runs[q].results[j].iterations > 0 && runs[q].results[j].maxAverage == MaxOver(Totals(runs, j)) / n as real
  {
    hide Met, Reported, Reply, MaxLoc, Column, TotalAt;
    SampleShared(cfg, runs, j);
    assert SampleIn(cfg, runs, q, j);
    var xs := Totals(runs, j);
    var i := TotalAt(cfg, runs[q].ordered, runs[q].results[j].timed, runs[q].traces[j]);
    forall p | 0 <= p < |runs|
      ensures i < |runs[p].log.contributed| && runs[p].log.contributed[i] == Brought(ReduceTotal(runs[p].traces[j].at), [xs[p]])
    {
      SameTotalAt(cfg, runs, j, p, q);
      TotalEntry(cfg, runs[p].ordered, runs[p].log, runs[p].results[j], runs[p].traces[j]);
    }
    assert BroughtAt(runs, i, Singles(xs));
    ReductionReturns(cfg, runs, q, i, Op.MaxTime, 1, Singles(xs));
    TotalEntry(cfg, runs[q].ordered, runs[q].log, runs[q].results[j], runs[q].traces[j]);
    SinglesColumn(xs);
    LongestIsMax(xs);
    AverageOf(cfg, runs[q].ordered, runs[q].log, runs[q].results[j], runs[q].traces[j]);
  }

  lemma AverageOf(cfg: Config, ordered: bool, log: Log, res: Result, x: Trace)
    requires Reported(cfg, ordered, log, res, x)
    ensures x.at.iterations == res.iterations > 0 && res.maxAverage == res.maxTotal / x.at.iterations as real
  {
    hide CalibratedBy, MeasuredBy, Spans, PhasesReported, Recording, Reply, TotalAt, Readied;
  }

  lemma LongestIsMax(xs: seq<real>)
    requires xs != []
    ensures MaxLoc(xs).seconds == MaxOver(xs)
  {
    MaxLocCorrect(xs);
    var k :| 0 <= k < |xs| && xs[k] == MaxOver(xs);
  }

  lemma ScaledAt(xs: seq<real>, d: real, i: nat)
    requires d > 0.0 && i < |xs|
    ensures Scaled(xs, d)[i] == xs[i] / d
  {
  }

  lemma ScaledMax(xs: seq<real>, d: real)
    requires xs != [] && d > 0.0
    ensures MaxOver(Scaled(xs, d)) == MaxOver(xs) / d
  {
    var ys := Scaled(xs, d);
    var k :| 0 <= k < |xs| && xs[k] == MaxOver(xs);
    hide Scaled;
    assert ys[k] in ys && ys[k] == xs[k] / d by { ScaledAt(xs, d, k); }
    var m :| 0 <= m < |ys| && ys[m] == MaxOver(ys);
    ScaledAt(xs, d, m);
    assert xs[m] in xs;
    assert xs[m] <= MaxOver(xs);
    DivideOrder(xs[m], xs[k], d);
  }

  /** The accumulators of every rank at the end of sample j. */
  ghost function Accumulated(runs: seq<RankRun>, j: nat): (accs: seq<Phases>)
    requires Everywhere(runs, j)
    ensures |accs| == |runs|
  {
    seq(|runs|, q requires 0 <= q < |runs| => runs[q].traces[j].acc)
  }

  /** The contribution of phase m to the averages. */
  lemma AverageEntry(cfg: Config, ordered: bool, log: Log, res: Result, x: Trace, m: nat)
    requires Reported(cfg, ordered, log, res, x) && cfg.phaseTiming && m < cfg.averages == |LocalPhases(ordered, x.acc)|
    ensures x.at.iterations > 0
    ensures var i := TotalAt(cfg, ordered, res.timed, x) + 1 + m;
            && i < |log.contributed|
            && log.contributed[i] == Brought(ReduceAverage(x.at, m), [LocalPhases(ordered, x.acc)[m] / x.at.iterations as real])
  {
    hide MeasuredBy, CalibratedBy, Spans, Named, RecordPart, PhasesReported, LocalPhases, Recording, Reply;
    var k := |RecordPart(cfg, ordered, res.timed, x)| + 1 + m;
    SampleEntry(cfg, ordered, log, res, x, k);
  }

  lemma ReportOf(cfg: Config, ordered: bool, log: Log, res: Result, x: Trace)
    requires Reported(cfg, ordered, log, res, x) && cfg.phaseTiming
    ensures PhasesReported(cfg, ordered, log.replies, TotalAt(cfg, ordered, res.timed, x) + 1, res.maxAverage, res.phases)
    ensures x.at.iterations > 0 && res.maxAverage == res.maxTotal / x.at.iterations as real
    ensures Elapsed(ordered, x.acc) && PhaseTimingSum(x.acc) <= res.timed.localTotal
  {
    hide CalibratedBy, Spans, Named, RecordPart, PhasesReported, LocalPhases, Recording, Reply, Elapsed, PhaseTimingSum, Series, Covered,
         SampleBrings, TotalAt;
  }

  /** Phase m of every rank's averages. */
  ghost function PhaseColumn(runs: seq<RankRun>, j: nat, ordered: bool, n: nat, m: nat): (xs: seq<real>)
    requires Everywhere(runs, j) && n > 0 && m < if ordered then 4 else 6
    ensures |xs| == |runs|
  {
    seq(|runs|, p requires 0 <= p < |runs| => Scaled(LocalPhases(ordered, runs[p].traces[j].acc), n as real)[m])
  }

  lemma PhaseBroughtAt(cfg: Config, runs: seq<RankRun>, j: nat, q: nat, m: nat)
    requires HasSample(cfg, runs, j) && q < |runs| && cfg.phaseTiming && m < cfg.averages
    ensures Everywhere(runs, j) && runs[q].traces[j].at.iterations > 0 && cfg.averages == if runs[q].ordered then 4 else 6
    ensures var i := TotalAt(cfg, runs[q].ordered, runs[q].results[j].timed, runs[q].traces[j]) + 1 + m;
            var xs := PhaseColumn(runs, j, runs[q].ordered, runs[q].traces[j].at.iterations, m);
            && BroughtAt(runs, i, Singles(xs))
            && Request(cfg, runs[q].log.contributed[i].at) == Reduce(Op.MaxTime, 1)
  {
    hide Met, Reported, Reply, TotalAt, LocalPhases;
    SampleShared(cfg, runs, j);
    var ordered, at := runs[q].ordered, runs[q].traces[j].at;
    assert SampleIn(cfg, runs, q, j);
    PhasesOfMode(cfg, runs, q);
    AverageEntry(cfg, ordered, runs[q].log, runs[q].results[j], runs[q].traces[j], m);
    var i := TotalAt(cfg, ordered, runs[q].results[j].timed, runs[q].traces[j]) + 1 + m;
    var xs := PhaseColumn(runs, j, ordered, at.iterations, m);
    forall p | 0 <= p < |runs|
      ensures i < |runs[p].log.contributed| && runs[p].log.contributed[i] == Brought(ReduceAverage(at, m), [xs[p]])
    {
      SameTotalAt(cfg, runs, j, p, q);
      AverageEntry(cfg, runs[p].ordered, runs[p].log, runs[p].results[j], runs[p].traces[j], m);
    }
  }

  lemma PhaseReduced(cfg: Config, runs: seq<RankRun>, j: nat, q: nat, m: nat)
    requires HasSample(cfg, runs, j) && q < |runs| && cfg.phaseTiming && m < cfg.averages && Everywhere(runs, j)
    ensures var n := runs[q].traces[j].at.iterations;
            && n > 0 && m < |LocalPhases(runs[q].ordered, runs[q].results[j].phases.phases)| == cfg.averages
            && ReducedPhase(LocalAverages(runs[q].ordered, Accumulated(runs, j), n), cfg.averages,
                            LocalPhases(runs[q].ordered, runs[q].results[j].phases.phases), m)
  {
    hide Met, Reported, Reply, MaxLoc, Column, TotalAt, LocalPhases, FromPhases, PhaseTimingSum, Elapsed, BroughtAt, Scaled, Longest, Request;
    assert SampleIn(cfg, runs, q, j);
    var ordered, n := runs[q].ordered, runs[q].traces[j].at.iterations;
    PhaseBroughtAt(cfg, runs, j, q, m);
    ReportOf(cfg, ordered, runs[q].log, runs[q].results[j], runs[q].traces[j]);
    var first := TotalAt(cfg, ordered, runs[q].results[j].timed, runs[q].traces[j]) + 1;
    var xs := PhaseColumn(runs, j, ordered, n, m);
    ReductionReturns(cfg, runs, q, first + m, Op.MaxTime, 1, Singles(xs));
    LongestOne(xs);
    assert Firsts(runs[q].log.replies, first, cfg.averages)[m] == First(Reply(runs[q].log.replies, first + m, 1));
    ColumnReduced(ordered, runs, j, n, m, LocalPhases(ordered, runs[q].results[j].phases.phases));
  }

  lemma LongestOne(xs: seq<real>)
    requires xs != []
    ensures First(Longest(Singles(xs), 1)) == MaxLoc(xs).seconds
  {
    hide MaxLoc, Column;
    SinglesColumn(xs);
  }

  lemma ColumnReduced(ordered: bool, runs: seq<RankRun>, j: nat, n: nat, m: nat, reduced: seq<real>)
    requires Everywhere(runs, j) && n > 0 && m < |reduced| == (if ordered then 4 else 6)
    requires reduced[m] == MaxLoc(PhaseColumn(runs, j, ordered, n, m)).seconds
    ensures ReducedPhase(LocalAverages(ordered, Accumulated(runs, j), n), |reduced|, reduced, m)
  {
    hide MaxLoc, Scaled, LocalPhases;
    var xs, local := PhaseColumn(runs, j, ordered, n, m), LocalAverages(ordered, Accumulated(runs, j), n);
    MaxLocCorrect(xs);
    forall p | 0 <= p < |runs|
      ensures |local[p]| == |reduced| && local[p][m] == xs[p]
    {
    }
    var k := MaxLoc(xs).rank;
    assert local[k][m] == reduced[m];
  }

  /** The phase report of every sample of every rank: what no phase accounts for is at most the
      reported average, and at least minus P - 1 times it, for the P phases of the mode. */
  lemma ReportedUnattributed(cfg: Config, runs: seq<RankRun>, j: nat, q: nat)
    requires HasSample(cfg, runs, j) && q < |runs| && cfg.phaseTiming
    ensures SampleIn(cfg, runs, q, j)
    ensures var r := runs[q].results[j];
            -Times(if runs[q].ordered then 3 else 5, r.maxAverage) <= r.phases.unattributed <= r.maxAverage
  {
    hide Met, Reported, TotalAt, LocalPhases, FromPhases, PhaseTimingSum, Elapsed, MaxOver, Times, Scaled, ReducedPhase, LocalAverages;
    SampleShared(cfg, runs, j);
    assert SampleIn(cfg, runs, q, j);
    var ordered, n, r := runs[q].ordered, runs[q].traces[j].at.iterations, runs[q].results[j];
    PhasesOfMode(cfg, runs, q);
    ReportOf(cfg, ordered, runs[q].log, r, runs[q].traces[j]);
    forall p | 0 <= p < |runs|
      ensures FitsOn(ordered, Accumulated(runs, j), Totals(runs, j), p)
    {
      assert SampleIn(cfg, runs, p, j);
      ReportOf(cfg, runs[p].ordered, runs[p].log, runs[p].results[j], runs[p].traces[j]);
    }
    forall m: nat | m < cfg.averages
      ensures ReducedPhase(LocalAverages(ordered, Accumulated(runs, j), n), cfg.averages, LocalPhases(ordered, r.phases.phases), m)
    {
      PhaseReduced(cfg, runs, j, q, m);
    }
    ReducedUnattributed(ordered, Accumulated(runs, j), Totals(runs, j), n, r.phases.phases);
    TotalJoin(cfg, runs, j, q);
    ScaledMax(Totals(runs, j), n as real);
  }

  // ----- the gathered rows

  /** The rows a rank sends. */
  function Packed(local: seq<LocalRecord>, rank: nat): (rows: seq<Row>)
    ensures |rows| == |local|
  {
    seq(|local|, i requires 0 <= i < |local| => Row(local[i], rank))
  }

  /** What the root receives from the first n ranks, in rank order. */
  function Received(runs: seq<RankRun>, j: nat, n: nat): seq<Row>
    requires n <= |runs| && Everywhere(runs, j)
  {
    if n == 0 then [] else Received(runs, j, n - 1) + Packed(runs[n - 1].results[j].timed.localRecords, n - 1)
  }

  lemma SampleShape(cfg: Config, runs: seq<RankRun>, j: nat)
    requires HasSample(cfg, runs, j) && cfg.recordIterations
    ensures Everywhere(runs, j) && ValidSample(SampleOf(cfg, runs, j)) && |SampleOf(cfg, runs, j).seconds| == |runs|
  {
    hide Met, Reported;
    SampleJoin(cfg, runs, j, 0);
  }

  lemma {:induction false} ReceivedIsGathered(cfg: Config, runs: seq<RankRun>, j: nat, n: nat)
    requires HasSample(cfg, runs, j) && cfg.recordIterations && cfg.recordStalled && n <= |runs|
    ensures Everywhere(runs, j) && ValidSample(SampleOf(cfg, runs, j)) && |SampleOf(cfg, runs, j).seconds| == |runs|
    ensures Received(runs, j, n) == Gathered(SampleOf(cfg, runs, j), n, |Emitted(SampleOf(cfg, runs, j))|)
  {
    hide HasSample, Everywhere, SampleOf, Emitted, ValidSample, Packed, FromRank;
    SampleShape(cfg, runs, j);
    if n > 0 {
      ReceivedIsGathered(cfg, runs, j, n - 1);
      RankReceived(cfg, runs, j, n - 1);
    }
  }

  lemma RankReceived(cfg: Config, runs: seq<RankRun>, j: nat, q: nat)
    requires HasSample(cfg, runs, j) && cfg.recordIterations && cfg.recordStalled && q < |runs|
    ensures Everywhere(runs, j) && ValidSample(SampleOf(cfg, runs, j)) && |SampleOf(cfg, runs, j).seconds| == |runs|
    ensures Packed(runs[q].results[j].timed.localRecords, q)
         == FromRank(SampleOf(cfg, runs, j), q, |Emitted(SampleOf(cfg, runs, j))|)
  {
    SampleShape(cfg, runs, j);
    SampleJoin(cfg, runs, j, q);
    hide HasSample, SampleOf, Emitted, ValidSample, Packed, FromRank, Locals;
    PackedLocals(SampleOf(cfg, runs, j), runs[q].results[j].timed.localRecords, q);
  }

  lemma PackedLocals(s: Sample, local: seq<LocalRecord>, q: nat)
    requires ValidSample(s) && q < |s.seconds| && Gather.Measured(s, q) && local == Locals(s.seconds[q], s.phases[q], Emitted(s))
    ensures Packed(local, q) == FromRank(s, q, |Emitted(s)|)
  {
    hide Emitted;
    FromRankLocals(s, q, |Emitted(s)|);
  }

  /** However the root sorts what it receives by iteration and rank, it reports every recorded
      iteration of the sample with every rank's own reading of it, once and in order. */
  lemma GatheredRows(cfg: Config, runs: seq<RankRun>, j: nat, sorted: seq<Row>)
    requires HasSample(cfg, runs, j) && cfg.recordIterations && cfg.recordStalled
    requires Everywhere(runs, j)
    requires multiset(sorted) == multiset(Received(runs, j, |runs|)) && Sorting.IsSorted(sorted, RowLeq())
    ensures Everywhere(runs, j) && ValidSample(SampleOf(cfg, runs, j)) && |SampleOf(cfg, runs, j).seconds| == |runs|
    ensures sorted == Table(SampleOf(cfg, runs, j), |Emitted(SampleOf(cfg, runs, j))|, |runs|)
  {
    hide HasSample, Emitted, ValidSample, SampleOf;
    ReceivedIsGathered(cfg, runs, j, |runs|);
    GatherExact(SampleOf(cfg, runs, j), sorted);
  }

  /** With monotone clocks no reading is negative. */
  lemma ReadingsNonnegative(cfg: Config, runs: seq<RankRun>, j: nat)
    requires HasSample(cfg, runs, j) && cfg.recordIterations
    ensures Everywhere(runs, j) && Nonnegative(SampleOf(cfg, runs, j))
  {
    hide Met, Reported;
    SampleShape(cfg, runs, j);
    var s := SampleOf(cfg, runs, j);
    forall q, i | 0 <= q < |s.seconds| && 0 <= i < |s.seconds[q]|
      ensures s.seconds[q][i] >= 0.0
    {
      assert SampleIn(cfg, runs, q, j);
      ReadingNonnegative(cfg, runs[q].ordered, runs[q].log, runs[q].results[j], runs[q].traces[j], i);
    }
  }

  lemma ReadingNonnegative(cfg: Config, ordered: bool, log: Log, res: Result, x: Trace, i: nat)
    requires Reported(cfg, ordered, log, res, x) && cfg.recordIterations && MonotoneClock(log.clock)
    requires i < |x.readings.seconds|
    ensures x.readings.seconds[i] >= 0.0
  {
    hide CalibratedBy, Spans, Named, ValuesOf, SampleBrings, Series, TotalCost, Elapsed, PhaseTimingSum;
    var run := RunOf(log.exchanges, x.made, x.at.iterations);
    assert ReadAround(ordered, log.clock, run[i], x.readings.seconds[i]);
    assert log.clock(Before(run[i])) <= log.clock(run[i].to);
  }
}
