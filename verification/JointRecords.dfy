/** The iterations a run records, in terms of what all ranks read. */
module JointRecords {
  import opened Reduction
  import opened Control
  import opened PhaseTiming
  import opened Records
  import opened Backend
  import opened Driver
  import opened Gather
  import opened Joint
  import opened JointPhases

  /** What rank p read for iteration i of sample j. */
  function Reading(runs: seq<RankRun>, j: nat, p: nat, i: nat): real {
    if p < |runs| && j < |runs[p].traces| && 1 <= i <= |runs[p].traces[j].readings.seconds|
    then runs[p].traces[j].readings.seconds[i - 1] else 0.0
  }

  /** Some rank's reading of the iteration is at least so many microseconds. */
  predicate ReachesAt(runs: seq<RankRun>, j: nat, i: nat, thresholdUs: real, p: nat) {
    p < |runs| && Reading(runs, j, p, i) * 1000000.0 >= thresholdUs
  }

  /** The record names the longest reading of its iteration and the lowest rank that read it. */
  ghost predicate NamesLongest(runs: seq<RankRun>, j: nat, e: IterationRecord) {
    && e.rank < |runs| && Reading(runs, j, e.rank, e.iteration) == e.seconds
    && forall p: nat | p < |runs| :: NotLonger(runs, j, e, p)
  }

  predicate NotLonger(runs: seq<RankRun>, j: nat, e: IterationRecord, p: nat) {
    Reading(runs, j, p, e.iteration) <= e.seconds && (p < e.rank ==> Reading(runs, j, p, e.iteration) < e.seconds)
  }

  ghost predicate HasRecord(records: seq<IterationRecord>, i: nat) {
    exists k :: 0 <= k < |records| && records[k].iteration == i
  }

  lemma ReadingIs(cfg: Config, runs: seq<RankRun>, j: nat, p: nat, i: nat)
    requires HasSample(cfg, runs, j) && cfg.recordIterations && p < |runs| && Everywhere(runs, j)
    requires 1 <= i <= SampleOf(cfg, runs, j).iterations
    ensures Column(SampleOf(cfg, runs, j).seconds, i - 1)[p] == Reading(runs, j, p, i)
  {
    hide HasSample;
    ReadingsLength(cfg, runs, p, j);
  }

  lemma RecordLongest(cfg: Config, runs: seq<RankRun>, j: nat, k: nat)
    requires HasSample(cfg, runs, j) && cfg.recordIterations && Everywhere(runs, j)
    requires k < |Emitted(SampleOf(cfg, runs, j))|
    ensures NamesLongest(runs, j, Emitted(SampleOf(cfg, runs, j))[k])
  {
    hide HasSample, Column, Reading, Emitted, Everywhere, MaxLoc;
    var s := SampleOf(cfg, runs, j);
    var e := Emitted(s)[k];
    EmittedExact(s);
    var xs := Column(s.seconds, e.iteration - 1);
    MaxLocCorrect(xs);
    forall p: nat | p < |runs|
      ensures xs[p] == Reading(runs, j, p, e.iteration)
    {
      ReadingIs(cfg, runs, j, p, e.iteration);
    }
  }

  /** A record is that of a kept position. */
  lemma EmittedAt(s: Sample, k: nat)
    requires s.seconds != [] && k < |Emitted(s)|
    ensures var e, ks := Emitted(s)[k], Kept(s.thresholdUs, Reduced(s));
            && |ks| == |Emitted(s)| && ks[k] < s.iterations && e.iteration == ks[k] + 1
            && MaxLoc(Column(s.seconds, e.iteration - 1)) == TimeRank(e.seconds, e.rank)
  {
    hide MaxLoc, Column, Kept;
  }

  lemma EmittedOrder(s: Sample, a: nat, b: nat)
    requires s.seconds != [] && a < b < |Emitted(s)|
    ensures Emitted(s)[a].iteration < Emitted(s)[b].iteration
  {
    hide MaxLoc, Column, Kept, Emitted, Emits;
    EmittedAt(s, a);
    EmittedAt(s, b);
    KeptExact(s.thresholdUs, Reduced(s));
  }

  lemma EmittedWhen(s: Sample, i: nat)
    requires s.seconds != [] && 1 <= i <= s.iterations
    ensures HasRecord(Emitted(s), i) <==> Emits(s.thresholdUs, MaxLoc(Column(s.seconds, i - 1)).seconds)
  {
    var r := Reduced(s);
    assert r[i - 1] == MaxLoc(Column(s.seconds, i - 1));
    hide MaxLoc, Column, Kept, Emitted, Emits, Reduced;
    var ks := Kept(s.thresholdUs, r);
    KeptExact(s.thresholdUs, r);
    EmittedLength(s);
    if i - 1 in ks {
      var k :| 0 <= k < |ks| && ks[k] == i - 1;
      EmittedAt(s, k);
    }
    if k :| 0 <= k < |Emitted(s)| && Emitted(s)[k].iteration == i {
      EmittedAt(s, k);
    }
  }

  lemma EmittedLength(s: Sample)
    requires s.seconds != []
    ensures |Emitted(s)| == |Kept(s.thresholdUs, Reduced(s))|
  {
    hide Kept, Reduced;
  }

  /** The emitted records, from the reduced times. */
  lemma EmittedExact(s: Sample)
    requires s.seconds != []
    ensures forall a, b | 0 <= a < b < |Emitted(s)| :: Emitted(s)[a].iteration < Emitted(s)[b].iteration
    ensures forall k | 0 <= k < |Emitted(s)| ::
              var e := Emitted(s)[k]; 1 <= e.iteration <= s.iterations
                                      && MaxLoc(Column(s.seconds, e.iteration - 1)) == TimeRank(e.seconds, e.rank)
    ensures forall i: nat | 1 <= i <= s.iterations ::
              HasRecord(Emitted(s), i) <==> Emits(s.thresholdUs, MaxLoc(Column(s.seconds, i - 1)).seconds)
  {
    hide MaxLoc, Column, Emits, Kept, Emitted, HasRecord, Reduced;
    forall a, b | 0 <= a < b < |Emitted(s)|
      ensures Emitted(s)[a].iteration < Emitted(s)[b].iteration
    {
      EmittedOrder(s, a, b);
    }
    forall k | 0 <= k < |Emitted(s)|
      ensures var e := Emitted(s)[k];
              1 <= e.iteration <= s.iterations && MaxLoc(Column(s.seconds, e.iteration - 1)) == TimeRank(e.seconds, e.rank)
    {
      EmittedAt(s, k);
    }
    forall i: nat | 1 <= i <= s.iterations
      ensures HasRecord(Emitted(s), i) <==> Emits(s.thresholdUs, MaxLoc(Column(s.seconds, i - 1)).seconds)
    {
      EmittedWhen(s, i);
    }
  }

  /** Some rank reaches the threshold exactly if the longest reading does. */
  lemma ThresholdReached(cfg: Config, runs: seq<RankRun>, j: nat, i: nat)
    requires HasSample(cfg, runs, j) && cfg.recordIterations && Everywhere(runs, j)
    requires 1 <= i <= SampleOf(cfg, runs, j).iterations
    ensures Emits(cfg.thresholdUs, MaxLoc(Column(SampleOf(cfg, runs, j).seconds, i - 1)).seconds)
            <==> cfg.thresholdUs <= 0.0 || exists p: nat :: ReachesAt(runs, j, i, cfg.thresholdUs, p)
  {
    hide HasSample, Column, Reading, MaxLoc;
    var xs := Column(SampleOf(cfg, runs, j).seconds, i - 1);
    MaxLocCorrect(xs);
    var longest := MaxLoc(xs);
    forall p: nat | p < |runs|
      ensures xs[p] == Reading(runs, j, p, i)
    {
      ReadingIs(cfg, runs, j, p, i);
    }
    if longest.seconds * 1000000.0 >= cfg.thresholdUs {
      assert ReachesAt(runs, j, i, cfg.thresholdUs, longest.rank);
    }
  }

  /** What every rank reports of a sample: its iterations in order, exactly those in which some
      rank's own reading reaches the threshold, or all of them if it is not positive, each with the
      longest reading and the lowest rank that read it; and this rank's own readings of them. */
  lemma ReportedIterations(cfg: Config, runs: seq<RankRun>, j: nat, q: nat)
    requires HasSample(cfg, runs, j) && cfg.recordIterations && q < |runs|
    ensures Everywhere(runs, j)
    ensures var t, n := runs[q].results[j].timed, runs[0].traces[j].at.iterations;
            && t.observed == n && t.stalls == (if cfg.thresholdUs <= 0.0 then 0 else |t.records|)
            && (forall a, b | 0 <= a < b < |t.records| :: t.records[a].iteration < t.records[b].iteration)
            && (forall k | 0 <= k < |t.records| :: 1 <= t.records[k].iteration <= n && NamesLongest(runs, j, t.records[k]))
            && (forall i: nat | 1 <= i <= n ::
                  HasRecord(t.records, i) <==> cfg.thresholdUs <= 0.0 || exists p: nat :: ReachesAt(runs, j, i, cfg.thresholdUs, p))
    ensures var t := runs[q].results[j].timed;
            cfg.recordStalled ==> |t.localRecords| == |t.records| && forall k | 0 <= k < |t.records| ::
              var e := t.records[k];
              t.localRecords[k] == LocalRecord(e.iteration, Reading(runs, j, q, e.iteration), e.seconds, e.rank, Own(runs[q], j, e.iteration))
  {
    hide Met, Reported, Reading, Emitted, MaxLoc, Column, Emits, NamesLongest, HasRecord, ReachesAt, SampleOf, Own, Locals, HasSample;
    SampleJoin(cfg, runs, j, q);
    var s := SampleOf(cfg, runs, j);
    EmittedExact(s);
    SampleSize(cfg, runs, j, q);
    forall k | 0 <= k < |Emitted(s)|
      ensures NamesLongest(runs, j, Emitted(s)[k])
    {
      RecordLongest(cfg, runs, j, k);
    }
    forall i: nat | 1 <= i <= s.iterations
      ensures HasRecord(Emitted(s), i) <==> cfg.thresholdUs <= 0.0 || exists p: nat :: ReachesAt(runs, j, i, cfg.thresholdUs, p)
    {
      ThresholdReached(cfg, runs, j, i);
    }
    if cfg.recordStalled {
      OwnLocalRecords(cfg, runs, j, q);
    }
  }

  lemma SampleSize(cfg: Config, runs: seq<RankRun>, j: nat, q: nat)
    requires HasSample(cfg, runs, j) && cfg.recordIterations && q < |runs| && Everywhere(runs, j)
    ensures var t, s := runs[q].results[j].timed, SampleOf(cfg, runs, j);
            && s.iterations == runs[0].traces[j].at.iterations && s.thresholdUs == cfg.thresholdUs
            && t.observed == s.iterations && t.stalls == if cfg.thresholdUs <= 0.0 then 0 else |t.records|
  {
    hide Met, MeasuredBy, CalibratedBy, SampleBrings, Spans, Named, Kept, Records.Recorded, Locals, PhasesRows, Reply, Replies;
    assert SampleIn(cfg, runs, q, j) && SampleIn(cfg, runs, 0, j);
  }

  lemma OwnLocalRecords(cfg: Config, runs: seq<RankRun>, j: nat, q: nat)
    requires HasSample(cfg, runs, j) && cfg.recordIterations && cfg.recordStalled && q < |runs| && Everywhere(runs, j)
    ensures var t := runs[q].results[j].timed;
            |t.localRecords| == |t.records| && forall k | 0 <= k < |t.records| ::
              var e := t.records[k];
              t.localRecords[k] == LocalRecord(e.iteration, Reading(runs, j, q, e.iteration), e.seconds, e.rank, Own(runs[q], j, e.iteration))
  {
    hide HasSample, Emitted;
    SampleJoin(cfg, runs, j, q);
    ReadingsLength(cfg, runs, q, j);
  }

  // ----- the clock readings behind the times

  /** A reading is the time between the clock readings next to its exchange. */
  lemma ReadingInterval(cfg: Config, runs: seq<RankRun>, j: nat, q: nat, i: nat)
    requires HasSample(cfg, runs, j) && cfg.recordIterations && q < |runs| && Everywhere(runs, j)
    requires 1 <= i <= SampleOf(cfg, runs, j).iterations
    ensures |TimedRun(runs[q], j)| >= i
    ensures var e, clock := TimedRun(runs[q], j)[i - 1], runs[q].log.clock;
            e.from > 0 && Reading(runs, j, q, i) == clock(e.to) - clock(e.from - 1)
  {
    hide Met, CalibratedBy, SampleBrings, Spans, Named, ValuesOf, TotalCost, Elapsed, PhaseTimingSum, Intervals, Readied, Series;
    assert SampleIn(cfg, runs, q, j);
    assert ReadAround(runs[q].ordered, runs[q].log.clock, TimedRun(runs[q], j)[i - 1], runs[q].traces[j].readings.seconds[i - 1]);
  }

  /** The local total is the sum of the readings, or the time from the reading before the first timed
      exchange to the one after the last. */
  lemma LocalTotal(cfg: Config, runs: seq<RankRun>, j: nat, q: nat)
    requires HasSample(cfg, runs, j) && q < |runs| && Everywhere(runs, j)
    ensures TimedRun(runs[q], j) != []
    ensures var run, clock, total := TimedRun(runs[q], j), runs[q].log.clock, runs[q].results[j].timed.localTotal;
            if cfg.recordIterations then total == Sum(runs[q].traces[j].readings.seconds)
            else run[0].from > 0 && total == clock(run[|run| - 1].to) - clock(run[0].from - 1)
  {
    hide Met, CalibratedBy, SampleBrings, Spans, Named, TotalCost, Elapsed, PhaseTimingSum, Intervals, Readied, Series, Covered, Reply,
         PhasesReported, PhasesRows, Locals, Kept, Records.Recorded;
    assert SampleIn(cfg, runs, q, j);
  }
}
