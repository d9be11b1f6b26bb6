/** run_benchmark of one rank, step by step, against the backend of that rank. The backend's
    preconditions follow Control, so that this code verifies means that it makes the calls of
    Control; its contracts add what the phase accumulators cover. */
module Driver {
  import opened Sequences
  import opened Reduction
  import opened Control
  import opened PhaseTiming
  import opened Records
  import opened Backend

  // ----- series of timed exchanges

  predicate SeriesStart(cfg: Config, c: Ctl, n: nat) {
    n > 0 && ((c.Calibrating? && c.made == 0 && n == cfg.calibration) || (c.Timing? && c.made == 0 && n == c.at.iterations))
  }

  /** Where a rank stands after i of the n exchanges that start at c. */
  function Along(cfg: Config, c: Ctl, n: nat, i: nat): Ctl {
    match c
    case Calibrating(h, _) => if i < n then Calibrating(h, i) else ReduceCalibration(h)
    case Timing(at, _) => if i < n then Timing(at, i) else AfterTiming(cfg, at)
    case _ => c
  }

  lemma AlongStep(cfg: Config, c: Ctl, n: nat, i: nat)
    requires SeriesStart(cfg, c, n) && i < n
    ensures var p := Along(cfg, c, n, i); Request(cfg, p) == Call.Exchange && Move(cfg, p, []) == Along(cfg, c, n, i + 1)
  {
  }

  /** The run consists of the first exchanges of the series, all collected or none. */
  predicate Series(cfg: Config, c: Ctl, n: nat, collected: bool, run: seq<Exch>) {
    forall k | 0 <= k < |run| :: run[k].made == Along(cfg, c, n, k) && run[k].collected == collected
  }

  lemma TotalCostStep(run: seq<Exch>, e: Exch)
    ensures TotalCost(run + [e]) == Plus(TotalCost(run), e.cost)
  {
    assert Costs(run + [e]) == Costs(run) + [e.cost];
    assert (Costs(run) + [e.cost])[..|run|] == Costs(run);
  }

  function Before(e: Exch): nat { if e.from > 0 then e.from - 1 else 0 }

  /** The time between the clock readings next to an exchange. */
  function Around(clock: nat -> real, e: Exch): real { clock(e.to) - clock(Before(e)) }

  /** The time between the readings before the first exchange and after the last. */
  function Lapse(clock: nat -> real, run: seq<Exch>): real
    requires run != []
  {
    clock(run[|run| - 1].to) - clock(Before(run[0]))
  }

  /** The rank has made the exchanges of run since tick0, when the accumulators were before. */
  ghost predicate Underway(b: RcclBackend, c: Ctl, n: nat, before: Phases, made: seq<Exch>, run: seq<Exch>, tick0: nat)
    reads b
  {
    && b.Valid() && b.ctl == Along(b.cfg, c, n, |run|) && b.exchanges == made + run
    && Series(b.cfg, c, n, b.collecting, run) && b.Spent(before, TotalCost(run), tick0)
    && tick0 < b.tick && Between(run, tick0, b.tick) && Timings(b.ordered, b.clock, run)
  }

  /** The phases of each exchange are the intervals between its own clock readings. */
  predicate Timings(ordered: bool, clock: nat -> real, run: seq<Exch>) {
    forall k | 0 <= k < |run| :: Intervals(ordered, clock, run[k])
  }

  lemma TimingsMore(ordered: bool, clock: nat -> real, run: seq<Exch>, e: Exch)
    requires Timings(ordered, clock, run) && Intervals(ordered, clock, e)
    ensures Timings(ordered, clock, run + [e])
  {
    hide Intervals;
  }

  /** The run follows the clock reading tick0, and reading tick comes next. */
  predicate Between(run: seq<Exch>, tick0: nat, tick: nat) {
    if run == [] then tick == tick0 + 1 else run[0].from == tick0 + 1 && run[|run| - 1].to == tick
  }

  lemma SeriesMore(cfg: Config, c: Ctl, n: nat, collected: bool, run: seq<Exch>, e: Exch)
    requires Series(cfg, c, n, collected, run) && e.made == Along(cfg, c, n, |run|) && e.collected == collected
    ensures Series(cfg, c, n, collected, run + [e])
  {
  }

  lemma SpentMore(ordered: bool, before: Phases, run: seq<Exch>, e: Exch)
    requires Elapsed(ordered, TotalCost(run)) && Elapsed(ordered, e.cost)
    ensures var more := TotalCost(run + [e]);
            && Elapsed(ordered, more) && Plus(before, more) == Plus(Plus(before, TotalCost(run)), e.cost)
            && PhaseTimingSum(more) == PhaseTimingSum(TotalCost(run)) + PhaseTimingSum(e.cost)
            && (TotalCost(run) == NO_TIME == e.cost ==> more == NO_TIME)
  {
    TotalCostStep(run, e);
    PlusOrder(before, TotalCost(run), e.cost);
    PlusOrder(e.cost, e.cost, e.cost);
    ElapsedPlus(ordered, TotalCost(run), e.cost);
  }

  method TimedExchange(b: RcclBackend, ghost c: Ctl, ghost n: nat, ghost before: Phases, ghost made: seq<Exch>,
                       ghost run: seq<Exch>, ghost tick0: nat)
    returns (ghost more: seq<Exch>)
    requires SeriesStart(b.cfg, c, n) && |run| < n && Underway(b, c, n, before, made, run, tick0)
    modifies b`tick, b`acc, b`ctl, b`history, b`exchanges
    ensures |more| == |run| + 1 && Underway(b, c, n, before, made, more, tick0)
  {
    hide Elapsed, Plus, PhaseTimingSum, Move, Along, Series, TotalCost, Timings, Intervals;
    AlongStep(b.cfg, c, n, |run|);
    ghost var e := b.Exchange();
    SpentMore(b.ordered, before, run, e);
    SeriesMore(b.cfg, c, n, b.collecting, run, e);
    TimingsMore(b.ordered, b.clock, run, e);
    more := run + [e];
    Associative(made, run, [e]);
    assert b.tick == e.to && (run == [] ==> e.from == tick0 + 1);
  }

  method TimeExchanges(b: RcclBackend, iterations: nat) returns (seconds: real, ghost run: seq<Exch>)
    requires b.Valid() && SeriesStart(b.cfg, b.ctl, iterations)
    modifies b`tick, b`acc, b`ctl, b`history, b`exchanges
    ensures b.Valid() && b.ctl == Along(b.cfg, old(b.ctl), iterations, iterations)
    ensures b.exchanges == old(b.exchanges) + run && |run| == iterations
    ensures Series(b.cfg, old(b.ctl), iterations, b.collecting, run)
    ensures b.acc == Plus(old(b.acc), TotalCost(run)) && PhaseTimingSum(TotalCost(run)) <= seconds
    ensures seconds == Lapse(b.clock, run) && run[0].from > 0 && Timings(b.ordered, b.clock, run)
  {
    hide Elapsed, Plus, PhaseTimingSum, TotalCost, Series, Timings, After, Legal, Logged, Move;
    ghost var c, before, made, tick0 := b.ctl, b.acc, b.exchanges, b.tick;
    run := [];
    NothingTimed(b.ordered, b.clock, b.cfg, c, iterations, b.collecting, before);
    var start := b.Now();
    for i := 0 to iterations
      invariant |run| == i && Underway(b, c, iterations, before, made, run, tick0)
    {
      run := TimedExchange(b, c, iterations, before, made, run, tick0);
    }
    var now := b.Now();
    assert MonotoneClock(b.clock);
    seconds := now - start;
  }

  lemma NothingTimed(ordered: bool, clock: nat -> real, cfg: Config, c: Ctl, n: nat, collected: bool, before: Phases)
    ensures Series(cfg, c, n, collected, []) && Timings(ordered, clock, [])
    ensures TotalCost([]) == NO_TIME && Elapsed(ordered, NO_TIME) && PhaseTimingSum(NO_TIME) == 0.0
    ensures Plus(before, NO_TIME) == before
  {
  }

  // ----- iterations timed one by one

  /** What was read for each exchange of the run: its seconds lie between the clock readings
      next to it and cover its phases, and the difference of the accumulators around it is its
      own cost. */
  ghost predicate Covered(ordered: bool, clock: nat -> real, run: seq<Exch>, seconds: seq<real>, phases: seq<Phases>, recordPhases: bool) {
    && |seconds| == |run| && |phases| == (if recordPhases then |run| else 0)
    && (forall k | 0 <= k < |run| :: ReadAround(ordered, clock, run[k], seconds[k]))
    && (forall k | 0 <= k < |phases| :: phases[k] == run[k].cost)
  }

  predicate ReadAround(ordered: bool, clock: nat -> real, e: Exch, t: real) {
    && t == Around(clock, e) && 0 < e.from <= e.to && Elapsed(ordered, e.cost) && PhaseTimingSum(e.cost) <= t
    && Intervals(ordered, clock, e)
  }

  lemma CoveredMore(ordered: bool, clock: nat -> real, run: seq<Exch>, seconds: seq<real>, phases: seq<Phases>, recordPhases: bool,
                    e: Exch, t: real)
    requires Covered(ordered, clock, run, seconds, phases, recordPhases) && ReadAround(ordered, clock, e, t)
    ensures Covered(ordered, clock, run + [e], seconds + [t], phases + (if recordPhases then [e.cost] else []), recordPhases)
  {
    hide ReadAround;
  }

  method TimeIteration(b: RcclBackend, recordPhases: bool)
    returns (seconds: real, phases: seq<Phases>, ghost e: Exch)
    requires b.Valid() && Request(b.cfg, b.ctl) == Call.Exchange && b.collecting == b.enabled
    modifies b`tick, b`acc, b`ctl, b`history, b`exchanges, b`iterationStart, b`collecting
    ensures b.Valid() && b.ctl == Move(b.cfg, old(b.ctl), []) && b.collecting == b.enabled
    ensures b.exchanges == old(b.exchanges) + [e]
    ensures e.made == old(b.ctl) && e.collected == (b.enabled || recordPhases)
    ensures Elapsed(b.ordered, e.cost) && b.acc == Plus(old(b.acc), e.cost) && (!e.collected ==> e.cost == NO_TIME)
    ensures ReadAround(b.ordered, b.clock, e, seconds) && PhaseTimingSum(e.cost) <= seconds
    ensures phases == if recordPhases then [e.cost] else []
  {
    hide PhaseTimingSum, Plus, Since, Move, Elapsed, Intervals, After, Legal, Logged;
    phases := [];
    if recordPhases {
      b.BeginIterationPhaseTiming();
    }
    ghost var before := b.acc;
    ghost var tick0 := b.tick;
    var start := b.Now();
    ghost var tick1 := b.tick;
    e := b.Exchange();
    ghost var tick2 := b.tick;
    var now := b.Now();
    assert b.clock(tick0) <= b.clock(tick1) by { assert MonotoneClock(b.clock); }
    seconds := now - start;
    if recordPhases {
      ElapsedPlus(b.ordered, before, e.cost);
      var delta := b.EndIterationPhaseTiming(seconds);
      phases := [delta.phases];
    }
  }

  method TimeIterations(b: RcclBackend, at: At, recordPhases: bool)
    returns (total: real, seconds: seq<real>, phases: seq<Phases>, ghost run: seq<Exch>)
    requires b.Valid() && b.ctl == Timing(at, 0) && at.iterations > 0 && b.collecting == b.enabled
    modifies b`tick, b`acc, b`ctl, b`history, b`exchanges, b`iterationStart, b`collecting
    ensures b.Valid() && b.ctl == AfterTiming(b.cfg, at) && b.collecting == b.enabled
    ensures b.exchanges == old(b.exchanges) + run && |run| == at.iterations
    ensures Series(b.cfg, Timing(at, 0), at.iterations, b.enabled || recordPhases, run)
    ensures b.acc == Plus(old(b.acc), TotalCost(run)) && PhaseTimingSum(TotalCost(run)) <= total
    ensures Covered(b.ordered, b.clock, run, seconds, phases, recordPhases) && total == Sum(seconds)
  {
    hide PhaseTimingSum, Plus, Elapsed, Move, Series, Covered, TotalCost, AfterTiming, Around, ReadAround, Intervals, After, Legal, Logged;
    ghost var before, made := b.acc, b.exchanges;
    StartRun(b.ordered, b.clock, b.cfg, at, b.enabled || recordPhases, recordPhases, before);
    run := [];
    total, seconds, phases := 0.0, [], [];
    for i := 0 to at.iterations
      invariant b.Valid() && b.ctl == Along(b.cfg, Timing(at, 0), at.iterations, i) && b.collecting == b.enabled
      invariant |run| == i && b.exchanges == made + run
      invariant Series(b.cfg, Timing(at, 0), at.iterations, b.enabled || recordPhases, run)
      invariant Elapsed(b.ordered, TotalCost(run)) && b.acc == Plus(before, TotalCost(run))
      invariant PhaseTimingSum(TotalCost(run)) <= total == Sum(seconds)
      invariant Covered(b.ordered, b.clock, run, seconds, phases, recordPhases)
    {
      AlongStep(b.cfg, Timing(at, 0), at.iterations, i);
      var t, p, e := TimeIteration(b, recordPhases);
      SpentMore(b.ordered, before, run, e);
      SeriesMore(b.cfg, Timing(at, 0), at.iterations, b.enabled || recordPhases, run, e);
      CoveredMore(b.ordered, b.clock, run, seconds, phases, recordPhases, e, t);
      Associative(made, run, [e]);
      assert (seconds + [t])[..|seconds|] == seconds;
      total, seconds, phases, run := total + t, seconds + [t], phases + p, run + [e];
    }
  }

  lemma StartRun(ordered: bool, clock: nat -> real, cfg: Config, at: At, collected: bool, recordPhases: bool, before: Phases)
    ensures Series(cfg, Timing(at, 0), at.iterations, collected, []) && Covered(ordered, clock, [], [], [], recordPhases)
    ensures TotalCost([]) == NO_TIME && Elapsed(ordered, NO_TIME) && PhaseTimingSum(NO_TIME) == 0.0
    ensures Plus(before, NO_TIME) == before
  {
  }

  /** The per-iteration differences add up to the change of the accumulators. */
  lemma DeltasSum(ordered: bool, clock: nat -> real, run: seq<Exch>, seconds: seq<real>, phases: seq<Phases>)
    requires Covered(ordered, clock, run, seconds, phases, true)
    ensures TotalOf(phases) == TotalCost(run)
  {
    assert phases == Costs(run);
  }

  // ----- what a sample records

  /** What a rank brings to the phase reductions of a sample. */
  ghost function PhaseBrings(at: At, schema: Schema, template: seq<PhaseValue>, records: seq<IterationRecord>, phases: seq<Phases>, n: nat)
    : seq<Brought>
    requires Within(records, |phases|) && n <= |template|
  {
    if n == 0 then []
    else
      PhaseBrings(at, schema, template, records, phases, n - 1)
      + [Brought(ReducePhase(at, |records|, n - 1), PhaseVector(schema, template[n - 1].phase, records, phases))]
  }

  predicate Answered(records: seq<IterationRecord>, replies: seq<seq<TimeRank>>) {
    forall p | 0 <= p < |replies| :: |replies[p]| == |records|
  }

  /** The replies to m reductions of count elements each. */
  function Replies(replies: (nat, nat) -> TimeRank, i: nat, count: nat, m: nat): (rs: seq<seq<TimeRank>>)
    ensures |rs| == m && forall p | 0 <= p < m :: rs[p] == Reply(replies, i + p, count)
  {
    seq(m, p requires 0 <= p => Reply(replies, i + p, count))
  }

  ghost function AllRows(template: seq<PhaseValue>, records: seq<IterationRecord>, replies: seq<seq<TimeRank>>): seq<PhaseRecord>
    requires |replies| <= |template| && Answered(records, replies)
  {
    if replies == [] then []
    else
      var m := |replies| - 1;
      AllRows(template, records, replies[..m]) + PhaseRows(template[m].phase, records, replies[m])
  }

  lemma AllRowsStep(template: seq<PhaseValue>, records: seq<IterationRecord>, replies: seq<seq<TimeRank>>, reply: seq<TimeRank>)
    requires |replies| < |template| && Answered(records, replies) && |reply| == |records|
    ensures Answered(records, replies + [reply])
    ensures AllRows(template, records, replies + [reply])
         == AllRows(template, records, replies) + PhaseRows(template[|replies|].phase, records, reply)
  {
    assert (replies + [reply])[..|replies|] == replies;
  }

  lemma RepliesStep(replies: (nat, nat) -> TimeRank, i: nat, count: nat, m: nat)
    ensures Replies(replies, i, count, m + 1) == Replies(replies, i, count, m) + [Reply(replies, i + m, count)]
  {
  }

  /** One reduction per phase of the schema, over the recorded iterations. */
  method ReducePhases(b: RcclBackend, schema: Schema, template: seq<PhaseValue>, ghost at: At,
                      records: seq<IterationRecord>, phases: seq<Phases>)
    returns (rows: seq<PhaseRecord>)
    requires b.Placed() && b.ctl == ReducePhase(at, |records|, 0) && Within(records, |phases|)
    requires |template| == b.cfg.phases > 0
    modifies b`received, b`ctl, b`history, b`contributed
    ensures b.Placed() && b.ctl == AfterPhases(b.cfg, at, |records|)
    ensures b.contributed == old(b.contributed) + PhaseBrings(at, schema, template, records, phases, |template|)
    ensures rows == AllRows(template, records, Replies(b.replies, old(b.received), |records|, |template|))
    ensures b.received == old(b.received) + |template|
  {
    hide AfterPhases, PhaseVector, PhaseRows, Replies, Reply, After, Legal, Logged;
    rows := [];
    ghost var before, start := b.contributed, b.received;
    assert Replies(b.replies, start, |records|, 0) == [];
    for p := 0 to |template|
      invariant b.Placed() && b.received == start + p
      invariant b.ctl == if p < |template| then ReducePhase(at, |records|, p) else AfterPhases(b.cfg, at, |records|)
      invariant b.contributed == before + PhaseBrings(at, schema, template, records, phases, p)
      invariant rows == AllRows(template, records, Replies(b.replies, start, |records|, p))
    {
      var local := LocalPhaseSeconds(schema, template[p].phase, records, phases);
      Associative(before, PhaseBrings(at, schema, template, records, phases, p), [Brought(b.ctl, local)]);
      var reply := b.MaxTimeRanks(local);
      RepliesStep(b.replies, start, |records|, p);
      AllRowsStep(template, records, Replies(b.replies, start, |records|, p), reply);
      rows := AppendPhaseRows(rows, template[p].phase, records, reply);
    }
  }

  /** What a sample leaves behind: its local total and, when iterations are recorded, the rest. */
  datatype Timed = Timed(localTotal: real, observed: nat, stalls: nat, records: seq<IterationRecord>,
                         phaseRecords: seq<PhaseRecord>, localRecords: seq<LocalRecord>)

  /** One rank's own readings of a recorded sample. */
  datatype Readings = Readings(seconds: seq<real>, phases: seq<Phases>)

  /** The number of phase reductions a sample makes. */
  function PhaseCount(cfg: Config, records: seq<IterationRecord>): nat {
    if cfg.recordPhases && records != [] then cfg.phases else 0
  }

  /** The records, phase rows and local records are those of the replies from first on and of
      this rank's own readings. */
  ghost predicate Recording(cfg: Config, schema: Schema, replies: (nat, nat) -> TimeRank, first: nat, iterations: nat,
                            r: Readings, t: Timed)
  {
    && |r.seconds| == iterations == t.observed
    && |r.phases| == (if cfg.recordPhases then iterations else 0)
    && t.localTotal == Sum(r.seconds)
    && var reduced := Reply(replies, first, iterations);
    && t.records == Recorded(reduced, Kept(cfg.thresholdUs, reduced)) && Within(t.records, iterations)
    && t.stalls == (if cfg.thresholdUs <= 0.0 then 0 else |t.records|)
    && t.localRecords == (if cfg.recordStalled then Locals(r.seconds, r.phases, t.records) else [])
    && (if cfg.recordPhases && t.records != []
        then PhasesRows(schema, t.records, r.phases, Replies(replies, first + 1, |t.records|, cfg.phases), t.phaseRecords)
        else t.phaseRecords == [])
  }

  /** One row per phase of the schema and recorded iteration, with the reduced times. */
  ghost predicate PhasesRows(schema: Schema, records: seq<IterationRecord>, phases: seq<Phases>,
                             replies: seq<seq<TimeRank>>, rows: seq<PhaseRecord>)
  {
    && |phases| > 0 && Answered(records, replies) && |replies| == |PhaseValues(schema, phases[0])|
    && rows == AllRows(PhaseValues(schema, phases[0]), records, replies)
  }

  /** What a rank brings to the phase reductions, if there are any. */
  ghost function PhasesBrought(cfg: Config, schema: Schema, at: At, records: seq<IterationRecord>, phases: seq<Phases>): seq<Brought> {
    if cfg.recordPhases && records != [] && phases != [] && Within(records, |phases|) then
      var template := PhaseValues(schema, phases[0]);
      PhaseBrings(at, schema, template, records, phases, |template|)
    else []
  }

  /** What a rank brings to all the collective calls of a recorded sample. */
  ghost function RecordBrings(cfg: Config, schema: Schema, at: At, r: Readings, records: seq<IterationRecord>, least: real,
                              consistent: bool): seq<Brought>
  {
    [Brought(ReduceIterations(at), r.seconds)]
    + PhasesBrought(cfg, schema, at, records, r.phases)
    + (if cfg.recordStalled then GatherBrings(at, |records|, least, consistent) else [])
  }

  lemma SchemaLength(ordered: bool, p: Phases)
    ensures |PhaseValues(SchemaOf(ordered), p)| == if ordered then 4 else 6
  {
  }

  method TimeExchangesWithIterationRecords(b: RcclBackend, cfg: Config, at: At)
    returns (t: Timed, consistent: bool, ghost r: Readings, ghost run: seq<Exch>)
    requires b.Valid() && b.cfg == cfg && cfg.recordIterations && b.ctl == Timing(at, 0) && at.iterations > 0
    requires b.collecting == b.enabled && (cfg.recordStalled ==> cfg.recordPhases)
    modifies b`tick, b`acc, b`received, b`ctl, b`history, b`exchanges, b`iterationStart, b`collecting, b`contributed
    ensures b.Valid() && b.collecting == b.enabled && b.ctl == if consistent then ReduceTotal(at) else Inconsistent
    ensures b.exchanges == old(b.exchanges) + run && |run| == at.iterations
    ensures Series(cfg, Timing(at, 0), at.iterations, b.enabled || cfg.recordPhases, run)
    ensures b.acc == Plus(old(b.acc), TotalCost(run)) && PhaseTimingSum(TotalCost(run)) <= t.localTotal
    ensures Covered(b.ordered, b.clock, run, r.seconds, r.phases, cfg.recordPhases)
    ensures Recording(cfg, SchemaOf(b.ordered), b.replies, old(b.received), at.iterations, r, t)
    ensures exists least :: b.contributed == old(b.contributed)
                                             + RecordBrings(cfg, SchemaOf(b.ordered), at, r, t.records, least, consistent)
  {
    hide PhaseTimingSum, Plus, Elapsed, Series, Covered, TotalCost, Recording, RecordBrings, After, Legal, Logged, AfterTiming;
    var total, seconds, phases;
    total, seconds, phases, run := TimeIterations(b, at, cfg.recordPhases);
    CoveredLengths(b.ordered, b.clock, run, seconds, phases, cfg.recordPhases);
    assert AfterTiming(cfg, at) == ReduceIterations(at) by { RecordingFirst(cfg, at); }
    t, consistent, r := RecordSample(b, cfg, at, total, seconds, phases);
  }

  lemma RecordingFirst(cfg: Config, at: At)
    requires cfg.recordIterations
    ensures AfterTiming(cfg, at) == ReduceIterations(at)
  {
  }

  method RecordSample(b: RcclBackend, cfg: Config, at: At, total: real, seconds: seq<real>, phases: seq<Phases>)
    returns (t: Timed, consistent: bool, ghost r: Readings)
    requires b.Placed() && b.Timed() && b.cfg == cfg && b.ctl == ReduceIterations(at)
    requires cfg.recordStalled ==> cfg.recordPhases
    requires total == Sum(seconds) && |seconds| == at.iterations && |phases| == if cfg.recordPhases then at.iterations else 0
    modifies b`received, b`ctl, b`history, b`contributed
    ensures b.Placed() && b.ctl == if consistent then ReduceTotal(at) else Inconsistent
    ensures r.seconds == seconds && r.phases == phases && t.localTotal == total
    ensures Recording(cfg, SchemaOf(b.ordered), b.replies, old(b.received), at.iterations, r, t)
    ensures exists least :: b.contributed == old(b.contributed)
                                             + RecordBrings(cfg, SchemaOf(b.ordered), at, r, t.records, least, consistent)
  {
    hide PhaseTimingSum, Plus, Elapsed, Sum, PhaseValues, Kept, Recorded, Locals, AllRows, PhaseBrings, After, Legal, Logged, Reply,
         Replies, PhasesRows, PhasesBrought, GatherBrings;
    r := Readings(seconds, phases);
    ghost var before := b.contributed;
    var reductions := b.MaxTimeRanks(seconds);
    var records, stalls, localRecords := RecordIterations(cfg.thresholdUs, cfg.recordStalled, reductions, seconds, phases);
    LocalsLength(seconds, phases, records);
    RecordedLength(reductions, Kept(cfg.thresholdUs, reductions));
    ghost var own := b.contributed;
    var rows := ReduceRecordedPhases(b, cfg, at, records, phases);
    consistent := true;
    ghost var least := First(Reply(b.replies, b.received, 1));
    ghost var brought := b.contributed;
    if cfg.recordStalled {
      consistent := b.GatherStalledRankTimings(|localRecords|);
    }
    t := Timed(total, at.iterations, stalls, records, rows, localRecords);
    AppendThree(before, [Brought(ReduceIterations(at), seconds)], PhasesBrought(cfg, SchemaOf(b.ordered), at, records, phases),
                if cfg.recordStalled then GatherBrings(at, |records|, least, consistent) else []);
    assert b.contributed == before + RecordBrings(cfg, SchemaOf(b.ordered), at, r, t.records, least, consistent);
  }

  lemma AppendThree<T>(a: seq<T>, b: seq<T>, c: seq<T>, d: seq<T>)
    ensures a + b + c + d == a + (b + c + d)
    ensures a + [] == a
  {
  }

  method ReduceRecordedPhases(b: RcclBackend, cfg: Config, ghost at: At, records: seq<IterationRecord>, phases: seq<Phases>)
    returns (rows: seq<PhaseRecord>)
    requires b.Placed() && b.Timed() && b.cfg == cfg && b.ctl == AfterKept(cfg, at, |records|)
    requires cfg.recordPhases ==> Within(records, |phases|)
    modifies b`received, b`ctl, b`history, b`contributed
    ensures b.Placed() && b.ctl == AfterPhases(cfg, at, |records|)
    ensures b.contributed == old(b.contributed) + PhasesBrought(cfg, SchemaOf(b.ordered), at, records, phases)
    ensures if cfg.recordPhases && records != []
            then PhasesRows(SchemaOf(b.ordered), records, phases, Replies(b.replies, old(b.received), |records|, cfg.phases), rows)
            else rows == []
  {
    hide Elapsed, PhaseValues, AllRows, PhaseBrings, After, Legal, Logged, Reply, Replies;
    rows := [];
    if cfg.recordPhases && records != [] {
      var schema := SchemaOf(b.ordered);
      assert 1 <= records[0].iteration <= |phases|;
      SchemaLength(b.ordered, phases[0]);
      rows := ReducePhases(b, schema, PhaseValues(schema, phases[0]), at, records, phases);
    }
  }

  lemma CoveredTimings(ordered: bool, clock: nat -> real, run: seq<Exch>, seconds: seq<real>, phases: seq<Phases>, recordPhases: bool)
    requires Covered(ordered, clock, run, seconds, phases, recordPhases)
    ensures Timings(ordered, clock, run)
  {
    hide Intervals, Elapsed, PhaseTimingSum;
    forall k | 0 <= k < |run|
      ensures Intervals(ordered, clock, run[k])
    {
      assert ReadAround(ordered, clock, run[k], seconds[k]);
    }
  }

  lemma CoveredLengths(ordered: bool, clock: nat -> real, run: seq<Exch>, seconds: seq<real>, phases: seq<Phases>, recordPhases: bool)
    requires Covered(ordered, clock, run, seconds, phases, recordPhases)
    ensures |seconds| == |run| && |phases| == if recordPhases then |run| else 0
  {
  }

  lemma LocalsLength(seconds: seq<real>, phases: seq<Phases>, records: seq<IterationRecord>)
    requires Within(records, |seconds|)
    ensures |Locals(seconds, phases, records)| == |records|
  {
  }

  lemma RecordedLength(reply: seq<TimeRank>, ks: seq<nat>)
    requires forall j | 0 <= j < |ks| :: ks[j] < |reply|
    ensures |Recorded(reply, ks)| == |ks|
  {
  }

  // ----- what a rank leaves behind

  /** Phases are collected for the timed exchanges of the samples and for no other. */
  predicate OnlyTimed(cfg: Config, e: Exch) {
    e.collected <==> e.made.Timing? && (cfg.phaseTiming || cfg.recordPhases)
  }

  ghost predicate Books(cfg: Config, exchanges: seq<Exch>) {
    forall i | 0 <= i < |exchanges| :: OnlyTimed(cfg, exchanges[i])
  }

  lemma BooksMore(cfg: Config, exchanges: seq<Exch>, more: seq<Exch>)
    requires Books(cfg, exchanges) && Books(cfg, more)
    ensures Books(cfg, exchanges + more)
  {
    hide OnlyTimed;
  }

  lemma SeriesTimed(cfg: Config, c: Ctl, n: nat, collected: bool, run: seq<Exch>)
    requires SeriesStart(cfg, c, n) && Series(cfg, c, n, collected, run) && |run| <= n
    requires collected <==> c.Timing? && (cfg.phaseTiming || cfg.recordPhases)
    ensures Books(cfg, run)
  {
    forall i | 0 <= i < |run|
      ensures OnlyTimed(cfg, run[i])
    {
      assert run[i].made == Along(cfg, c, n, i);
    }
  }

  /** The clock a rank reads, the replies it gets, its exchanges and its contributions so far. */
  datatype Log = Log(clock: nat -> real, replies: (nat, nat) -> TimeRank, exchanges: seq<Exch>, contributed: seq<Brought>)

  ghost function LogOf(b: RcclBackend): Log
    reads b`exchanges, b`contributed
  {
    Log(b.clock, b.replies, b.exchanges, b.contributed)
  }

  ghost predicate Extends(log: Log, later: Log) {
    && later.clock == log.clock && later.replies == log.replies
    && log.exchanges <= later.exchanges && log.contributed <= later.contributed
  }

  predicate Spans<T(==)>(xs: seq<T>, start: nat, ys: seq<T>) {
    start + |ys| <= |xs| && xs[start..start + |ys|] == ys
  }

  lemma SpansLonger<T>(xs: seq<T>, xs': seq<T>, start: nat, ys: seq<T>)
    requires xs <= xs' && Spans(xs, start, ys)
    ensures Spans(xs', start, ys)
  {
    assert xs'[start..start + |ys|] == xs[start..start + |ys|];
  }

  lemma SpansAppended<T>(xs: seq<T>, ys: seq<T>)
    ensures Spans(xs + ys, |xs|, ys) && xs <= xs + ys
  {
  }

  /** n exchanges from one on, if there are that many. */
  function RunOf(exchanges: seq<Exch>, start: nat, n: nat): seq<Exch> {
    if start + n <= |exchanges| then exchanges[start..start + n] else []
  }

  lemma RunLonger(exchanges: seq<Exch>, exchanges': seq<Exch>, start: nat, n: nat)
    requires exchanges <= exchanges' && |RunOf(exchanges, start, n)| == n
    ensures RunOf(exchanges', start, n) == RunOf(exchanges, start, n)
  {
    if start + n <= |exchanges| {
      assert exchanges'[start..start + n] == exchanges[start..start + n];
    }
  }

  lemma RunAppended(exchanges: seq<Exch>, run: seq<Exch>)
    ensures RunOf(exchanges + run, |exchanges|, |run|) == run
  {
  }

  /** The calibration of a halo length: its exchanges, its contribution and the local time. */
  datatype Calibration = Calibration(made: nat, at: nat, seconds: real)

  /** The local time is that of the calibration exchanges, it was brought to the reduction, and
      the iteration count follows from what came back. */
  ghost predicate CalibratedBy(cfg: Config, log: Log, h: nat, iterations: nat, cal: Calibration) {
    && cfg.calibration > 0
    && var run := RunOf(log.exchanges, cal.made, cfg.calibration);
    && |run| == cfg.calibration && Series(cfg, Calibrating(h, 0), cfg.calibration, false, run)
    && cal.seconds == Lapse(log.clock, run)
    && Spans(log.contributed, cal.at, [Brought(ReduceCalibration(h), [cal.seconds])])
    && Warmed(log, h, cal.made, cal.at)
    && iterations == Iterations(cfg, First(Reply(log.replies, cal.at, 1)))
    && Estimated(cfg, First(Reply(log.replies, cal.at, 1)), iterations)
  }

  /** The exchange before was the warm-up, and the collective call before the barrier behind it. */
  ghost predicate Warmed(log: Log, h: nat, made: nat, at: nat) {
    && 0 < made <= |log.exchanges| && log.exchanges[made - 1].made == Control.WarmUp(h)
    && 0 < at <= |log.contributed| && log.contributed[at - 1].at == CalibrationBarrier(h)
  }

  /** The collective calls before a sample's own were the barrier and, when validating, a validation
      that passed and that made the exchange before. */
  ghost predicate Readied(cfg: Config, log: Log, at: At, made: nat, first: nat) {
    && 0 < first <= |log.contributed| && log.contributed[first - 1].at == SampleBarrier(at)
    && (cfg.validating ==>
          && 1 < first && log.contributed[first - 2].at == Validating(at) && First(Reply(log.replies, first - 2, 1)) == 1.0
          && 0 < made <= |log.exchanges| && log.exchanges[made - 1].made == Validating(at))
  }

  lemma ReadiedLater(cfg: Config, log: Log, later: Log, at: At, made: nat, first: nat)
    requires Readied(cfg, log, at, made, first) && Extends(log, later)
    ensures Readied(cfg, later, at, made, first)
  {
    hide Reply;
  }

  /** calibration_iterations if that many exchanges of the reduced average fill the target, up to
      half an exchange, and otherwise the number that does. */
  predicate Estimated(cfg: Config, longest: real, iterations: nat)
    requires cfg.calibration > 0
  {
    && iterations >= cfg.calibration
    && Exceeds(cfg.target, longest / cfg.calibration as real, iterations)
    && (iterations > cfg.calibration ==> Nearest(iterations, cfg.target, longest / cfg.calibration as real))
  }

  /** An average duration, which counts as a picosecond if it is shorter. */
  function Counted(average: real): real { if average < 0.000000000001 then 0.000000000001 else average }

  /** iterations and a half exceed the target. */
  predicate Exceeds(target: real, average: real, iterations: nat) {
    target < (iterations as real + 0.5) * Counted(average)
  }

  /** iterations are the target up to half an average. */
  predicate Nearest(iterations: nat, target: real, average: real) {
    (iterations as real - 0.5) * Counted(average) <= target < (iterations as real + 0.5) * Counted(average)
  }

  lemma EstimateNearest(cfg: Config, longest: real)
    requires cfg.calibration > 0
    ensures Estimated(cfg, longest, Iterations(cfg, longest))
  {
    var average := longest / cfg.calibration as real;
    var a, e, n := Counted(average), Estimate(cfg.target, average), Iterations(cfg, longest);
    var x := cfg.target / a;
    assert x * a == cfg.target && e as real <= x + 0.5 < e as real + 1.0;
    Fills(cfg.target, x, a, n as real + 0.5);
    if n == e {
      TimesLeq(n as real - 0.5, x, a);
    }
  }

  lemma Fills(target: real, x: real, a: real, y: real)
    requires x * a == target && x < y && a > 0.0
    ensures target < y * a
  {
    TimesOrder(x, y, a);
  }

  lemma TimesOrder(x: real, y: real, a: real)
    requires x < y && a > 0.0
    ensures x * a < y * a
  {
    assert (y - x) * a > 0.0 && (y - x) * a == y * a - x * a;
  }

  lemma TimesLeq(x: real, y: real, a: real)
    requires x <= y && a > 0.0
    ensures x * a <= y * a
  {
    assert (y - x) * a >= 0.0 && (y - x) * a == y * a - x * a;
  }

  /** Where a sample's exchanges and contributions are, and what the rank read and collected. */
  datatype Trace = Trace(at: At, cal: Calibration, made: nat, first: nat, readings: Readings, least: real, acc: Phases)

  datatype Result = Result(halo: nat, sample: nat, iterations: nat, timed: Timed, maxTotal: real, maxAverage: real,
                           phases: PhaseReport)

  const NO_REPORT := PhaseReport(NO_TIME, 0.0, 0.0, 0.0)

  /** The readings are those of the timed exchanges of this sample and of no others. */
  ghost predicate MeasuredBy(cfg: Config, ordered: bool, log: Log, t: Timed, x: Trace) {
    var n := x.at.iterations;
    && n > 0
    && var run := RunOf(log.exchanges, x.made, n);
    && |run| == n && Series(cfg, Timing(x.at, 0), n, cfg.phaseTiming || cfg.recordPhases, run)
    && Timings(ordered, log.clock, run)
    && (if cfg.recordIterations then Covered(ordered, log.clock, run, x.readings.seconds, x.readings.phases, cfg.recordPhases)
        else t.localTotal == Lapse(log.clock, run) && run[0].from > 0)
    && (cfg.phaseTiming ==> x.acc == TotalCost(run) && Elapsed(ordered, x.acc) && PhaseTimingSum(x.acc) <= t.localTotal)
  }

  ghost function RecordPart(cfg: Config, ordered: bool, t: Timed, x: Trace): seq<Brought> {
    if cfg.recordIterations then RecordBrings(cfg, SchemaOf(ordered), x.at, x.readings, t.records, x.least, true) else []
  }

  /** All a rank brings to the collective calls of a sample, from its time vector to the phase
      averages. */
  ghost function SampleBrings(cfg: Config, ordered: bool, t: Timed, x: Trace): seq<Brought> {
    RecordPart(cfg, ordered, t, x)
    + [Brought(ReduceTotal(x.at), [t.localTotal])]
    + (if cfg.phaseTiming && x.at.iterations > 0 && cfg.averages == |LocalPhases(ordered, x.acc)|
       then Shares(x.at, LocalPhases(ordered, x.acc), x.at.iterations, cfg.averages) else [])
  }

  ghost function TotalAt(cfg: Config, ordered: bool, t: Timed, x: Trace): nat {
    x.first + |RecordPart(cfg, ordered, t, x)|
  }

  /** The values of the result are the replies to those contributions. */
  ghost predicate ValuesOf(cfg: Config, ordered: bool, log: Log, res: Result, x: Trace) {
    var n := x.at.iterations;
    var i := TotalAt(cfg, ordered, res.timed, x);
    && n > 0
    && (if cfg.recordIterations then Recording(cfg, SchemaOf(ordered), log.replies, x.first, n, x.readings, res.timed)
        else res.timed == Timed(res.timed.localTotal, 0, 0, [], [], []))
    && res.maxTotal == First(Reply(log.replies, i, 1)) && res.maxAverage == res.maxTotal / n as real
    && (if cfg.phaseTiming then PhasesReported(cfg, ordered, log.replies, i + 1, res.maxAverage, res.phases) else res.phases == NO_REPORT)
  }

  ghost predicate PhasesReported(cfg: Config, ordered: bool, replies: (nat, nat) -> TimeRank, i: nat, total: real, p: PhaseReport) {
    && cfg.averages == (if ordered then 4 else 6) && p.phases == FromPhases(ordered, Firsts(replies, i, cfg.averages))
    && p.total == total && p.phaseSum == PhaseTimingSum(p.phases) && p.phaseSum + p.unattributed == total
  }

  ghost predicate Named(cfg: Config, res: Result, x: Trace) {
    && x.at.h < |cfg.halos| && res.halo == cfg.halos[x.at.h] && res.sample == x.at.sample
    && res.iterations == x.at.iterations >= cfg.calibration
  }

  /** Every value of the result follows from this rank's clock readings or from a reply to them. */
  ghost predicate Reported(cfg: Config, ordered: bool, log: Log, res: Result, x: Trace) {
    && Named(cfg, res, x) && CalibratedBy(cfg, log, x.at.h, x.at.iterations, x.cal)
    && MeasuredBy(cfg, ordered, log, res.timed, x) && Readied(cfg, log, x.at, x.made, x.first)
    && Spans(log.contributed, x.first, SampleBrings(cfg, ordered, res.timed, x))
    && ValuesOf(cfg, ordered, log, res, x)
  }

  lemma CalibratedLater(cfg: Config, log: Log, later: Log, h: nat, iterations: nat, cal: Calibration)
    requires CalibratedBy(cfg, log, h, iterations, cal) && Extends(log, later)
    ensures CalibratedBy(cfg, later, h, iterations, cal)
  {
    hide Series, Iterations;
    RunLonger(log.exchanges, later.exchanges, cal.made, cfg.calibration);
    SpansLonger(log.contributed, later.contributed, cal.at, [Brought(ReduceCalibration(h), [cal.seconds])]);
  }

  lemma MeasuredLater(cfg: Config, ordered: bool, log: Log, later: Log, t: Timed, x: Trace)
    requires MeasuredBy(cfg, ordered, log, t, x) && Extends(log, later)
    ensures MeasuredBy(cfg, ordered, later, t, x)
  {
    hide Series, Timings, Covered, Elapsed, TotalCost, PhaseTimingSum;
    RunLonger(log.exchanges, later.exchanges, x.made, x.at.iterations);
  }

  lemma ReportedLater(cfg: Config, ordered: bool, log: Log, later: Log, res: Result, x: Trace)
    requires Reported(cfg, ordered, log, res, x) && Extends(log, later)
    ensures Reported(cfg, ordered, later, res, x)
  {
    hide MeasuredBy, CalibratedBy, SampleBrings, TotalAt, Recording, PhasesReported, Readied;
    CalibratedLater(cfg, log, later, x.at.h, x.at.iterations, x.cal);
    MeasuredLater(cfg, ordered, log, later, res.timed, x);
    ReadiedLater(cfg, log, later, x.at, x.made, x.first);
    SpansLonger(log.contributed, later.contributed, x.first, SampleBrings(cfg, ordered, res.timed, x));
  }

  // ----- where the samples start

  /** The first collective call after the timed exchanges of a sample. */
  predicate StartsSample(cfg: Config, c: Ctl) {
    if cfg.recordIterations then c.ReduceIterations? else c.ReduceTotal?
  }

  /** The positions of those calls. */
  ghost function Starts(cfg: Config, contributed: seq<Brought>): seq<nat> {
    if contributed == [] then []
    else
      var m := |contributed| - 1;
      Starts(cfg, contributed[..m]) + (if StartsSample(cfg, contributed[m].at) then [m] else [])
  }

  predicate NoStart(cfg: Config, brought: seq<Brought>) {
    forall i | 0 <= i < |brought| :: !StartsSample(cfg, brought[i].at)
  }

  lemma {:induction false} StartsSame(cfg: Config, a: seq<Brought>, b: seq<Brought>)
    requires NoStart(cfg, b)
    ensures Starts(cfg, a + b) == Starts(cfg, a)
  {
    if b == [] {
      assert a + b == a;
    } else {
      var m := |b| - 1;
      assert (a + b)[..|a + b| - 1] == a + b[..m];
      StartsSame(cfg, a, b[..m]);
    }
  }

  lemma StartsOnce(cfg: Config, a: seq<Brought>, b: seq<Brought>)
    requires b != [] && StartsSample(cfg, b[0].at) && NoStart(cfg, b[1..])
    ensures Starts(cfg, a + b) == Starts(cfg, a) + [|a|]
  {
    assert a + b == a + [b[0]] + b[1..];
    StartsSame(cfg, a + [b[0]], b[1..]);
    assert (a + [b[0]])[..|a|] == a;
  }

  lemma NoStartConcat(cfg: Config, a: seq<Brought>, b: seq<Brought>)
    requires NoStart(cfg, a) && NoStart(cfg, b)
    ensures NoStart(cfg, a + b)
  {
    hide StartsSample;
  }

  lemma {:induction false} PhasesNoStart(cfg: Config, at: At, schema: Schema, template: seq<PhaseValue>, records: seq<IterationRecord>,
                                         phases: seq<Phases>, n: nat)
    requires Within(records, |phases|) && n <= |template|
    ensures NoStart(cfg, PhaseBrings(at, schema, template, records, phases, n))
  {
    if n > 0 {
      PhasesNoStart(cfg, at, schema, template, records, phases, n - 1);
    }
  }

  lemma SharesNoStart(cfg: Config, at: At, xs: seq<real>, iterations: nat, m: nat)
    requires iterations > 0 && m <= |xs|
    ensures NoStart(cfg, Shares(at, xs, iterations, m))
  {
  }

  lemma RecordStarts(cfg: Config, ordered: bool, t: Timed, x: Trace)
    requires cfg.recordIterations
    ensures var b := RecordPart(cfg, ordered, t, x);
            b != [] && StartsSample(cfg, b[0].at) && NoStart(cfg, b[1..])
  {
    hide PhaseValues, PhaseBrings, Within, PhasesBrought;
    var phases := PhasesBrought(cfg, SchemaOf(ordered), x.at, t.records, x.readings.phases);
    PhasesBroughtNoStart(cfg, SchemaOf(ordered), x.at, t.records, x.readings.phases);
    var gather := if cfg.recordStalled then GatherBrings(x.at, |t.records|, x.least, true) else [];
    assert NoStart(cfg, gather);
    NoStartConcat(cfg, phases, gather);
    HeadTail(Brought(ReduceIterations(x.at), x.readings.seconds), phases, gather);
  }

  lemma HeadTail<T>(head: T, a: seq<T>, b: seq<T>)
    ensures ([head] + a + b)[0] == head && ([head] + a + b)[1..] == a + b
  {
  }

  lemma TailAfter<T>(a: seq<T>, b: seq<T>, c: seq<T>)
    requires a != []
    ensures (a + b + c)[0] == a[0] && (a + b + c)[1..] == a[1..] + (b + c)
  {
  }

  /** Of the contributions of a sample only the first one starts it. */
  lemma SampleStarts(cfg: Config, ordered: bool, t: Timed, x: Trace)
    ensures var b := SampleBrings(cfg, ordered, t, x);
            b != [] && StartsSample(cfg, b[0].at) && NoStart(cfg, b[1..])
  {
    hide RecordBrings, LocalPhases, Shares;
    var total := [Brought(ReduceTotal(x.at), [t.localTotal])];
    var shares :=
      if cfg.phaseTiming && x.at.iterations > 0 && cfg.averages == |LocalPhases(ordered, x.acc)|
      then Shares(x.at, LocalPhases(ordered, x.acc), x.at.iterations, cfg.averages) else [];
    if shares != [] {
      SharesNoStart(cfg, x.at, LocalPhases(ordered, x.acc), x.at.iterations, cfg.averages);
    }
    if cfg.recordIterations {
      RecordStarts(cfg, ordered, t, x);
      var own := RecordPart(cfg, ordered, t, x);
      NoStartConcat(cfg, total, shares);
      NoStartConcat(cfg, own[1..], total + shares);
      TailAfter(own, total, shares);
    } else {
      TailAfter(total, [], shares);
      assert SampleBrings(cfg, ordered, t, x) == total + [] + shares;
    }
  }

  lemma PhasesBroughtNoStart(cfg: Config, schema: Schema, at: At, records: seq<IterationRecord>, phases: seq<Phases>)
    ensures NoStart(cfg, PhasesBrought(cfg, schema, at, records, phases))
  {
    if cfg.recordPhases && records != [] && phases != [] && Within(records, |phases|) {
      var template := PhaseValues(schema, phases[0]);
      PhasesNoStart(cfg, at, schema, template, records, phases, |template|);
    }
  }

  // ----- samples

  datatype Error =
    | BadTargetSeconds | BadCalibration | BadSamples | BadThreshold | PhasesNeedIterations | PhasesUnsupported
    | StalledNeedsPhases | StalledUnsupported | ValidationFailed | InconsistentCounts

  datatype Outcome<T> = Ok(value: T) | Err(error: Error)

  method TimeSample(b: RcclBackend, cfg: Config, at: At)
    returns (t: Timed, consistent: bool, ghost r: Readings, ghost run: seq<Exch>, ghost least: real)
    requires b.Valid() && b.cfg == cfg && ValidConfig(cfg) && b.ctl == Timing(at, 0) && at.iterations > 0
    requires b.collecting == b.enabled == cfg.phaseTiming
    modifies b`tick, b`acc, b`received, b`ctl, b`history, b`exchanges, b`iterationStart, b`collecting, b`contributed
    ensures b.Valid() && b.collecting == b.enabled && b.ctl == if consistent then ReduceTotal(at) else Inconsistent
    ensures b.exchanges == old(b.exchanges) + run && |run| == at.iterations
    ensures Series(cfg, Timing(at, 0), at.iterations, cfg.phaseTiming || cfg.recordPhases, run)
    ensures b.acc == Plus(old(b.acc), TotalCost(run)) && PhaseTimingSum(TotalCost(run)) <= t.localTotal
    ensures Timings(b.ordered, b.clock, run)
    ensures if cfg.recordIterations
            then && Covered(b.ordered, b.clock, run, r.seconds, r.phases, cfg.recordPhases)
                 && Recording(cfg, SchemaOf(b.ordered), b.replies, old(b.received), at.iterations, r, t)
            else t == Timed(Lapse(b.clock, run), 0, 0, [], [], []) && run[0].from > 0
    ensures b.contributed == old(b.contributed)
                             + (if cfg.recordIterations
                                then RecordBrings(cfg, SchemaOf(b.ordered), at, r, t.records, least, consistent) else [])
  {
    hide PhaseTimingSum, Plus, Elapsed, Series, Covered, TotalCost, Recording, RecordBrings, After, Legal, Logged, Intervals;
    if cfg.recordIterations {
      ghost var before := b.contributed;
      t, consistent, r, run := TimeExchangesWithIterationRecords(b, cfg, at);
      CoveredTimings(b.ordered, b.clock, run, r.seconds, r.phases, cfg.recordPhases);
      least :| b.contributed == before + RecordBrings(cfg, SchemaOf(b.ordered), at, r, t.records, least, consistent);
    } else {
      var seconds;
      seconds, run := TimeExchanges(b, at.iterations);
      t, consistent, r, least := Timed(seconds, 0, 0, [], [], []), true, Readings([], []), 0.0;
    }
  }

  lemma UncollectedBooks(cfg: Config, own: seq<Exch>)
    requires forall e | e in own :: e.made.Validating? && !e.collected
    ensures Books(cfg, own)
  {
  }

  /** Validation, a fresh accumulator and the barrier before the timed exchanges. */
  method PrepareSample(b: RcclBackend, cfg: Config, at: At) returns (ok: bool)
    requires b.Valid() && b.cfg == cfg && b.ctl == EnterSample(cfg, at) && b.enabled == cfg.phaseTiming && !b.collecting
    requires Books(cfg, b.exchanges)
    modifies b`tick, b`received, b`acc, b`ctl, b`history, b`exchanges, b`contributed, b`collecting
    ensures b.Valid() && Books(cfg, b.exchanges)
    ensures b.ctl == if ok then Timing(at, 0) else Rejected
    ensures ok ==> b.collecting == cfg.phaseTiming && (cfg.phaseTiming ==> b.acc == NO_TIME)
    ensures ok ==> Readied(cfg, LogOf(b), at, |b.exchanges|, |b.contributed|)
    ensures Extends(old(LogOf(b)), LogOf(b)) && Starts(cfg, b.contributed) == Starts(cfg, old(b.contributed))
  {
    hide PhaseTimingSum, Plus, Elapsed, TotalCost, Books, Starts, After, Legal, Logged, Reply, Readied;
    ghost var before, own, start := b.contributed, [], b.received;
    assert start == |before|;
    ok, own := b.ValidateCurrentHalo();
    ghost var verdict := b.contributed[|before|..];
    assert b.contributed == before + verdict && NoStart(cfg, verdict);
    assert Books(cfg, own) by { UncollectedBooks(cfg, own); }
    BooksMore(cfg, old(b.exchanges), own);
    StartsSame(cfg, before, verdict);
    if ok {
      if b.enabled {
        b.ResetPhaseTiming();
      }
      StartsSame(cfg, b.contributed, [Brought(b.ctl, [])]);
      ghost var checked := b.contributed;
      b.Barrier();
      assert b.contributed == checked + [Brought(SampleBarrier(at), [])];
      ReadiedNow(cfg, LogOf(b), at, before, checked, own, start);
    }
  }

  lemma ReadiedNow(cfg: Config, log: Log, at: At, before: seq<Brought>, checked: seq<Brought>, own: seq<Exch>, start: nat)
    requires log.contributed == checked + [Brought(SampleBarrier(at), [])] && start == |before|
    requires cfg.validating ==>
               && |own| == 1 && own[0].made == Validating(at) && |log.exchanges| > 0 && log.exchanges[|log.exchanges| - 1] == own[0]
               && First(Reply(log.replies, start, 1)) == 1.0
               && exists verdict :: checked == before + [Brought(Validating(at), [verdict])]
    ensures Readied(cfg, log, at, |log.exchanges|, |log.contributed|)
  {
    hide Reply;
  }

  /** The timed exchanges, their reductions and, when enabled, the phase averages. */
  method MeasureSample(b: RcclBackend, cfg: Config, at: At, ghost cal: Calibration) returns (outcome: Outcome<Result>, ghost x: Trace)
    requires b.Valid() && b.cfg == cfg && ValidConfig(cfg) && at.h < |cfg.halos| && b.ctl == Timing(at, 0)
    requires at.iterations >= cfg.calibration && b.collecting == b.enabled == cfg.phaseTiming
    requires cfg.phaseTiming ==> b.acc == NO_TIME
    requires Books(cfg, b.exchanges) && CalibratedBy(cfg, LogOf(b), at.h, at.iterations, cal)
    requires Readied(cfg, LogOf(b), at, |b.exchanges|, |b.contributed|)
    modifies b
    ensures b.Valid() && b.enabled == cfg.phaseTiming && Books(cfg, b.exchanges)
    ensures Extends(old(LogOf(b)), LogOf(b))
    ensures match outcome
            case Ok(res) =>
              && b.ctl == NextSample(cfg, at) && !b.collecting && x.at == at
              && Reported(cfg, b.ordered, LogOf(b), res, x)
              && Starts(cfg, b.contributed) == Starts(cfg, old(b.contributed)) + [x.first]
            case Err(e) => e.InconsistentCounts? && b.ctl == Inconsistent
  {
    hide PhaseTimingSum, Plus, Elapsed, Series, Timings, TotalCost, Recording, Books, RecordBrings, Covered, After, Legal, Logged, Starts,
         CalibratedBy, MeasuredBy, SampleBrings, ValuesOf, NextSample, Lapse, Reply, Firsts, Shares, LocalPhases, Readied;
    ghost var before := LogOf(b);
    ghost var run, r, least;
    var t, consistent;
    t, consistent, r, run, least := TimeSample(b, cfg, at);
    TimedBooks(cfg, before.exchanges, at, run);
    ghost var acc := b.acc;
    x := Trace(at, cal, |before.exchanges|, |before.contributed|, r, least, acc);
    if !consistent {
      return Err(InconsistentCounts), x;
    }
    MeasuredNow(cfg, b.ordered, before, run, t, x);
    ghost var recorded := b.contributed;
    var res := ReduceSample(b, cfg, at, t, x);
    outcome := Ok(res);
    ghost var rest :| b.contributed == recorded + rest && SampleBrings(cfg, b.ordered, t, x) == RecordPart(cfg, b.ordered, t, x) + rest;
    Associative(before.contributed, RecordPart(cfg, b.ordered, t, x), rest);
    CalibratedLater(cfg, before, LogOf(b), at.h, at.iterations, cal);
    ReadiedLater(cfg, before, LogOf(b), at, |before.exchanges|, |before.contributed|);
    MeasuredLater(cfg, b.ordered, before.(exchanges := before.exchanges + run), LogOf(b), t, x);
    SampleStarts(cfg, b.ordered, t, x);
    StartsOnce(cfg, before.contributed, SampleBrings(cfg, b.ordered, t, x));
    SpansAppended(before.contributed, SampleBrings(cfg, b.ordered, t, x));
  }

  lemma MeasuredNow(cfg: Config, ordered: bool, before: Log, run: seq<Exch>, t: Timed, x: Trace)
    requires x.made == |before.exchanges| && |run| == x.at.iterations > 0
    requires Series(cfg, Timing(x.at, 0), x.at.iterations, cfg.phaseTiming || cfg.recordPhases, run)
    requires Timings(ordered, before.clock, run)
    requires if cfg.recordIterations then Covered(ordered, before.clock, run, x.readings.seconds, x.readings.phases, cfg.recordPhases)
             else t.localTotal == Lapse(before.clock, run) && run[0].from > 0
    requires cfg.phaseTiming ==> x.acc == Plus(NO_TIME, TotalCost(run)) && Elapsed(ordered, x.acc)
    requires PhaseTimingSum(TotalCost(run)) <= t.localTotal
    ensures MeasuredBy(cfg, ordered, before.(exchanges := before.exchanges + run), t, x)
  {
    hide Series, Timings, Covered, Elapsed, TotalCost, PhaseTimingSum, Lapse, Plus;
    RunAppended(before.exchanges, run);
    PlusOrder(TotalCost(run), NO_TIME, NO_TIME);
  }

  /** The last reductions of a sample and its result. */
  method ReduceSample(b: RcclBackend, cfg: Config, at: At, t: Timed, ghost x: Trace) returns (res: Result)
    requires b.Valid() && b.cfg == cfg && at.h < |cfg.halos| && b.ctl == ReduceTotal(at) && at.iterations >= cfg.calibration
    requires at.iterations > 0 && b.collecting == b.enabled == cfg.phaseTiming && x.at == at && x.acc == b.acc
    requires |b.contributed| == x.first + |RecordPart(cfg, b.ordered, t, x)|
    requires if cfg.recordIterations then Recording(cfg, SchemaOf(b.ordered), b.replies, x.first, at.iterations, x.readings, t)
             else t == Timed(t.localTotal, 0, 0, [], [], [])
    modifies b`received, b`ctl, b`history, b`contributed, b`collecting
    ensures b.Valid() && b.ctl == NextSample(cfg, at) && !b.collecting
    ensures exists rest :: b.contributed == old(b.contributed) + rest && SampleBrings(cfg, b.ordered, t, x) == RecordPart(cfg, b.ordered, t, x) + rest
    ensures res.timed == t && Named(cfg, res, x) && ValuesOf(cfg, b.ordered, LogOf(b), res, x)
  {
    hide PhaseTimingSum, Plus, Elapsed, Recording, After, Legal, Logged, NextSample, Reply, Firsts, Shares, LocalPhases, RecordPart,
         FromPhases;
    ghost var before, start := b.contributed, b.received;
    var maxTotal := b.MaxTime(t.localTotal);
    var maxAverage := maxTotal / at.iterations as real;
    var report := NO_REPORT;
    ghost var shares: seq<Brought> := [];
    if b.enabled {
      report := b.PhaseTimingResult(at.iterations, maxAverage);
      shares := Shares(at, LocalPhases(b.ordered, x.acc), at.iterations, cfg.averages);
    }
    res := Result(cfg.halos[at.h], at.sample, at.iterations, t, maxTotal, maxAverage, report);
    Associative(before, [Brought(ReduceTotal(at), [t.localTotal])], shares);
    Associative(RecordPart(cfg, b.ordered, t, x), [Brought(ReduceTotal(at), [t.localTotal])], shares);
    ghost var rest := [Brought(ReduceTotal(at), [t.localTotal])] + shares;
    assert b.contributed == before + rest && SampleBrings(cfg, b.ordered, t, x) == RecordPart(cfg, b.ordered, t, x) + rest;
  }

  lemma TimedBooks(cfg: Config, made: seq<Exch>, at: At, run: seq<Exch>)
    requires Books(cfg, made) && |run| == at.iterations > 0
    requires Series(cfg, Timing(at, 0), at.iterations, cfg.phaseTiming || cfg.recordPhases, run)
    ensures Books(cfg, made + run)
  {
    SeriesTimed(cfg, Timing(at, 0), at.iterations, cfg.phaseTiming || cfg.recordPhases, run);
    BooksMore(cfg, made, run);
  }

  // ----- the whole benchmark

  ghost function FirstsOf(traces: seq<Trace>): seq<nat> {
    seq(|traces|, i requires 0 <= i < |traces| => traces[i].first)
  }

  /** Every result is accounted for, and the samples start where the traces say. */
  ghost predicate Reports(cfg: Config, ordered: bool, log: Log, results: seq<Result>, traces: seq<Trace>) {
    && |traces| == |results|
    && (forall i | 0 <= i < |results| :: Reported(cfg, ordered, log, results[i], traces[i]))
    && Starts(cfg, log.contributed) == FirstsOf(traces)
  }

  lemma ReportsLater(cfg: Config, ordered: bool, log: Log, later: Log, results: seq<Result>, traces: seq<Trace>)
    requires Reports(cfg, ordered, log, results, traces) && Extends(log, later)
    requires Starts(cfg, later.contributed) == Starts(cfg, log.contributed)
    ensures Reports(cfg, ordered, later, results, traces)
  {
    hide Reported, Starts, Extends;
    forall i | 0 <= i < |results|
      ensures Reported(cfg, ordered, later, results[i], traces[i])
    {
      ReportedLater(cfg, ordered, log, later, results[i], traces[i]);
    }
  }

  lemma ReportsMore(cfg: Config, ordered: bool, log: Log, later: Log, results: seq<Result>, traces: seq<Trace>, res: Result, x: Trace)
    requires Reports(cfg, ordered, log, results, traces) && Extends(log, later)
    requires Reported(cfg, ordered, later, res, x)
    requires Starts(cfg, later.contributed) == Starts(cfg, log.contributed) + [x.first]
    ensures Reports(cfg, ordered, later, results + [res], traces + [x])
  {
    hide Reported, Starts, Extends;
    forall i | 0 <= i < |results|
      ensures Reported(cfg, ordered, later, results[i], traces[i])
    {
      ReportedLater(cfg, ordered, log, later, results[i], traces[i]);
    }
    assert FirstsOf(traces + [x]) == FirstsOf(traces) + [x.first];
  }

  /** The halo lengths and samples in the order they are measured. */
  ghost function SampleKeys(halo: nat, n: nat): seq<(nat, nat)> {
    if n == 0 then [] else SampleKeys(halo, n - 1) + [(halo, n)]
  }

  ghost function Keys(halos: seq<nat>, samples: nat): seq<(nat, nat)> {
    if halos == [] then [] else Keys(halos[..|halos| - 1], samples) + SampleKeys(halos[|halos| - 1], samples)
  }

  ghost function KeysOf(results: seq<Result>): seq<(nat, nat)> {
    if results == [] then []
    else KeysOf(results[..|results| - 1]) + [(results[|results| - 1].halo, results[|results| - 1].sample)]
  }

  lemma KeysMore(results: seq<Result>, r: Result, keys: seq<(nat, nat)>, n: nat)
    requires KeysOf(results) == keys + SampleKeys(r.halo, n) && r.sample == n + 1
    ensures KeysOf(results + [r]) == keys + SampleKeys(r.halo, n + 1)
  {
    assert (results + [r])[..|results|] == results;
  }

  lemma KeysStep(halos: seq<nat>, samples: nat, h: nat)
    requires h < |halos|
    ensures Keys(halos[..h + 1], samples) == Keys(halos[..h], samples) + SampleKeys(halos[h], samples)
  {
    assert halos[..h + 1][..h] == halos[..h];
  }

  method WarmUp(b: RcclBackend, cfg: Config, h: nat)
    requires b.Valid() && b.cfg == cfg && h < |cfg.halos| && b.ctl == BeginHalo(h)
    requires !b.collecting && Books(cfg, b.exchanges)
    modifies b`tick, b`received, b`acc, b`ctl, b`history, b`exchanges, b`contributed
    ensures b.Valid() && Books(cfg, b.exchanges) && b.ctl == Calibrating(h, 0)
    ensures Warmed(LogOf(b), h, |b.exchanges|, |b.contributed|)
    ensures Extends(old(LogOf(b)), LogOf(b)) && Starts(cfg, b.contributed) == Starts(cfg, old(b.contributed))
  {
    hide PhaseTimingSum, Plus, Elapsed, Books, Starts, After, Legal, Logged;
    b.Setup(cfg.halos[h]);
    ghost var e := b.Exchange();
    assert Books(cfg, [e]) by { UntimedBooks(cfg, e); }
    BooksMore(cfg, old(b.exchanges), [e]);
    StartsSame(cfg, b.contributed, [Brought(b.ctl, [])]);
    b.Barrier();
  }

  lemma UntimedBooks(cfg: Config, e: Exch)
    requires !e.made.Timing? && !e.collected
    ensures Books(cfg, [e])
  {
  }

  /** The iteration count every rank agrees on: the local time of the calibration exchanges is
      brought to the reduction, and the count follows from the reply. */
  method Calibrate(b: RcclBackend, cfg: Config, h: nat) returns (iterations: nat, ghost cal: Calibration)
    requires b.Valid() && b.cfg == cfg && ValidConfig(cfg) && b.ctl == Calibrating(h, 0)
    requires Warmed(LogOf(b), h, |b.exchanges|, |b.contributed|)
    requires !b.collecting && Books(cfg, b.exchanges)
    modifies b`tick, b`received, b`acc, b`ctl, b`history, b`exchanges, b`contributed
    ensures b.Valid() && Books(cfg, b.exchanges)
    ensures iterations >= cfg.calibration && b.ctl == EnterSample(cfg, At(h, iterations, 1))
    ensures CalibratedBy(cfg, LogOf(b), h, iterations, cal) && cal.at < |b.contributed|
    ensures Estimated(cfg, First(Reply(b.replies, cal.at, 1)), iterations)
    ensures Extends(old(LogOf(b)), LogOf(b)) && Starts(cfg, b.contributed) == Starts(cfg, old(b.contributed))
  {
    hide PhaseTimingSum, Plus, Elapsed, TotalCost, Books, Series, EnterSample, Starts, After, Legal, Logged, Lapse, Reply;
    ghost var before := LogOf(b);
    var local;
    ghost var run;
    local, run := TimeExchanges(b, cfg.calibration);
    SeriesTimed(cfg, Calibrating(h, 0), cfg.calibration, false, run);
    BooksMore(cfg, before.exchanges, run);
    cal := Calibration(|before.exchanges|, |before.contributed|, local);
    StartsSame(cfg, b.contributed, [Brought(b.ctl, [local])]);
    RunAppended(before.exchanges, run);
    SpansAppended(before.contributed, [Brought(ReduceCalibration(h), [local])]);
    var longest := b.MaxTime(local);
    var estimated := Estimate(cfg.target, longest / cfg.calibration as real);
    EstimateNearest(cfg, longest);
    iterations := if estimated > cfg.calibration then estimated else cfg.calibration;
  }

  /** Everything before sample at.sample of halo at.h is measured and reported. */
  ghost predicate Reached(b: RcclBackend, cfg: Config, at: At, cal: Calibration, results: seq<Result>, traces: seq<Trace>)
    requires at.h < |cfg.halos| && at.sample > 0
    reads b
  {
    && b.Valid() && !b.collecting && b.enabled == cfg.phaseTiming && Books(cfg, b.exchanges)
    && b.ctl == (if at.sample <= cfg.samples then EnterSample(cfg, at) else NextHalo(cfg, at.h + 1))
    && CalibratedBy(cfg, LogOf(b), at.h, at.iterations, cal)
    && Reports(cfg, b.ordered, LogOf(b), results, traces)
    && KeysOf(results) == Keys(cfg.halos[..at.h], cfg.samples) + SampleKeys(cfg.halos[at.h], at.sample - 1)
  }

  method RunSample(b: RcclBackend, cfg: Config, at: At, ghost cal: Calibration, earlier: seq<Result>, ghost earlierTraces: seq<Trace>)
    returns (outcome: Outcome<seq<Result>>, ghost traces: seq<Trace>)
    requires b.cfg == cfg && ValidConfig(cfg) && at.h < |cfg.halos| && 0 < at.sample <= cfg.samples
    requires Reached(b, cfg, at, cal, earlier, earlierTraces) && at.iterations >= cfg.calibration
    modifies b
    ensures match outcome
            case Ok(results) => Reached(b, cfg, at.(sample := at.sample + 1), cal, results, traces)
            case Err(e) => Failed(b, cfg, e)
  {
    hide PhaseTimingSum, Plus, Elapsed, TotalCost, Books, Reports, KeysOf, Keys, SampleKeys, EnterSample, NextHalo, Starts,
         CalibratedBy, Extends, MeasuredBy, ValuesOf, SampleBrings, Spans, After, Legal, Logged, Readied;
    ghost var log0 := LogOf(b);
    traces := earlierTraces;
    var ok := PrepareSample(b, cfg, at);
    if !ok {
      return Err(ValidationFailed), traces;
    }
    ghost var log1 := LogOf(b);
    CalibratedLater(cfg, log0, log1, at.h, at.iterations, cal);
    ReportsLater(cfg, b.ordered, log0, log1, earlier, traces);
    var measured;
    ghost var x;
    measured, x := MeasureSample(b, cfg, at, cal);
    if measured.Err? {
      return Err(measured.error), traces;
    }
    CalibratedLater(cfg, log1, LogOf(b), at.h, at.iterations, cal);
    ReportsMore(cfg, b.ordered, log1, LogOf(b), earlier, traces, measured.value, x);
    KeysMore(earlier, measured.value, Keys(cfg.halos[..at.h], cfg.samples), at.sample - 1);
    traces := traces + [x];
    outcome := Ok(earlier + [measured.value]);
  }

  ghost predicate Failed(b: RcclBackend, cfg: Config, e: Error)
    reads b
  {
    && b.Valid() && b.enabled == cfg.phaseTiming && Books(cfg, b.exchanges)
    && ((e.ValidationFailed? && b.ctl == Rejected) || (e.InconsistentCounts? && b.ctl == Inconsistent))
  }

  method RunHalo(b: RcclBackend, cfg: Config, h: nat, earlier: seq<Result>, ghost earlierTraces: seq<Trace>)
    returns (outcome: Outcome<seq<Result>>, ghost traces: seq<Trace>)
    requires b.Valid() && b.cfg == cfg && ValidConfig(cfg) && h < |cfg.halos| && b.ctl == BeginHalo(h)
    requires !b.collecting && b.enabled == cfg.phaseTiming && Books(cfg, b.exchanges)
    requires Reports(cfg, b.ordered, LogOf(b), earlier, earlierTraces)
    requires KeysOf(earlier) == Keys(cfg.halos[..h], cfg.samples)
    modifies b
    ensures b.Valid() && b.enabled == cfg.phaseTiming && Books(cfg, b.exchanges)
    ensures Done(b, cfg, outcome, traces, h + 1)
  {
    hide PhaseTimingSum, Plus, Elapsed, TotalCost, Books, Reports, KeysOf, Keys, SampleKeys, NextHalo, Starts, CalibratedBy, Extends,
         After, Legal, Logged;
    ghost var log0 := LogOf(b);
    WarmUp(b, cfg, h);
    ghost var log1 := LogOf(b);
    ReportsLater(cfg, b.ordered, log0, log1, earlier, earlierTraces);
    var iterations;
    ghost var cal;
    iterations, cal := Calibrate(b, cfg, h);
    ReportsLater(cfg, b.ordered, log1, LogOf(b), earlier, earlierTraces);
    NoSampleKeys(cfg.halos[h], Keys(cfg.halos[..h], cfg.samples));
    outcome, traces := RunSamples(b, cfg, h, iterations, cal, earlier, earlierTraces);
    KeysStep(cfg.halos, cfg.samples, h);
  }

  method RunSamples(b: RcclBackend, cfg: Config, h: nat, iterations: nat, ghost cal: Calibration, earlier: seq<Result>,
                    ghost earlierTraces: seq<Trace>)
    returns (outcome: Outcome<seq<Result>>, ghost traces: seq<Trace>)
    requires b.cfg == cfg && ValidConfig(cfg) && h < |cfg.halos| && iterations >= cfg.calibration
    requires Reached(b, cfg, At(h, iterations, 1), cal, earlier, earlierTraces)
    modifies b
    ensures match outcome
            case Ok(results) => Reached(b, cfg, At(h, iterations, cfg.samples + 1), cal, results, traces)
            case Err(e) => Failed(b, cfg, e)
  {
    hide Reached, Failed;
    outcome, traces := Ok(earlier), earlierTraces;
    for sample := 1 to cfg.samples + 1
      invariant outcome.Ok? && Reached(b, cfg, At(h, iterations, sample), cal, outcome.value, traces)
    {
      outcome, traces := RunSample(b, cfg, At(h, iterations, sample), cal, outcome.value, traces);
      if outcome.Err? {
        return;
      }
    }
  }

  lemma NoSampleKeys(halo: nat, keys: seq<(nat, nat)>)
    ensures keys + SampleKeys(halo, 0) == keys
  {
  }

  /** Either the first n halo lengths are measured, or the run has ended with an error. */
  ghost predicate Done(b: RcclBackend, cfg: Config, outcome: Outcome<seq<Result>>, traces: seq<Trace>, n: nat)
    requires n <= |cfg.halos|
    reads b`ctl, b`collecting, b`exchanges, b`contributed
  {
    match outcome
    case Ok(results) =>
      && b.ctl == NextHalo(cfg, n) && !b.collecting
      && Reports(cfg, b.ordered, LogOf(b), results, traces)
      && KeysOf(results) == Keys(cfg.halos[..n], cfg.samples)
    case Err(e) => (e.ValidationFailed? && b.ctl == Rejected) || (e.InconsistentCounts? && b.ctl == Inconsistent)
  }

  /** The first argument error, in the order of the checks. */
  function CheckArguments(cfg: Config, supportsPhaseTiming: bool): (o: Outcome<()>)
    ensures o.Ok? <==> ValidConfig(cfg) && (cfg.recordPhases ==> supportsPhaseTiming)
    ensures o == Err(BadTargetSeconds) <==> cfg.target <= 0.0
    ensures o == Err(BadCalibration) <==> cfg.target > 0.0 && cfg.calibration == 0
    ensures o == Err(BadSamples) <==> cfg.target > 0.0 && cfg.calibration > 0 && cfg.samples == 0
    ensures var counted := cfg.target > 0.0 && cfg.calibration > 0 && cfg.samples > 0;
            && (o == Err(BadThreshold) <==> counted && cfg.thresholdUs < 0.0)
            && (o == Err(PhasesNeedIterations) <==> counted && cfg.thresholdUs >= 0.0 && cfg.recordPhases && !cfg.recordIterations)
            && (o == Err(PhasesUnsupported) <==>
                  counted && cfg.thresholdUs >= 0.0 && cfg.recordPhases && cfg.recordIterations && !supportsPhaseTiming)
            && (o == Err(StalledNeedsPhases) <==> counted && cfg.thresholdUs >= 0.0 && cfg.recordStalled && !cfg.recordPhases)
    ensures o.Err? ==> !o.error.ValidationFailed? && !o.error.InconsistentCounts? && !o.error.StalledUnsupported?
  {
    if cfg.target <= 0.0 then Err(BadTargetSeconds)
    else if cfg.calibration == 0 then Err(BadCalibration)
    else if cfg.samples == 0 then Err(BadSamples)
    else if cfg.thresholdUs < 0.0 then Err(BadThreshold)
    else if cfg.recordPhases && !cfg.recordIterations then Err(PhasesNeedIterations)
    else if cfg.recordPhases && !supportsPhaseTiming then Err(PhasesUnsupported)
    else if cfg.recordStalled && (!cfg.recordIterations || !cfg.recordPhases) then Err(StalledNeedsPhases)
    else if cfg.recordStalled && !supportsPhaseTiming then Err(StalledUnsupported)
    else Ok(())
  }

  /** The benchmark makes the calls of Control to its end and reports every sample of every halo
      length in order; every reported value is a reply to what this rank read from its clock,
      and phases are collected for the timed exchanges only. */
  method RunBenchmark(b: RcclBackend, cfg: Config)
    returns (outcome: Outcome<seq<Result>>, ghost traces: seq<Trace>)
    requires b.Valid() && b.cfg == cfg && b.enabled == cfg.phaseTiming && !b.collecting
    requires b.ctl == NextHalo(cfg, 0) && b.exchanges == [] && b.contributed == [] && b.history == []
    modifies b
    ensures b.Valid() && Books(cfg, b.exchanges)
    ensures var checked := CheckArguments(cfg, b.supportsPhaseTiming);
            if checked.Err? then outcome == Err(checked.error) && b.history == []
            else Done(b, cfg, outcome, traces, |cfg.halos|) && Made(cfg, b.history) == Script(cfg, Returned(cfg, b.history))
  {
    hide PhaseTimingSum, Plus, Elapsed, TotalCost, Reports, KeysOf, Keys, Made, Script, Returned, Logged, After, Legal;
    traces := [];
    var checked := CheckArguments(cfg, b.supportsPhaseTiming);
    if checked.Err? {
      return Err(checked.error), traces;
    }
    var results: seq<Result> := [];
    NothingReported(cfg, b.ordered, LogOf(b));
    for h := 0 to |cfg.halos|
      invariant b.Valid() && b.enabled == cfg.phaseTiming && Books(cfg, b.exchanges)
      invariant Done(b, cfg, Ok(results), traces, h)
    {
      outcome, traces := RunHalo(b, cfg, h, results, traces);
      if outcome.Err? {
        EndedRun(cfg, b.history);
        return;
      }
      results := outcome.value;
    }
    outcome := Ok(results);
    EndedRun(cfg, b.history);
  }

  lemma NothingReported(cfg: Config, ordered: bool, log: Log)
    requires log.contributed == []
    ensures Reports(cfg, ordered, log, [], []) && KeysOf([]) == Keys(cfg.halos[..0], cfg.samples)
  {
    assert FirstsOf([]) == [];
  }
}
