/** The control flow of run_benchmark as seen by the backend: which call a rank makes next, as
    a function of the configuration and of reduced values only. */
module Control {
  import opened Reduction

  /** target is the time in seconds that the timed exchanges of a sample should take; phases
      is the number of phases of the iteration schema and averages that of the phases that
      phase_timing_result reduces. */
  datatype Config = Config(
    halos: seq<nat>, samples: nat, calibration: nat, target: real,
    recordIterations: bool, recordPhases: bool, recordStalled: bool, thresholdUs: real,
    validating: bool, phaseTiming: bool, phases: nat, averages: nat)

  predicate ValidConfig(cfg: Config) {
    && cfg.target > 0.0 && cfg.samples > 0 && cfg.calibration > 0 && cfg.thresholdUs >= 0.0
    && (cfg.recordPhases ==> cfg.recordIterations)
    && (cfg.recordStalled ==> cfg.recordIterations && cfg.recordPhases)
  }

  datatype Op = MaxTime | MaxTimeRanks | MinCount | MaxCount

  /** A call to the backend; Reduce and Rows carry their element counts. */
  datatype Call = Setup(halo: nat) | Exchange | Validate | Barrier | Reduce(op: Op, count: nat) | Rows(count: nat) | NoCall

  /** Calls that need all ranks. */
  predicate Collective(call: Call) {
    call.Barrier? || call.Validate? || call.Reduce? || call.Rows?
  }

  /** How many elements come back from a call. */
  function Elements(call: Call): nat {
    match call
    case Reduce(_, count) => count
    case Validate => 1
    case _ => 0
  }

  /** The halo index, the iterations of its samples and the sample. */
  datatype At = At(h: nat, iterations: nat, sample: nat)

  datatype Ctl =
    | BeginHalo(h: nat) | WarmUp(h: nat) | CalibrationBarrier(h: nat) | Calibrating(h: nat, made: nat)
    | ReduceCalibration(h: nat)
    | Validating(at: At) | SampleBarrier(at: At) | Timing(at: At, made: nat)
    | ReduceIterations(at: At) | ReducePhase(at: At, kept: nat, phase: nat)
    | CountMin(at: At, kept: nat) | CountMax(at: At, kept: nat, least: real) | GatherRows(at: At, kept: nat)
    | ReduceTotal(at: At) | ReduceAverage(at: At, phase: nat)
    | Finished | Rejected | Inconsistent

  /** A verdict of validation is 0 or 1, a count is what the rank counted, a time is anything. */
  predicate Contributes(c: Ctl, call: Call, x: seq<real>) {
    match call
    case Reduce(op, count) =>
      |x| == count && (op.MinCount? || op.MaxCount? ==> x == [if c.CountMin? || c.CountMax? then c.kept as real else 0.0])
    case Validate => |x| == 1 && (x[0] == 0.0 || x[0] == 1.0)
    case _ => x == []
  }

  predicate Terminal(c: Ctl) { c.Finished? || c.Rejected? || c.Inconsistent? }

  function Request(cfg: Config, c: Ctl): Call {
    match c
    case BeginHalo(h) => if h < |cfg.halos| then Setup(cfg.halos[h]) else NoCall
    case WarmUp(_) | Calibrating(_, _) | Timing(_, _) => Exchange
    case CalibrationBarrier(_) | SampleBarrier(_) => Barrier
    case Validating(_) => Validate
    case ReduceCalibration(_) | ReduceTotal(_) | ReduceAverage(_, _) => Reduce(MaxTime, 1)
    case ReduceIterations(at) => Reduce(MaxTimeRanks, at.iterations)
    case ReducePhase(_, kept, _) => Reduce(MaxTimeRanks, kept)
    case CountMin(_, _) => Reduce(MinCount, 1)
    case CountMax(_, _, _) => Reduce(MaxCount, 1)
    case GatherRows(_, kept) => Rows(kept)
    case Finished | Rejected | Inconsistent => NoCall
  }

  function First(reply: seq<TimeRank>): real {
    if reply == [] then 0.0 else reply[0].seconds
  }

  /** How many exchanges of that average duration the target holds, rounded to the nearest number;
      averages below a picosecond count as one. */
  function Estimate(target: real, average: real): int {
    (target / (if average < 0.000000000001 then 0.000000000001 else average) + 0.5).Floor
  }

  function Iterations(cfg: Config, calibrationMax: real): nat
    requires cfg.calibration > 0
  {
    var estimated := Estimate(cfg.target, calibrationMax / cfg.calibration as real);
    if estimated > cfg.calibration then estimated else cfg.calibration
  }

  /** Whether an iteration with this reduced time is recorded. */
  predicate Emits(thresholdUs: real, seconds: real) {
    thresholdUs <= 0.0 || seconds >= thresholdUs * 0.000001
  }

  /** The positions of the recorded iterations. */
  function Kept(thresholdUs: real, reply: seq<TimeRank>): (ks: seq<nat>)
    ensures forall j | 0 <= j < |ks| :: ks[j] < |reply|
  {
    if reply == [] then []
    else
      var m := |reply| - 1;
      Kept(thresholdUs, reply[..m]) + (if Emits(thresholdUs, reply[m].seconds) then [m] else [])
  }

  function NextHalo(cfg: Config, h: nat): Ctl {
    if h < |cfg.halos| then BeginHalo(h) else Finished
  }

  function EnterSample(cfg: Config, at: At): Ctl {
    if cfg.validating then Validating(at) else SampleBarrier(at)
  }

  function NextSample(cfg: Config, at: At): Ctl {
    if at.sample < cfg.samples then EnterSample(cfg, at.(sample := at.sample + 1)) else NextHalo(cfg, at.h + 1)
  }

  function AfterTiming(cfg: Config, at: At): Ctl {
    if cfg.recordIterations then ReduceIterations(at) else ReduceTotal(at)
  }

  function AfterKept(cfg: Config, at: At, kept: nat): Ctl {
    if cfg.recordPhases && kept > 0 && cfg.phases > 0 then ReducePhase(at, kept, 0) else AfterPhases(cfg, at, kept)
  }

  function AfterPhases(cfg: Config, at: At, kept: nat): Ctl {
    if cfg.recordStalled then CountMin(at, kept) else ReduceTotal(at)
  }

  function AfterTotal(cfg: Config, at: At): Ctl {
    if cfg.phaseTiming && cfg.averages > 0 then ReduceAverage(at, 0) else NextSample(cfg, at)
  }

  /** Where a call leads, given the values the reductions returned. */
  function Move(cfg: Config, c: Ctl, reply: seq<TimeRank>): Ctl {
    match c
    case BeginHalo(h) => WarmUp(h)
    case WarmUp(h) => CalibrationBarrier(h)
    case CalibrationBarrier(h) => Calibrating(h, 0)
    case Calibrating(h, made) => if made + 1 < cfg.calibration then Calibrating(h, made + 1) else ReduceCalibration(h)
    case ReduceCalibration(h) =>
      if cfg.calibration == 0 then Inconsistent
      else EnterSample(cfg, At(h, Iterations(cfg, First(reply)), 1))
    case Validating(at) => if First(reply) == 1.0 then SampleBarrier(at) else Rejected
    case SampleBarrier(at) => Timing(at, 0)
    case Timing(at, made) => if made + 1 < at.iterations then Timing(at, made + 1) else AfterTiming(cfg, at)
    case ReduceIterations(at) => AfterKept(cfg, at, |Kept(cfg.thresholdUs, reply)|)
    case ReducePhase(at, kept, phase) =>
      if phase + 1 < cfg.phases then ReducePhase(at, kept, phase + 1) else AfterPhases(cfg, at, kept)
    case CountMin(at, kept) => CountMax(at, kept, First(reply))
    case CountMax(at, kept, least) =>
      if least != First(reply) then Inconsistent else if kept == 0 then ReduceTotal(at) else GatherRows(at, kept)
    case GatherRows(at, _) => ReduceTotal(at)
    case ReduceTotal(at) => AfterTotal(cfg, at)
    case ReduceAverage(at, phase) =>
      if phase + 1 < cfg.averages then ReduceAverage(at, phase + 1) else NextSample(cfg, at)
    case Finished | Rejected | Inconsistent => c
  }

  /** Steps a rank can make on its own before it needs the others. */
  function LocalLeft(cfg: Config, c: Ctl): nat {
    match c
    case BeginHalo(_) => 2
    case WarmUp(_) => 1
    case Calibrating(_, made) => if made < cfg.calibration then cfg.calibration - made else 1
    case Timing(at, made) => if made < at.iterations then at.iterations - made else 1
    case _ => 0
  }

  /** The next point at which the rank needs the others, or is done. */
  function Wait(cfg: Config, c: Ctl): (w: Ctl)
    ensures Terminal(w) || Collective(Request(cfg, w))
    decreases LocalLeft(cfg, c)
  {
    if Terminal(c) || Collective(Request(cfg, c)) then c else Wait(cfg, Move(cfg, c, []))
  }

  /** The calls up to and including that point. */
  function Segment(cfg: Config, c: Ctl): seq<Call>
    decreases LocalLeft(cfg, c)
  {
    if Terminal(c) then []
    else if Collective(Request(cfg, c)) then [Request(cfg, c)]
    else [Request(cfg, c)] + Segment(cfg, Move(cfg, c, []))
  }

  /** Where every rank starts a segment after the collectives so far have returned results. */
  function Epoch(cfg: Config, results: seq<seq<TimeRank>>): Ctl {
    if results == [] then NextHalo(cfg, 0)
    else
      var m := |results| - 1;
      Move(cfg, Wait(cfg, Epoch(cfg, results[..m])), results[m])
  }

  /** All calls of any rank that has received these results, up to its next collective. */
  function Script(cfg: Config, results: seq<seq<TimeRank>>): seq<Call> {
    if results == [] then Segment(cfg, Epoch(cfg, []))
    else Script(cfg, results[..|results| - 1]) + Segment(cfg, Epoch(cfg, results))
  }

  lemma {:induction false} ScriptPrefix(cfg: Config, results: seq<seq<TimeRank>>, k: nat)
    requires k <= |results|
    ensures Script(cfg, results[..k]) <= Script(cfg, results)
  {
    if k == |results| {
      assert results[..k] == results;
    } else {
      var m := |results| - 1;
      ScriptPrefix(cfg, results[..m], k);
      assert results[..m][..k] == results[..k];
    }
  }

  /** The calls made so far, with those still to come before the next collective returns, are
      the script of the results received. */
  ghost predicate Follows(cfg: Config, c: Ctl, calls: seq<Call>, returned: seq<seq<TimeRank>>) {
    && calls + Segment(cfg, c) == Script(cfg, returned)
    && Wait(cfg, c) == Wait(cfg, Epoch(cfg, returned))
  }

  lemma FollowsAtStart(cfg: Config)
    ensures Follows(cfg, NextHalo(cfg, 0), [], [])
  {
  }

  lemma LocalCall(cfg: Config, c: Ctl, calls: seq<Call>, returned: seq<seq<TimeRank>>)
    requires Follows(cfg, c, calls, returned) && !Terminal(c) && !Collective(Request(cfg, c))
    ensures Follows(cfg, Move(cfg, c, []), calls + [Request(cfg, c)], returned)
  {
    assert calls + ([Request(cfg, c)] + Segment(cfg, Move(cfg, c, [])))
        == calls + [Request(cfg, c)] + Segment(cfg, Move(cfg, c, []));
  }

  lemma CollectiveCall(cfg: Config, c: Ctl, calls: seq<Call>, returned: seq<seq<TimeRank>>, reply: seq<TimeRank>)
    requires Follows(cfg, c, calls, returned) && !Terminal(c) && Collective(Request(cfg, c))
    ensures Follows(cfg, Move(cfg, c, reply), calls + [Request(cfg, c)], returned + [reply])
  {
    assert (returned + [reply])[..|returned|] == returned;
  }

  // ----- one rank's run, reply by reply ([] for calls that need no other rank)

  function After(cfg: Config, history: seq<seq<TimeRank>>): Ctl {
    if history == [] then NextHalo(cfg, 0)
    else Move(cfg, After(cfg, history[..|history| - 1]), history[|history| - 1])
  }

  /** Nothing is called once the program has ended. */
  predicate Legal(cfg: Config, history: seq<seq<TimeRank>>) {
    history == [] ||
    var m := |history| - 1;
    var c := After(cfg, history[..m]);
    Legal(cfg, history[..m]) && !Terminal(c) && (Collective(Request(cfg, c)) || history[m] == [])
  }

  function Made(cfg: Config, history: seq<seq<TimeRank>>): seq<Call> {
    if history == [] then []
    else
      var m := |history| - 1;
      Made(cfg, history[..m]) + [Request(cfg, After(cfg, history[..m]))]
  }

  /** The replies of the collective calls alone. */
  function Returned(cfg: Config, history: seq<seq<TimeRank>>): seq<seq<TimeRank>> {
    if history == [] then []
    else
      var m := |history| - 1;
      Returned(cfg, history[..m])
      + (if Collective(Request(cfg, After(cfg, history[..m]))) then [history[m]] else [])
  }

  /** A rank's calls are the script of the collective results it has received, so ranks that
      receive the same results make the same calls. */
  lemma {:induction false} RunFollows(cfg: Config, history: seq<seq<TimeRank>>)
    requires Legal(cfg, history)
    ensures Follows(cfg, After(cfg, history), Made(cfg, history), Returned(cfg, history))
  {
    if history == [] {
      FollowsAtStart(cfg);
    } else {
      var m := |history| - 1;
      var c := After(cfg, history[..m]);
      RunFollows(cfg, history[..m]);
      if Collective(Request(cfg, c)) {
        CollectiveCall(cfg, c, Made(cfg, history[..m]), Returned(cfg, history[..m]), history[m]);
      } else {
        LocalCall(cfg, c, Made(cfg, history[..m]), Returned(cfg, history[..m]));
        assert Returned(cfg, history) == Returned(cfg, history[..m]);
      }
    }
  }

  lemma EndedRun(cfg: Config, history: seq<seq<TimeRank>>)
    requires Legal(cfg, history) && Terminal(After(cfg, history))
    ensures Made(cfg, history) == Script(cfg, Returned(cfg, history))
  {
    RunFollows(cfg, history);
    assert Made(cfg, history) + [] == Made(cfg, history);
  }

  lemma OneMore(cfg: Config, history: seq<seq<TimeRank>>, reply: seq<TimeRank>)
    requires Legal(cfg, history)
    requires var c := After(cfg, history); !Terminal(c) && (Collective(Request(cfg, c)) || reply == [])
    ensures Legal(cfg, history + [reply]) && After(cfg, history + [reply]) == Move(cfg, After(cfg, history), reply)
  {
    assert (history + [reply])[..|history|] == history;
  }

  /** Where in the program the collective calls of a run were made. */
  function Points(cfg: Config, history: seq<seq<TimeRank>>): (points: seq<Ctl>)
    ensures |points| == |Returned(cfg, history)|
  {
    if history == [] then []
    else
      var m := |history| - 1;
      var c := After(cfg, history[..m]);
      Points(cfg, history[..m]) + (if Collective(Request(cfg, c)) then [c] else [])
  }

  /** The results received determine where each collective call was made. */
  ghost predicate PointOf(cfg: Config, points: seq<Ctl>, results: seq<seq<TimeRank>>, i: nat) {
    i < |points| && i <= |results| && points[i] == Wait(cfg, Epoch(cfg, results[..i]))
  }

  lemma {:induction false} PointsFollow(cfg: Config, history: seq<seq<TimeRank>>, i: nat)
    requires Legal(cfg, history) && i < |Returned(cfg, history)|
    ensures PointOf(cfg, Points(cfg, history), Returned(cfg, history), i)
  {
    hide Move, Wait, Epoch, Segment, Script, Request;
    var m := |history| - 1;
    var c := After(cfg, history[..m]);
    var before := Returned(cfg, history[..m]);
    if i < |before| {
      PointsFollow(cfg, history[..m], i);
      assert Returned(cfg, history)[..i] == before[..i];
    } else {
      RunFollows(cfg, history[..m]);
      WaitHere(cfg, c);
      assert Returned(cfg, history)[..i] == before;
    }
  }

  lemma WaitHere(cfg: Config, c: Ctl)
    requires Terminal(c) || Collective(Request(cfg, c))
    ensures Wait(cfg, c) == c
  {
  }
}
