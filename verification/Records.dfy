/** What a rank records of a timed sample: the iterations whose reduced time reaches the
    threshold, the local side of each, and the reduced phase times of each. */
module Records {
  import opened Reduction
  import opened PhaseTiming
  import opened Control

  /** An iteration, counted from 1, its longest time over all ranks and the rank it occurred on. */
  datatype IterationRecord = IterationRecord(iteration: nat, seconds: real, rank: nat)

  /** The same iteration as one rank saw it. */
  datatype LocalRecord = LocalRecord(iteration: nat, localSeconds: real, globalSeconds: real, globalRank: nat, phases: Phases)

  datatype PhaseRecord = PhaseRecord(total: IterationRecord, phase: Phase, seconds: real, rank: nat)

  predicate Increasing(ks: seq<nat>) {
    forall i, j | 0 <= i < j < |ks| :: ks[i] < ks[j]
  }

  /** Exactly the emitted positions, in order. */
  lemma {:induction false} KeptExact(thresholdUs: real, reply: seq<TimeRank>)
    ensures var ks := Kept(thresholdUs, reply);
            && Increasing(ks)
            && (forall i: nat :: i in ks <==> i < |reply| && Emits(thresholdUs, reply[i].seconds))
  {
    if reply != [] {
      var m := |reply| - 1;
      KeptExact(thresholdUs, reply[..m]);
      forall i: nat
        ensures i in Kept(thresholdUs, reply) <==> i < |reply| && Emits(thresholdUs, reply[i].seconds)
      {
        assert i < m ==> reply[..m][i] == reply[i];
      }
    }
  }

  /** The times compared are the reduced ones, so every rank keeps the same positions. */
  function Recorded(reply: seq<TimeRank>, ks: seq<nat>): seq<IterationRecord>
    requires forall j | 0 <= j < |ks| :: ks[j] < |reply|
  {
    seq(|ks|, j requires 0 <= j < |ks| => IterationRecord(ks[j] + 1, reply[ks[j]].seconds, reply[ks[j]].rank))
  }

  function Local(locals: seq<real>, phases: seq<Phases>, r: IterationRecord): LocalRecord
    requires 1 <= r.iteration <= |locals|
  {
    LocalRecord(r.iteration, locals[r.iteration - 1], r.seconds, r.rank,
                if r.iteration <= |phases| then phases[r.iteration - 1] else NO_TIME)
  }

  predicate Within(records: seq<IterationRecord>, n: nat) {
    forall j | 0 <= j < |records| :: 1 <= records[j].iteration <= n
  }

  function Locals(locals: seq<real>, phases: seq<Phases>, records: seq<IterationRecord>): seq<LocalRecord>
    requires Within(records, |locals|)
  {
    seq(|records|, j requires 0 <= j < |records| => Local(locals, phases, records[j]))
  }

  lemma KeptStep(thresholdUs: real, reply: seq<TimeRank>, i: nat)
    requires i < |reply|
    ensures Kept(thresholdUs, reply[..i + 1])
         == Kept(thresholdUs, reply[..i]) + (if Emits(thresholdUs, reply[i].seconds) then [i] else [])
  {
    assert reply[..i + 1][..i] == reply[..i];
  }

  /** The records of the first i iterations. */
  function RecordsUpTo(thresholdUs: real, reply: seq<TimeRank>, i: nat): (records: seq<IterationRecord>)
    requires i <= |reply|
    ensures Within(records, |reply|)
  {
    Recorded(reply, Kept(thresholdUs, reply[..i]))
  }

  lemma RecordsUpToNext(thresholdUs: real, reply: seq<TimeRank>, i: nat)
    requires i < |reply|
    ensures RecordsUpTo(thresholdUs, reply, i + 1)
         == RecordsUpTo(thresholdUs, reply, i)
            + (if Emits(thresholdUs, reply[i].seconds) then [IterationRecord(i + 1, reply[i].seconds, reply[i].rank)] else [])
  {
    KeptStep(thresholdUs, reply, i);
  }

  lemma LocalsStep(locals: seq<real>, phases: seq<Phases>, records: seq<IterationRecord>, r: IterationRecord)
    requires Within(records, |locals|) && 1 <= r.iteration <= |locals|
    ensures Within(records + [r], |locals|)
    ensures Locals(locals, phases, records + [r]) == Locals(locals, phases, records) + [Local(locals, phases, r)]
  {
  }

  method RecordIterations(thresholdUs: real, recordStalled: bool, reductions: seq<TimeRank>,
                          localSeconds: seq<real>, localPhases: seq<Phases>)
    returns (records: seq<IterationRecord>, stalls: nat, localRecords: seq<LocalRecord>)
    requires |localSeconds| == |reductions|
    ensures records == Recorded(reductions, Kept(thresholdUs, reductions)) && Within(records, |reductions|)
    ensures stalls == if thresholdUs <= 0.0 then 0 else |records|
    ensures localRecords == if recordStalled then Locals(localSeconds, localPhases, records) else []
  {
    var emitAll := thresholdUs <= 0.0;
    var thresholdSeconds := thresholdUs * 0.000001;
    records, stalls, localRecords := [], 0, [];
    for i := 0 to |reductions|
      invariant records == RecordsUpTo(thresholdUs, reductions, i)
      invariant stalls == if emitAll then 0 else |records|
      invariant localRecords == if recordStalled then Locals(localSeconds, localPhases, records) else []
    {
      RecordsUpToNext(thresholdUs, reductions, i);
      var reduced := reductions[i];
      var isStall := !emitAll && reduced.seconds >= thresholdSeconds;
      if isStall {
        stalls := stalls + 1;
      }
      if emitAll || isStall {
        LocalsStep(localSeconds, localPhases, records, IterationRecord(i + 1, reduced.seconds, reduced.rank));
        records := records + [IterationRecord(i + 1, reduced.seconds, reduced.rank)];
        if recordStalled {
          var localPhase := if i < |localPhases| then localPhases[i] else NO_TIME;
          localRecords := localRecords + [LocalRecord(i + 1, localSeconds[i], reduced.seconds, reduced.rank, localPhase)];
        }
      }
    }
    assert reductions[..|reductions|] == reductions;
  }

  /** The local times of one phase over the recorded iterations. */
  function PhaseVector(schema: Schema, phase: Phase, records: seq<IterationRecord>, phases: seq<Phases>): (xs: seq<real>)
    requires Within(records, |phases|)
    ensures |xs| == |records|
  {
    seq(|records|, j requires 0 <= j < |records| => Lookup(PhaseValues(schema, phases[records[j].iteration - 1]), phase))
  }

  method LocalPhaseSeconds(schema: Schema, phase: Phase, records: seq<IterationRecord>, phases: seq<Phases>)
    returns (xs: seq<real>)
    requires Within(records, |phases|)
    ensures xs == PhaseVector(schema, phase, records, phases)
  {
    xs := [];
    for j := 0 to |records|
      invariant |xs| == j
      invariant forall i | 0 <= i < j :: xs[i] == Lookup(PhaseValues(schema, phases[records[i].iteration - 1]), phase)
    {
      xs := xs + [Lookup(PhaseValues(schema, phases[records[j].iteration - 1]), phase)];
    }
  }

  function PhaseRows(phase: Phase, records: seq<IterationRecord>, reply: seq<TimeRank>): (rows: seq<PhaseRecord>)
    requires |reply| == |records|
    ensures |rows| == |records|
  {
    seq(|records|, j requires 0 <= j < |records| => PhaseRecord(records[j], phase, reply[j].seconds, reply[j].rank))
  }

  method AppendPhaseRows(rows: seq<PhaseRecord>, phase: Phase, records: seq<IterationRecord>, reply: seq<TimeRank>)
    returns (all: seq<PhaseRecord>)
    requires |reply| == |records|
    ensures all == rows + PhaseRows(phase, records, reply)
  {
    all := rows;
    for j := 0 to |records|
      invariant all == rows + PhaseRows(phase, records, reply)[..j]
    {
      all := all + [PhaseRecord(records[j], phase, reply[j].seconds, reply[j].rank)];
    }
  }
}
