/** Phase timings: the record every backend fills in part, the sum over its phases, the phases
    of each schema, and the bounds on the time no phase accounts for. Times are ideal reals. */
module PhaseTiming {

  /** The phase fields of PhaseTimingResult. */
  datatype Phases = Phases(
    inputDeviceCopy: real, northSouthMpi: real, northSouthCommunication: real, northSouthSync: real,
    transposeDeviceCopy: real, transposeCopy: real, transposeCopySync: real, transposeSync: real,
    eastWestMpi: real, eastWestCommunication: real, eastWestSync: real,
    northSouthEnqueue: real, transposeEnqueue: real, eastWestEnqueue: real, finalStreamSync: real)

  const NO_TIME := Phases(0.0, 0.0, 0.0, 0.0, 0.0, 0.0, 0.0, 0.0, 0.0, 0.0, 0.0, 0.0, 0.0, 0.0, 0.0)

  datatype Schema = StreamOrdered | Conservative | MpiHip | Unknown

  function Sum(xs: seq<real>): real {
    if xs == [] then 0.0 else Sum(xs[..|xs| - 1]) + xs[|xs| - 1]
  }

  /** The sum guesses the schema from the fields that are not zero. */
  function PhaseTimingSum(p: Phases): real {
    if p.northSouthEnqueue != 0.0 || p.transposeEnqueue != 0.0 || p.eastWestEnqueue != 0.0 || p.finalStreamSync != 0.0
    then p.northSouthEnqueue + p.transposeEnqueue + p.eastWestEnqueue + p.finalStreamSync
    else if p.northSouthCommunication != 0.0 || p.transposeCopy != 0.0 || p.transposeSync != 0.0
            || p.eastWestCommunication != 0.0
    then p.inputDeviceCopy + p.northSouthCommunication + p.northSouthSync + p.transposeCopy
         + p.transposeSync + p.eastWestCommunication + p.eastWestSync
    else p.inputDeviceCopy + p.northSouthMpi + p.northSouthSync + p.transposeDeviceCopy
         + p.transposeCopySync + p.eastWestMpi + p.eastWestSync
  }

  /** Phase times with their sum, the total they belong to and what no phase accounts for. */
  datatype PhaseReport = PhaseReport(phases: Phases, phaseSum: real, total: real, unattributed: real)

  datatype Phase =
    | InputDeviceCopy | NorthSouthMpi | NorthSouthCommunication | NorthSouthSync
    | TransposeDeviceCopy | TransposeCopy | TransposeCopySync | TransposeSync
    | EastWestMpi | EastWestCommunication | EastWestSync
    | NorthSouthEnqueue | TransposeEnqueue | EastWestEnqueue | FinalStreamSync

  datatype PhaseValue = PhaseValue(phase: Phase, seconds: real)

  /** The phases of a schema in output order. */
  function PhaseValues(schema: Schema, p: Phases): seq<PhaseValue> {
    match schema
    case StreamOrdered =>
      [PhaseValue(NorthSouthEnqueue, p.northSouthEnqueue), PhaseValue(TransposeEnqueue, p.transposeEnqueue),
       PhaseValue(EastWestEnqueue, p.eastWestEnqueue), PhaseValue(FinalStreamSync, p.finalStreamSync)]
    case Conservative =>
      [PhaseValue(NorthSouthCommunication, p.northSouthCommunication), PhaseValue(NorthSouthSync, p.northSouthSync),
       PhaseValue(TransposeCopy, p.transposeCopy), PhaseValue(TransposeSync, p.transposeSync),
       PhaseValue(EastWestCommunication, p.eastWestCommunication), PhaseValue(EastWestSync, p.eastWestSync)]
    case MpiHip =>
      [PhaseValue(InputDeviceCopy, p.inputDeviceCopy), PhaseValue(NorthSouthMpi, p.northSouthMpi),
       PhaseValue(NorthSouthSync, p.northSouthSync), PhaseValue(TransposeDeviceCopy, p.transposeDeviceCopy),
       PhaseValue(TransposeCopySync, p.transposeCopySync), PhaseValue(EastWestMpi, p.eastWestMpi),
       PhaseValue(EastWestSync, p.eastWestSync)]
    case Unknown => []
  }

  /** The field behind a phase name. */
  function FieldOf(p: Phases, phase: Phase): real {
    match phase
    case InputDeviceCopy => p.inputDeviceCopy
    case NorthSouthMpi => p.northSouthMpi
    case NorthSouthCommunication => p.northSouthCommunication
    case NorthSouthSync => p.northSouthSync
    case TransposeDeviceCopy => p.transposeDeviceCopy
    case TransposeCopy => p.transposeCopy
    case TransposeCopySync => p.transposeCopySync
    case TransposeSync => p.transposeSync
    case EastWestMpi => p.eastWestMpi
    case EastWestCommunication => p.eastWestCommunication
    case EastWestSync => p.eastWestSync
    case NorthSouthEnqueue => p.northSouthEnqueue
    case TransposeEnqueue => p.transposeEnqueue
    case EastWestEnqueue => p.eastWestEnqueue
    case FinalStreamSync => p.finalStreamSync
  }

  /** Every listed phase has the value of the field it is named after; no name is listed twice. */
  lemma NamedAfterField(schema: Schema, p: Phases, i: nat)
    requires i < |PhaseValues(schema, p)|
    ensures PhaseValues(schema, p)[i].seconds == FieldOf(p, PhaseValues(schema, p)[i].phase)
    ensures forall j | 0 <= j < i :: PhaseValues(schema, p)[j].phase != PhaseValues(schema, p)[i].phase
  {
  }

  /** The names each schema lists, in the order in which the phases take place. */
  function PhaseNames(schema: Schema): (names: seq<Phase>)
    ensures forall p :: |PhaseValues(schema, p)| == |names| && forall i | 0 <= i < |names| :: PhaseValues(schema, p)[i].phase == names[i]
  {
    match schema
    case StreamOrdered => [NorthSouthEnqueue, TransposeEnqueue, EastWestEnqueue, FinalStreamSync]
    case Conservative =>
      [NorthSouthCommunication, NorthSouthSync, TransposeCopy, TransposeSync, EastWestCommunication, EastWestSync]
    case MpiHip =>
      [InputDeviceCopy, NorthSouthMpi, NorthSouthSync, TransposeDeviceCopy, TransposeCopySync, EastWestMpi, EastWestSync]
    case Unknown => []
  }

  /** The first value of that phase, or zero. */
  function Lookup(values: seq<PhaseValue>, phase: Phase): real {
    if values == [] then 0.0 else if values[0].phase == phase then values[0].seconds else Lookup(values[1..], phase)
  }

  /** Looking a phase up by name finds the value at its own position, in any record of the schema. */
  lemma LookupOwn(schema: Schema, p: Phases, q: Phases, i: nat)
    requires i < |PhaseValues(schema, p)|
    ensures |PhaseValues(schema, q)| == |PhaseValues(schema, p)|
    ensures Lookup(PhaseValues(schema, q), PhaseValues(schema, p)[i].phase) == PhaseValues(schema, q)[i].seconds
  {
    var phase := PhaseValues(schema, p)[i].phase;
    var values := PhaseValues(schema, q);
    forall j: nat | j < i
      ensures values[j].phase != phase
    {
      assert values[j].phase == PhaseValues(schema, p)[j].phase;
    }
    LookupFirst(values, phase, i);
  }

  lemma {:induction false} LookupFirst(values: seq<PhaseValue>, phase: Phase, i: nat)
    requires i < |values| && values[i].phase == phase
    requires forall j: nat | j < i :: values[j].phase != phase
    ensures Lookup(values, phase) == values[i].seconds
  {
    if i > 0 {
      assert values[0].phase != phase;
      forall j: nat | j < i - 1
        ensures values[1..][j].phase != phase
      {
        assert values[1..][j] == values[j + 1];
      }
      LookupFirst(values[1..], phase, i - 1);
    }
  }

  function Seconds(values: seq<PhaseValue>): seq<real> {
    seq(|values|, i requires 0 <= i < |values| => values[i].seconds)
  }

  /** Only the phases of the schema have been timed. */
  predicate OnlySchema(schema: Schema, p: Phases) {
    match schema
    case StreamOrdered =>
      p == NO_TIME.(northSouthEnqueue := p.northSouthEnqueue, transposeEnqueue := p.transposeEnqueue,
                    eastWestEnqueue := p.eastWestEnqueue, finalStreamSync := p.finalStreamSync)
    case Conservative =>
      p == NO_TIME.(northSouthCommunication := p.northSouthCommunication, northSouthSync := p.northSouthSync,
                    transposeCopy := p.transposeCopy, transposeSync := p.transposeSync,
                    eastWestCommunication := p.eastWestCommunication, eastWestSync := p.eastWestSync)
    case MpiHip =>
      p == NO_TIME.(inputDeviceCopy := p.inputDeviceCopy, northSouthMpi := p.northSouthMpi,
                    northSouthSync := p.northSouthSync, transposeDeviceCopy := p.transposeDeviceCopy,
                    transposeCopySync := p.transposeCopySync, eastWestMpi := p.eastWestMpi,
                    eastWestSync := p.eastWestSync)
    case Unknown => p == NO_TIME
  }

  lemma SumPrefix(xs: seq<real>, n: nat)
    requires n < |xs|
    ensures Sum(xs[..n + 1]) == Sum(xs[..n]) + xs[n]
  {
    assert xs[..n + 1][..n] == xs[..n];
  }

  lemma Sum4(xs: seq<real>)
    requires |xs| >= 4
    ensures Sum(xs[..4]) == xs[0] + xs[1] + xs[2] + xs[3]
  {
    SumPrefix(xs, 0);
    SumPrefix(xs, 1);
    SumPrefix(xs, 2);
    SumPrefix(xs, 3);
  }

  /** For a record of any one schema the guess comes out right, also when the fields it tests
      are all zero and it falls through to the formula of another schema. */
  lemma SumMatchesSchema(schema: Schema, p: Phases)
    requires OnlySchema(schema, p)
    ensures PhaseTimingSum(p) == Sum(Seconds(PhaseValues(schema, p)))
  {
    var xs := Seconds(PhaseValues(schema, p));
    if schema != Unknown {
      Sum4(xs);
      assert xs[..|xs|] == xs;
      if schema == Conservative || schema == MpiHip {
        SumPrefix(xs, 4);
        SumPrefix(xs, 5);
      }
      if schema == MpiHip {
        SumPrefix(xs, 6);
      }
    }
  }

  // ----- records with fields of several schemas

  /** A field only the stream-ordered schema has. */
  predicate AnyEnqueue(p: Phases) {
    p.northSouthEnqueue != 0.0 || p.transposeEnqueue != 0.0 || p.eastWestEnqueue != 0.0 || p.finalStreamSync != 0.0
  }

  /** A field only the conservative schema has. */
  predicate AnyGeneric(p: Phases) {
    p.northSouthCommunication != 0.0 || p.transposeCopy != 0.0 || p.transposeSync != 0.0 || p.eastWestCommunication != 0.0
  }

  /** A field only the MPI-HIP schema has. */
  predicate AnyMpi(p: Phases) {
    p.inputDeviceCopy != 0.0 || p.northSouthMpi != 0.0 || p.transposeDeviceCopy != 0.0 || p.transposeCopySync != 0.0
    || p.eastWestMpi != 0.0
  }

  predicate AnySync(p: Phases) { p.northSouthSync != 0.0 || p.eastWestSync != 0.0 }

  predicate NonnegativePhases(p: Phases) {
    && p.inputDeviceCopy >= 0.0 && p.northSouthMpi >= 0.0 && p.northSouthCommunication >= 0.0 && p.northSouthSync >= 0.0
    && p.transposeDeviceCopy >= 0.0 && p.transposeCopy >= 0.0 && p.transposeCopySync >= 0.0 && p.transposeSync >= 0.0
    && p.eastWestMpi >= 0.0 && p.eastWestCommunication >= 0.0 && p.eastWestSync >= 0.0
    && p.northSouthEnqueue >= 0.0 && p.transposeEnqueue >= 0.0 && p.eastWestEnqueue >= 0.0 && p.finalStreamSync >= 0.0
  }

  function EnqueueTotal(p: Phases): real { p.northSouthEnqueue + p.transposeEnqueue + p.eastWestEnqueue + p.finalStreamSync }

  function GenericTotal(p: Phases): real { p.northSouthCommunication + p.transposeCopy + p.transposeSync + p.eastWestCommunication }

  function MpiTotal(p: Phases): real { p.northSouthMpi + p.transposeDeviceCopy + p.transposeCopySync + p.eastWestMpi }

  function SyncTotal(p: Phases): real { p.northSouthSync + p.eastWestSync }

  /** The total of a schema's own phases. */
  function SchemaTotal(schema: Schema, p: Phases): real {
    Sum(Seconds(PhaseValues(schema, p)))
  }

  lemma SchemaTotals(p: Phases)
    ensures SchemaTotal(StreamOrdered, p) == EnqueueTotal(p)
    ensures SchemaTotal(Conservative, p) == GenericTotal(p) + SyncTotal(p)
    ensures SchemaTotal(MpiHip, p) == p.inputDeviceCopy + MpiTotal(p) + SyncTotal(p)
    ensures SchemaTotal(Unknown, p) == 0.0
  {
    var xs, ys, zs := Seconds(PhaseValues(StreamOrdered, p)), Seconds(PhaseValues(Conservative, p)), Seconds(PhaseValues(MpiHip, p));
    Sum4(xs);
    Sum4(ys);
    SumPrefix(ys, 4);
    SumPrefix(ys, 5);
    Sum4(zs);
    SumPrefix(zs, 4);
    SumPrefix(zs, 5);
    SumPrefix(zs, 6);
    assert xs[..4] == xs && ys[..6] == ys && zs[..7] == zs;
  }

  /** When the guess is the total of that schema: by the branch the sum takes, either no field
      outside the schema is added and none of its own is dropped, or what is dropped and what is
      added instead happen to be equal. */
  predicate GuessFits(schema: Schema, p: Phases) {
    if AnyEnqueue(p) then
      match schema
      case StreamOrdered => true
      case Conservative => EnqueueTotal(p) == GenericTotal(p) + SyncTotal(p)
      case MpiHip => EnqueueTotal(p) == p.inputDeviceCopy + MpiTotal(p) + SyncTotal(p)
      case Unknown => false
    else if AnyGeneric(p) then
      match schema
      case StreamOrdered => false
      case Conservative => p.inputDeviceCopy == 0.0
      case MpiHip => GenericTotal(p) == MpiTotal(p)
      case Unknown => false
    else
      match schema
      case StreamOrdered => !AnyMpi(p) && !AnySync(p)
      case Conservative => !AnyMpi(p)
      case MpiHip => true
      case Unknown => !AnyMpi(p) && !AnySync(p)
  }

  /** The exact condition, for every record of times, mixed or not. Times are never negative. */
  lemma GuessExact(schema: Schema, p: Phases)
    requires NonnegativePhases(p)
    ensures PhaseTimingSum(p) == SchemaTotal(schema, p) <==> GuessFits(schema, p)
  {
    hide SchemaTotal;
    SchemaTotals(p);
  }

  /** A mixed record that is misread, and one that is not. */
  lemma MixedRecords()
    ensures var p := NO_TIME.(northSouthSync := 1.0, finalStreamSync := 2.0);
            PhaseTimingSum(p) != SchemaTotal(Conservative, p)
    ensures var p := NO_TIME.(northSouthCommunication := 1.0, northSouthMpi := 1.0);
            PhaseTimingSum(p) == SchemaTotal(Conservative, p) == SchemaTotal(MpiHip, p)
  {
    hide SchemaTotal;
    SchemaTotals(NO_TIME.(northSouthSync := 1.0, finalStreamSync := 2.0));
    SchemaTotals(NO_TIME.(northSouthCommunication := 1.0, northSouthMpi := 1.0));
  }

  // ----- reduced phase averages

  function Max(a: real, b: real): real { if a < b then b else a }

  /** The maximum over all ranks. */
  function MaxOver(xs: seq<real>): (m: real)
    requires xs != []
    ensures m in xs && forall x | x in xs :: x <= m
  {
    if |xs| == 1 then xs[0]
    else
      assert xs == xs[..|xs| - 1] + [xs[|xs| - 1]];
      Max(MaxOver(xs[..|xs| - 1]), xs[|xs| - 1])
  }

  /** The local times of every phase on one rank, and that rank's total. */
  ghost predicate Accounted(phases: seq<real>, total: real, n: nat) {
    |phases| == n && (forall p | 0 <= p < n :: phases[p] >= 0.0) && Sum(phases) <= total
  }

  /** The phases of every rank fit into that rank's own total. */
  ghost predicate AllAccounted(local: seq<seq<real>>, totals: seq<real>, n: nat) {
    |local| == |totals| && forall r | 0 <= r < |local| :: Accounted(local[r], totals[r], n)
  }

  /** Each phase reduced on its own. */
  ghost predicate AllReduced(local: seq<seq<real>>, n: nat, reduced: seq<real>) {
    |reduced| == n && forall p: nat | p < n :: ReducedPhase(local, n, reduced, p)
  }

  lemma {:induction false} PartAtMostSum(xs: seq<real>, p: nat)
    requires p < |xs| && forall q | 0 <= q < |xs| :: xs[q] >= 0.0
    ensures 0.0 <= xs[p] <= Sum(xs)
  {
    var m := |xs| - 1;
    if p < m {
      PartAtMostSum(xs[..m], p);
    } else if m > 0 {
      PartAtMostSum(xs[..m], 0);
    }
  }

  /** n times t. */
  function Times(n: nat, t: real): real {
    if n == 0 then 0.0 else Times(n - 1, t) + t
  }

  lemma {:induction false} TimesIsProduct(n: nat, t: real)
    ensures Times(n, t) == n as real * t
  {
    if n > 0 {
      TimesIsProduct(n - 1, t);
      assert n as real * t == (n - 1) as real * t + t;
    }
  }

  lemma {:induction false} SumAtMost(xs: seq<real>, bound: real)
    requires forall q | 0 <= q < |xs| :: 0.0 <= xs[q] <= bound
    ensures 0.0 <= Sum(xs) <= Times(|xs|, bound)
  {
    if |xs| > 0 {
      SumAtMost(xs[..|xs| - 1], bound);
    }
  }

  /** When every rank's phases fit into its own total, the phases reduced one by one to their
      maxima can exceed the reduced total, but by less than a factor of the phase count. */
  lemma UnattributedBound(local: seq<seq<real>>, totals: seq<real>, n: nat, reduced: seq<real>)
    requires totals != [] && n > 0 && AllAccounted(local, totals, n) && AllReduced(local, n, reduced)
    ensures var total := MaxOver(totals); -Times(n - 1, total) <= total - Sum(reduced) <= total
  {
    var t := MaxOver(totals);
    forall p | 0 <= p < |reduced|
      ensures 0.0 <= reduced[p] <= t
    {
      ReducedAtMost(local, totals, n, reduced, p);
    }
    SumAtMost(reduced, t);
  }

  lemma ReducedAtMost(local: seq<seq<real>>, totals: seq<real>, n: nat, reduced: seq<real>, p: nat)
    requires totals != [] && AllAccounted(local, totals, n) && AllReduced(local, n, reduced) && p < n
    ensures 0.0 <= reduced[p] <= MaxOver(totals)
  {
    assert ReducedPhase(local, n, reduced, p);
    var r :| 0 <= r < |local| && |local[r]| == n && reduced[p] == local[r][p];
    assert Accounted(local[r], totals[r], n);
    PartAtMostSum(local[r], p);
    assert totals[r] in totals;
  }

  /** The reduced value of phase p is the largest of the ranks' values. */
  ghost predicate ReducedPhase(local: seq<seq<real>>, n: nat, reduced: seq<real>, p: nat)
    requires p < n == |reduced|
  {
    && (exists r :: 0 <= r < |local| && |local[r]| == n && reduced[p] == local[r][p])
    && (forall r | 0 <= r < |local| && |local[r]| == n :: local[r][p] <= reduced[p])
  }
}
