/** What the reduced phase times can and cannot add up to. Each phase is reduced over the ranks
    on its own, so their sum may exceed the reduced total, but only up to a known factor. */
module PhaseBounds {
  import opened PhaseTiming
  import opened Backend

  lemma DivideSum(x: real, y: real, d: real)
    requires d > 0.0
    ensures (x + y) / d == x / d + y / d
  {
  }

  lemma DivideOrder(x: real, y: real, d: real)
    requires d > 0.0 && x <= y
    ensures x / d <= y / d
  {
    assert y / d - x / d == (y - x) / d;
    assert (y - x) / d >= 0.0;
  }

  function Scaled(xs: seq<real>, d: real): (ys: seq<real>)
    requires d > 0.0
    ensures |ys| == |xs|
  {
    seq(|xs|, i requires 0 <= i < |xs| => xs[i] / d)
  }

  lemma {:induction false} SumScaled(xs: seq<real>, d: real)
    requires d > 0.0
    ensures Sum(Scaled(xs, d)) == Sum(xs) / d
  {
    if xs != [] {
      var m := |xs| - 1;
      SumScaled(xs[..m], d);
      assert Scaled(xs, d)[..m] == Scaled(xs[..m], d);
      DivideSum(Sum(xs[..m]), xs[m], d);
    }
  }

  lemma PhasesNonnegative(ordered: bool, p: Phases)
    requires Elapsed(ordered, p)
    ensures PhaseTimingSum(p) == Sum(LocalPhases(ordered, p))
    ensures forall i | 0 <= i < |LocalPhases(ordered, p)| :: LocalPhases(ordered, p)[i] >= 0.0
  {
    SumMatchesSchema(SchemaOf(ordered), p);
    LocalPhasesOfSchema(ordered, p);
  }

  /** A rank whose phases fit into its local time has phase averages that fit into its average. */
  lemma AveragesFit(ordered: bool, acc: Phases, total: real, iterations: nat)
    requires iterations > 0 && Elapsed(ordered, acc) && PhaseTimingSum(acc) <= total
    ensures var d := iterations as real;
            Accounted(Scaled(LocalPhases(ordered, acc), d), total / d, if ordered then 4 else 6)
  {
    hide PhaseTimingSum, Elapsed, LocalPhases, Sum;
    var d := iterations as real;
    var xs := LocalPhases(ordered, acc);
    PhasesNonnegative(ordered, acc);
    SumScaled(xs, d);
    DivideOrder(Sum(xs), total, d);
    forall i | 0 <= i < |xs|
      ensures Scaled(xs, d)[i] >= 0.0
    {
      DivideOrder(0.0, xs[i], d);
    }
  }

  ghost predicate FitsOn(ordered: bool, accs: seq<Phases>, totals: seq<real>, r: int) {
    0 <= r < |accs| == |totals| && Elapsed(ordered, accs[r]) && PhaseTimingSum(accs[r]) <= totals[r]
  }

  ghost function LocalAverages(ordered: bool, accs: seq<Phases>, iterations: nat): (local: seq<seq<real>>)
    requires iterations > 0
    ensures |local| == |accs|
  {
    seq(|accs|, r requires 0 <= r < |accs| => Scaled(LocalPhases(ordered, accs[r]), iterations as real))
  }

  /** The result of phase_timing_result on every rank: with P phases, the unattributed time is
      at most the total and at least minus P - 1 times the total. With iterations == 1 this is
      also what holds of the phase rows of one recorded iteration. */
  lemma ReducedUnattributed(ordered: bool, accs: seq<Phases>, totals: seq<real>, iterations: nat, result: Phases)
    requires iterations > 0 && accs != [] && |accs| == |totals|
    requires forall r | 0 <= r < |accs| :: FitsOn(ordered, accs, totals, r)
    requires OnlySchema(SchemaOf(ordered), result)
    requires AllReduced(LocalAverages(ordered, accs, iterations), if ordered then 4 else 6, LocalPhases(ordered, result))
    ensures var total := MaxOver(Scaled(totals, iterations as real));
            -Times(if ordered then 3 else 5, total) <= total - PhaseTimingSum(result) <= total
  {
    hide PhaseTimingSum, Elapsed, LocalPhases, Sum, OnlySchema, AllReduced, Times, MaxOver, Accounted;
    var n := if ordered then 4 else 6;
    var local := LocalAverages(ordered, accs, iterations);
    var averages := Scaled(totals, iterations as real);
    forall r | 0 <= r < |local|
      ensures Accounted(local[r], averages[r], n)
    {
      assert FitsOn(ordered, accs, totals, r);
      AveragesFit(ordered, accs[r], totals[r], iterations);
    }
    UnattributedBound(local, averages, n, LocalPhases(ordered, result));
    SumMatchesSchema(SchemaOf(ordered), result);
    LocalPhasesOfSchema(ordered, result);
  }
}
