/** The geometric sweep of halo lengths, computed in a word type whose largest value is top. */
module HaloSweep {
  import opened Topology

  datatype SweepError =
    | MinNotPositive | MaxNotPositive | MultiplierTooSmall | MaxBelowMin | Overflows | NoProgress

  datatype Sweep = Lengths(lengths: seq<nat>) | Failed(error: SweepError)

  function Power(m: nat, i: nat): nat {
    if i == 0 then 1 else Power(m, i - 1) * m
  }

  /** The i-th term of the sweep as a natural number, whatever the word size. */
  function Term(min: nat, m: nat, i: nat): nat { min * Power(m, i) }

  lemma TermNext(min: nat, m: nat, i: nat)
    ensures Term(min, m, i + 1) == Term(min, m, i) * m
  {
    MulAssoc(min, Power(m, i), m);
  }

  lemma {:induction false} TermGrows(min: nat, m: nat, i: nat, j: nat)
    requires min >= 1 && m >= 2 && i < j
    ensures 1 <= Term(min, m, i) < Term(min, m, j)
    decreases j
  {
    TermPositive(min, m, i);
    TermNext(min, m, j - 1);
    if i < j - 1 {
      TermGrows(min, m, i, j - 1);
    }
    MulLess(1, m, Term(min, m, j - 1));
  }

  lemma {:induction false} TermPositive(min: nat, m: nat, i: nat)
    requires min >= 1 && m >= 1
    ensures Term(min, m, i) >= 1
  {
    if i > 0 {
      TermPositive(min, m, i - 1);
      TermNext(min, m, i - 1);
      MulLessEq(1, m, Term(min, m, i - 1));
    } else {
      assert Power(m, 0) == 1;
    }
  }

  /** From min on each length is m times the one before, up to max but not beyond. */
  ghost predicate Chain(lengths: seq<nat>, min: nat, max: nat, m: nat) {
    && lengths != [] && lengths[0] == min
    && (forall i | 0 <= i < |lengths| - 1 :: lengths[i + 1] == lengths[i] * m)
    && lengths[|lengths| - 1] <= max < lengths[|lengths| - 1] * m
  }

  lemma {:induction false} ChainTerm(lengths: seq<nat>, min: nat, m: nat, i: nat)
    requires i < |lengths| && lengths[0] == min
    requires forall i | 0 <= i < |lengths| - 1 :: lengths[i + 1] == lengths[i] * m
    ensures lengths[i] == Term(min, m, i)
  {
    if i == 0 {
      assert Power(m, 0) == 1;
    } else {
      ChainTerm(lengths, min, m, i - 1);
      TermNext(min, m, i - 1);
    }
  }

  /** The list of all terms is that chain. */
  lemma TermsChain(lengths: seq<nat>, min: nat, max: nat, m: nat)
    requires 1 <= min <= max && m >= 2
    ensures AllTerms(lengths, min, max, m) <==> Chain(lengths, min, max, m)
  {
    assert Power(m, 0) == 1;
    if AllTerms(lengths, min, max, m) {
      forall i | 0 <= i < |lengths| - 1
        ensures lengths[i + 1] == lengths[i] * m
      {
        TermNext(min, m, i);
      }
      TermNext(min, m, |lengths| - 1);
    }
    if Chain(lengths, min, max, m) {
      var k := |lengths| - 1;
      forall i | 0 <= i < |lengths|
        ensures lengths[i] == Term(min, m, i) <= max
      {
        ChainTerm(lengths, min, m, i);
        ChainTerm(lengths, min, m, k);
        if i < k {
          TermGrows(min, m, i, k);
        }
      }
      TermNext(min, m, k);
    }
  }

  /** The overflow error in terms of the chain: its last length is not max, and the next does not fit. */
  lemma OverflowsChain(min: nat, max: nat, m: nat, top: nat)
    requires 1 <= min <= max <= top && m >= 2
    ensures (exists k: nat :: OverflowsAt(min, max, m, top, k))
            <==> exists ls :: Chain(ls, min, max, m) && ls[|ls| - 1] != max && ls[|ls| - 1] * m > top
  {
    if k: nat :| OverflowsAt(min, max, m, top, k) {
      var ls := seq(k + 1, i requires 0 <= i => Term(min, m, i));
      forall i | 0 <= i < |ls|
        ensures ls[i] == Term(min, m, i) <= max
      {
        if i < k {
          TermGrows(min, m, i, k);
        }
      }
      TermNext(min, m, k);
      TermsChain(ls, min, max, m);
    }
    if ls :| Chain(ls, min, max, m) && ls[|ls| - 1] != max && ls[|ls| - 1] * m > top {
      var k := |ls| - 1;
      ChainTerm(ls, min, m, k);
      TermNext(min, m, k);
      assert OverflowsAt(min, max, m, top, k);
    }
  }

  /** All terms up to max and nothing else. */
  ghost predicate AllTerms(lengths: seq<nat>, min: nat, max: nat, m: nat) {
    && (forall i | 0 <= i < |lengths| :: lengths[i] == Term(min, m, i) <= max)
    && Term(min, m, |lengths|) > max
  }

  /** AllTerms determines the list, and a value is listed exactly if it is a term up to max. */
  lemma AllTermsExact(lengths: seq<nat>, min: nat, max: nat, m: nat, i: nat)
    requires min >= 1 && m >= 2 && AllTerms(lengths, min, max, m)
    ensures i < |lengths| <==> Term(min, m, i) <= max
    ensures forall other :: AllTerms(other, min, max, m) ==> other == lengths
  {
    if i > |lengths| {
      TermGrows(min, m, |lengths|, i);
    }
    forall other | AllTerms(other, min, max, m)
      ensures other == lengths
    {
      NoLonger(lengths, other, min, max, m);
      NoLonger(other, lengths, min, max, m);
    }
  }

  lemma NoLonger(lengths: seq<nat>, other: seq<nat>, min: nat, max: nat, m: nat)
    requires min >= 1 && m >= 2 && AllTerms(lengths, min, max, m) && AllTerms(other, min, max, m)
    ensures |lengths| <= |other|
  {
    assert forall i | 0 <= i < |lengths| :: Term(min, m, i) <= max;
  }

  /** The largest term up to max is not max itself, and the next term does not fit a word. */
  ghost predicate OverflowsAt(min: nat, max: nat, m: nat, top: nat, k: nat) {
    Term(min, m, k) < max && Term(min, m, k + 1) > top
  }

  predicate ValidArguments(min: nat, max: nat, m: nat) {
    min > 0 && max > 0 && m > 1 && min <= max
  }

  /** halo > top / m is the test for halo * m > top that cannot itself overflow. */
  lemma DivisionTest(halo: nat, m: nat, top: nat)
    requires m >= 1
    ensures halo > top / m <==> halo * m > top
  {
    var q := top / m;
    assert top == q * m + top % m;
    if halo > q {
      MulLessEq(q + 1, halo, m);
      assert (q + 1) * m == q * m + m;
    } else {
      MulLessEq(halo, q, m);
    }
  }

  /** The sweep succeeds exactly if it does not overflow at its end; its own list of errors
      has one that never occurs, and every product it forms fits a word. */
  method GenerateHaloLengths(min: nat, max: nat, multiplier: nat, top: nat) returns (r: Sweep)
    requires min <= top && max <= top && multiplier <= top
    ensures r == Failed(MinNotPositive) <==> min == 0
    ensures r == Failed(MaxNotPositive) <==> min > 0 && max == 0
    ensures r == Failed(MultiplierTooSmall) <==> min > 0 && max > 0 && multiplier <= 1
    ensures r == Failed(MaxBelowMin) <==> min > 0 && max > 0 && multiplier > 1 && max < min
    ensures r != Failed(NoProgress)
    ensures r == Failed(Overflows) <==>
              ValidArguments(min, max, multiplier) && exists k: nat :: OverflowsAt(min, max, multiplier, top, k)
    ensures r.Lengths? ==> AllTerms(r.lengths, min, max, multiplier) && Chain(r.lengths, min, max, multiplier)
  {
    if min == 0 { return Failed(MinNotPositive); }
    if max == 0 { return Failed(MaxNotPositive); }
    if multiplier <= 1 { return Failed(MultiplierTooSmall); }
    if max < min { return Failed(MaxBelowMin); }
    var lengths: seq<nat> := [];
    var halo := min;
    assert Power(multiplier, 0) == 1;
    while halo <= max
      invariant halo == Term(min, multiplier, |lengths|) <= max
      invariant forall i | 0 <= i < |lengths| :: lengths[i] == Term(min, multiplier, i) <= max
      decreases max - halo
    {
      ghost var k := |lengths|;
      lengths := lengths + [halo];
      DivisionTest(halo, multiplier, top);
      TermNext(min, multiplier, k);
      TermPositive(min, multiplier, k);
      MulLess(1, multiplier, halo);
      if halo > top / multiplier {
        if halo != max {
          assert OverflowsAt(min, max, multiplier, top, k);
          return Failed(Overflows);
        }
        NoOverflow(min, max, multiplier, top, k);
        break;
      }
      var next := halo * multiplier;
      assert next <= top;
      if next <= halo {
        return Failed(NoProgress);
      }
      if next > max {
        NoOverflow(min, max, multiplier, top, k);
        break;
      }
      halo := next;
    }
    TermsChain(lengths, min, max, multiplier);
    return Lengths(lengths);
  }

  lemma NoOverflow(min: nat, max: nat, m: nat, top: nat, k: nat)
    requires min >= 1 && m >= 2 && max <= top
    requires Term(min, m, k) <= max < Term(min, m, k + 1)
    requires Term(min, m, k) == max || Term(min, m, k + 1) <= top
    ensures forall j: nat :: !OverflowsAt(min, max, m, top, j)
  {
    forall j: nat
      ensures !OverflowsAt(min, max, m, top, j)
    {
      if j < k {
        TermGrows(min, m, j, k);
        if j + 1 < k {
          TermGrows(min, m, j + 1, k);
        }
      } else if j > k {
        TermGrows(min, m, k, j);
        if j > k + 1 {
          TermGrows(min, m, k + 1, j);
        }
      }
    }
  }

  /** A 64-bit sweep is refused although all its terms fit: the single term 2^63 up to 2^63 + 1,
      whose double would be 2^64. */
  lemma RefusesCompleteSweep()
    ensures var min, max, top := 0x8000_0000_0000_0000, 0x8000_0000_0000_0001, 0xFFFF_FFFF_FFFF_FFFF;
            AllTerms([min], min, max, 2) && OverflowsAt(min, max, 2, top, 0)
  {
    assert Power(2, 0) == 1 && Power(2, 1) == 2;
  }
}
