/** Reductions over all ranks. Values are combined in any order: the operators are associative
    and commutative, and MAXLOC breaks ties towards the lower rank (MPI 3.1, section 5.9.4). */
module Reduction {

  datatype TimeRank = TimeRank(seconds: real, rank: nat)

  function Better(a: TimeRank, b: TimeRank): TimeRank {
    if b.seconds > a.seconds || (b.seconds == a.seconds && b.rank < a.rank) then b else a
  }

  lemma BetterAnyOrder(a: TimeRank, b: TimeRank, c: TimeRank)
    ensures Better(a, b) == Better(b, a)
    ensures Better(Better(a, b), c) == Better(a, Better(b, c))
  {
  }

  /** MAXLOC of the values of ranks 0 up to |xs|. */
  function MaxLoc(xs: seq<real>): TimeRank
    requires xs != []
  {
    var m := |xs| - 1;
    if m == 0 then TimeRank(xs[0], 0) else Better(MaxLoc(xs[..m]), TimeRank(xs[m], m))
  }

  /** The maximum, and the lowest rank that attains it. */
  lemma {:induction false} MaxLocCorrect(xs: seq<real>)
    requires xs != []
    ensures var r := MaxLoc(xs);
            && r.rank < |xs| && xs[r.rank] == r.seconds
            && (forall q | 0 <= q < |xs| :: xs[q] <= r.seconds)
            && (forall q | 0 <= q < r.rank :: xs[q] < r.seconds)
  {
    var m := |xs| - 1;
    if m > 0 {
      MaxLocCorrect(xs[..m]);
      assert forall q | 0 <= q < m :: xs[..m][q] == xs[q];
    }
  }

  function Min(xs: seq<real>): real
    requires xs != []
  {
    var m := |xs| - 1;
    if m == 0 then xs[0] else if xs[m] < Min(xs[..m]) then xs[m] else Min(xs[..m])
  }

  lemma {:induction false} MinMaxOfEqual(xs: seq<real>, v: real)
    requires xs != [] && forall q | 0 <= q < |xs| :: xs[q] == v
    ensures Min(xs) == v && MaxLoc(xs).seconds == v
  {
    var m := |xs| - 1;
    if m > 0 {
      MinMaxOfEqual(xs[..m], v);
    }
  }

  /** Element i of every rank's vector. */
  function Column(vectors: seq<seq<real>>, i: nat): (xs: seq<real>)
    ensures |xs| == |vectors|
  {
    seq(|vectors|, r requires 0 <= r < |vectors| => if i < |vectors[r]| then vectors[r][i] else 0.0)
  }
}
