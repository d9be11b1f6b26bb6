/** The inclusive linear percentile over sorted data, with ideal reals. */
module Percentile {
  import opened Options
  import opened Sorting

  function RealLeq(): (real, real) -> bool { (a, b) => a <= b }

  lemma RealOrder()
    ensures TotalOrder(RealLeq())
  {
  }

  ghost predicate Ascending(s: seq<real>) {
    forall i, j | 0 <= i <= j < |s| :: s[i] <= s[j]
  }

  function Ordered(values: seq<real>): (s: seq<real>)
    ensures Ascending(s) && multiset(s) == multiset(values) && |s| == |values|
  {
    RealOrder();
    SortCorrect(values, RealLeq());
    var s := Sort(values, RealLeq());
    assert forall i, j | 0 <= i < j < |s| :: RealLeq()(s[i], s[j]);
    s
  }

  function Ceil(x: real): int {
    if x == x.Floor as real then x.Floor else x.Floor + 1
  }

  /** Negative indices count from the end; others out of range are an error. */
  function Index(s: seq<real>, i: int): Option<real> {
    if 0 <= i < |s| then Some(s[i]) else if -|s| <= i < 0 then Some(s[|s| + i]) else None
  }

  function Mix(a: real, b: real, weight: real): real {
    a * (1.0 - weight) + b * weight
  }

  /** The value at a position, between two entries if it is not whole. */
  function At(s: seq<real>, position: real): Option<real> {
    var lower, upper := position.Floor, Ceil(position);
    if lower == upper then Index(s, lower)
    else if Index(s, lower).None? || Index(s, upper).None? then None
    else Some(Mix(Index(s, lower).value, Index(s, upper).value, position - lower as real))
  }

  /** The same for positions from the first to the last entry. */
  function Interpolated(s: seq<real>, position: real): (v: real)
    requires 0.0 <= position <= (|s| - 1) as real
    ensures At(s, position) == Some(v)
  {
    var lower, upper := position.Floor, Ceil(position);
    if lower == upper then s[lower]
    else
      assert 0 <= lower && upper == lower + 1 < |s|;
      assert Index(s, lower) == Some(s[lower]) && Index(s, upper) == Some(s[upper]);
      Mix(s[lower], s[upper], position - lower as real)
  }

  function Position(n: nat, fraction: real): real
    requires n >= 1
  {
    (n - 1) as real * fraction
  }

  lemma PositionWithin(n: nat, fraction: real)
    requires n >= 1 && 0.0 <= fraction <= 1.0
    ensures 0.0 <= Position(n, fraction) <= (n - 1) as real
  {
    Scale((n - 1) as real, fraction);
  }

  lemma Scale(m: real, f: real)
    requires m >= 0.0 && 0.0 <= f <= 1.0
    ensures 0.0 <= m * f <= m
  {
  }

  datatype Outcome = Value(value: real) | NoValues | OutOfRange

  function Percentile(values: seq<real>, fraction: real): Outcome {
    if |values| == 0 then NoValues
    else if |values| == 1 then Value(Ordered(values)[0])
    else
      var v := At(Ordered(values), Position(|values|, fraction));
      if v.Some? then Value(v.value) else OutOfRange
  }

  /** Exactly when there is a value, for any fraction: the empty sample has none, a single value
      always is the answer, and otherwise the rounded positions have to be valid indices, where
      negative ones count from the end. */
  lemma ValueIff(values: seq<real>, fraction: real)
    ensures Percentile(values, fraction).NoValues? <==> values == []
    ensures Percentile(values, fraction).Value? <==>
              |values| == 1
              || (|values| > 1 && var p := Position(|values|, fraction); -|values| <= p.Floor && Ceil(p) < |values|)
  {
  }

  /** From 0 to 1 there always is one. */
  lemma Within(values: seq<real>, fraction: real)
    requires |values| > 1 && 0.0 <= fraction <= 1.0
    ensures 0.0 <= Position(|values|, fraction) <= (|Ordered(values)| - 1) as real
    ensures Percentile(values, fraction) == Value(Interpolated(Ordered(values), Position(|values|, fraction)))
  {
    PositionWithin(|values|, fraction);
  }

  /** Between two entries the value lies between them, and grows with the weight. */
  lemma Between(a: real, b: real, w: real, w': real)
    requires a <= b && 0.0 <= w <= w' <= 1.0
    ensures a <= a * (1.0 - w) + b * w <= a * (1.0 - w') + b * w' <= b
  {
    Product(b - a, w);
    Product(b - a, w' - w);
    Product(b - a, 1.0 - w');
    assert a * (1.0 - w) + b * w == a + (b - a) * w;
    assert a * (1.0 - w') + b * w' == a + (b - a) * w';
    assert (b - a) * w' == (b - a) * w + (b - a) * (w' - w);
    assert (b - a) * (1.0 - w') == (b - a) - (b - a) * w';
  }

  lemma Product(x: real, y: real)
    requires x >= 0.0 && y >= 0.0
    ensures x * y >= 0.0
  {
  }

  lemma AtBounds(s: seq<real>, p: real)
    requires Ascending(s) && 0.0 <= p <= (|s| - 1) as real
    ensures s[p.Floor] <= Interpolated(s, p)
    ensures Ceil(p) < |s| && Interpolated(s, p) <= s[Ceil(p)]
  {
    var lower := p.Floor;
    if p != lower as real {
      var w := p - lower as real;
      assert Ceil(p) == lower + 1 < |s| && 0.0 <= w <= 1.0;
      assert s[lower] <= s[lower + 1];
      Between(s[lower], s[lower + 1], w, w);
      assert Interpolated(s, p) == s[lower] * (1.0 - w) + s[lower + 1] * w;
    }
  }

  lemma AtMonotone(s: seq<real>, p: real, q: real)
    requires Ascending(s) && 0.0 <= p <= q <= (|s| - 1) as real
    ensures Interpolated(s, p) <= Interpolated(s, q)
  {
    AtBounds(s, p);
    AtBounds(s, q);
    if p.Floor == q.Floor {
      if p != p.Floor as real {
        Between(s[p.Floor], s[p.Floor + 1], p - p.Floor as real, q - p.Floor as real);
      }
    } else {
      assert Ceil(p) <= q.Floor;
      assert s[Ceil(p)] <= s[q.Floor];
    }
  }

  /** Within the range of the data, and not decreasing in the fraction. */
  lemma PercentileMonotone(values: seq<real>, f: real, f': real)
    requires |values| > 0 && 0.0 <= f <= f' <= 1.0
    ensures var s := Ordered(values); var p, p' := Percentile(values, f), Percentile(values, f');
            p.Value? && p'.Value? && s[0] <= p.value <= p'.value <= s[|s| - 1]
  {
    var s := Ordered(values);
    if |values| > 1 {
      var p, p' := Position(|values|, f), Position(|values|, f');
      Within(values, f);
      Within(values, f');
      PositionMonotone(|values|, f, f');
      AtMonotone(s, p, p');
      AtBounds(s, p);
      AtBounds(s, p');
      assert s[0] <= s[p.Floor] && s[Ceil(p')] <= s[|s| - 1];
    }
  }

  lemma PositionMonotone(n: nat, f: real, f': real)
    requires n >= 1 && 0.0 <= f <= f' <= 1.0
    ensures Position(n, f) <= Position(n, f')
  {
    Product((n - 1) as real, f' - f);
    assert (n - 1) as real * (f' - f) == (n - 1) as real * f' - (n - 1) as real * f;
  }

  /** Between two neighbours of the sorted values the percentile is linear: a fraction w of the way
      from position i to the next one adds that fraction of the difference. */
  lemma Linear(values: seq<real>, i: nat, w: real)
    requires i < |values| - 1 && 0.0 <= w <= 1.0
    ensures var s := Ordered(values);
            Percentile(values, (i as real + w) / (|values| - 1) as real) == Value(s[i] + w * (s[i + 1] - s[i]))
  {
    var s, p := Ordered(values), i as real + w;
    FractionOf(|values|, p);
    hide Position, Mix;
    LinearAt(s, i, w);
    MixIs(s[i], s[i + 1], w);
  }

  lemma LinearAt(s: seq<real>, i: nat, w: real)
    requires i < |s| - 1 && 0.0 <= w <= 1.0
    ensures At(s, i as real + w) == Some(Mix(s[i], s[i + 1], w))
  {
    hide Mix;
    var p := i as real + w;
    MixIs(s[i], s[i + 1], w);
    if w == 1.0 {
      assert p.Floor == i + 1 && Ceil(p) == i + 1;
      assert At(s, p) == Some(s[i + 1]) == Some(Mix(s[i], s[i + 1], w));
    } else if w == 0.0 {
      assert p.Floor == i && Ceil(p) == i;
      assert At(s, p) == Some(s[i]) == Some(Mix(s[i], s[i + 1], w));
    } else {
      assert p.Floor == i && Ceil(p) == i + 1 && p - i as real == w;
      assert Index(s, i) == Some(s[i]) && Index(s, i + 1) == Some(s[i + 1]);
      assert At(s, p) == Some(Mix(s[i], s[i + 1], w));
    }
  }

  lemma MixIs(a: real, b: real, w: real)
    ensures Mix(a, b, w) == a + w * (b - a) && Mix(a, b, 0.0) == a && Mix(a, b, 1.0) == b
  {
  }

  // ----- fractions below zero, where positions count from the end

  /** Between these positions the value exists and does not fall. */
  ghost predicate Rises(s: seq<real>, x: real, y: real) {
    At(s, x).Some? && At(s, y).Some? && At(s, x).value <= At(s, y).value
  }

  lemma Wrapped(s: seq<real>, p: real)
    requires |s| > 0 && -(|s| as real) <= p <= -1.0
    ensures 0.0 <= p + |s| as real <= (|s| - 1) as real
    ensures At(s, p) == Some(Interpolated(s, p + |s| as real))
  {
    var n := |s|;
    var q := p + n as real;
    assert q.Floor == p.Floor + n && Ceil(q) == Ceil(p) + n;
    assert q - q.Floor as real == p - p.Floor as real;
    assert Index(s, p.Floor) == Index(s, q.Floor) && Index(s, Ceil(p)) == Index(s, Ceil(q));
    assert At(s, q) == Some(Interpolated(s, q));
  }

  function Line(first: real, last: real, t: real): real {
    first + (last - first) * t
  }

  lemma LineEnds(first: real, last: real)
    ensures Line(first, last, 0.0) == first && Line(first, last, 1.0) == last
  {
  }

  lemma LineMix(first: real, last: real, p: real)
    ensures Mix(last, first, p + 1.0) == Line(first, last, -p)
  {
    var d := last - first;
    assert last * (1.0 - (p + 1.0)) + first * (p + 1.0) == first + d * -p;
  }

  lemma LineGrows(first: real, last: real, t: real, t': real)
    requires first < last && t < t'
    ensures Line(first, last, t) < Line(first, last, t')
  {
    var d, e := last - first, t' - t;
    assert d * e > 0.0;
    assert d * t' == d * t + d * e;
  }

  /** From the last entry at -1 the value runs straight to the first one at 0. */
  lemma Seam(s: seq<real>, p: real)
    requires |s| > 0 && -1.0 <= p <= 0.0
    ensures At(s, p) == Some(Line(s[0], s[|s| - 1], -p))
  {
    hide Mix, Line;
    LineEnds(s[0], s[|s| - 1]);
    LineMix(s[0], s[|s| - 1], p);
    if p != -1.0 && p != 0.0 {
      assert p.Floor == -1 && Ceil(p) == 0;
      assert Index(s, -1) == Some(s[|s| - 1]) && Index(s, 0) == Some(s[0]);
    }
  }

  lemma SeamFalls(s: seq<real>, x: real, y: real)
    requires |s| > 0 && s[0] < s[|s| - 1] && -1.0 <= x < y <= 0.0
    ensures At(s, x).Some? && At(s, y).Some? && At(s, x).value > At(s, y).value
  {
    hide At, Line;
    Seam(s, x);
    Seam(s, y);
    LineGrows(s[0], s[|s| - 1], -y, -x);
  }

  lemma Constant(s: seq<real>, p: real)
    requires Ascending(s) && |s| > 0 && s[0] == s[|s| - 1] && -(|s| as real) <= p <= (|s| - 1) as real
    ensures At(s, p) == Some(s[0])
  {
    if p >= 0.0 {
      AtBounds(s, p);
      assert s[0] <= s[p.Floor] && s[Ceil(p)] <= s[|s| - 1];
    } else if p <= -1.0 {
      var q := p + |s| as real;
      Wrapped(s, p);
      AtBounds(s, q);
      assert s[0] <= s[q.Floor] && s[Ceil(q)] <= s[|s| - 1];
    } else {
      Seam(s, p);
      assert Line(s[0], s[0], -p) == s[0];
    }
  }

  /** The value does not fall on a range of positions exactly if the range stays on one side of
      the seam, or all entries are the same. */
  lemma RisesIff(s: seq<real>, p: real, q: real)
    requires Ascending(s) && |s| > 0 && -(|s| as real) <= p < q <= (|s| - 1) as real
    ensures (forall x, y | p <= x <= y <= q :: Rises(s, x, y)) <==> s[0] == s[|s| - 1] || p >= 0.0 || q <= -1.0
  {
    if s[0] == s[|s| - 1] || p >= 0.0 || q <= -1.0 {
      forall x, y | p <= x <= y <= q
        ensures Rises(s, x, y)
      {
        if s[0] == s[|s| - 1] {
          Constant(s, x);
          Constant(s, y);
        } else if p >= 0.0 {
          AtMonotone(s, x, y);
        } else {
          Wrapped(s, x);
          Wrapped(s, y);
          AtMonotone(s, x + |s| as real, y + |s| as real);
        }
      }
    } else {
      var x, y := if p < -1.0 then -1.0 else p, if q > 0.0 then 0.0 else q;
      assert s[0] < s[|s| - 1];
      SeamFalls(s, x, y);
      assert !Rises(s, x, y);
    }
  }

  /** The same for fractions. */
  ghost predicate PercentileRises(values: seq<real>, f: real, f': real) {
    var v, v' := Percentile(values, f), Percentile(values, f');
    v.Value? && v'.Value? && v.value <= v'.value
  }

  lemma FractionOf(n: nat, p: real)
    requires n > 1
    ensures Position(n, p / (n - 1) as real) == p
  {
  }

  lemma PositionOrder(n: nat, f: real, f': real)
    requires n > 1
    ensures f <= f' <==> Position(n, f) <= Position(n, f')
  {
    var d := (n - 1) as real;
    assert d * f' - d * f == d * (f' - f);
    if f <= f' {
      Product(d, f' - f);
    } else {
      assert d * (f - f') > 0.0;
      assert d * f - d * f' == d * (f - f');
    }
  }

  lemma RisesAt(values: seq<real>, f: real, f': real, g: real, g': real)
    requires |values| > 1 && f <= g <= g' <= f'
    requires forall x, y | Position(|values|, f) <= x <= y <= Position(|values|, f') :: Rises(Ordered(values), x, y)
    ensures PercentileRises(values, g, g')
  {
    hide Position, Ordered, At;
    PositionOrder(|values|, f, g);
    PositionOrder(|values|, g, g');
    PositionOrder(|values|, g', f');
    assert Rises(Ordered(values), Position(|values|, g), Position(|values|, g'));
  }

  lemma FallsAt(values: seq<real>, f: real, f': real, x: real, y: real) returns (g: real, g': real)
    requires |values| > 1 && Position(|values|, f) <= x <= y <= Position(|values|, f') && !Rises(Ordered(values), x, y)
    ensures f <= g <= g' <= f' && !PercentileRises(values, g, g')
  {
    hide Position, Ordered, At;
    var n := |values|;
    g, g' := x / (n - 1) as real, y / (n - 1) as real;
    FractionOf(n, x);
    FractionOf(n, y);
    PositionOrder(n, f, g);
    PositionOrder(n, g, g');
    PositionOrder(n, g', f');
  }

  lemma RisesAlike(values: seq<real>, f: real, f': real)
    requires |values| > 1
    ensures (forall g, g' | f <= g <= g' <= f' :: PercentileRises(values, g, g'))
            <==> forall x, y | Position(|values|, f) <= x <= y <= Position(|values|, f') :: Rises(Ordered(values), x, y)
  {
    hide Position, Ordered, PercentileRises, Rises;
    var s, p, p' := Ordered(values), Position(|values|, f), Position(|values|, f');
    if forall x, y | p <= x <= y <= p' :: Rises(s, x, y) {
      forall g, g' | f <= g <= g' <= f'
        ensures PercentileRises(values, g, g')
      {
        RisesAt(values, f, f', g, g');
      }
    } else {
      var x, y :| p <= x <= y <= p' && !Rises(s, x, y);
      var g, g' := FallsAt(values, f, f', x, y);
    }
  }

  /** Between two fractions that have a value the percentile exists and does not fall, exactly if
      the lower one is not negative, the upper one is at most -1 / (n - 1), or all values are the
      same. */
  lemma MonotoneIff(values: seq<real>, f: real, f': real)
    requires |values| > 1 && f < f' && Percentile(values, f).Value? && Percentile(values, f').Value?
    ensures (forall g, g' | f <= g <= g' <= f' :: PercentileRises(values, g, g'))
            <==> f >= 0.0 || f' <= -1.0 / (|values| - 1) as real || forall v | v in values :: v == values[0]
  {
    var n := |values|;
    ValueIff(values, f);
    ValueIff(values, f');
    hide PercentileRises, Rises, Percentile;
    var least := -1.0 / (n - 1) as real;
    FractionOf(n, -1.0);
    assert Position(n, 0.0) == 0.0;
    hide Position;
    PositionOrder(n, f', f);
    PositionOrder(n, 0.0, f);
    PositionOrder(n, f', least);
    RisesIff(Ordered(values), Position(n, f), Position(n, f'));
    RisesAlike(values, f, f');
    AllSame(values);
  }

  lemma AllSame(values: seq<real>)
    requires values != []
    ensures var s := Ordered(values); s[0] == s[|s| - 1] <==> forall v | v in values :: v == values[0]
  {
    var s := Ordered(values);
    forall v | v in values
      ensures s[0] <= v <= s[|s| - 1]
    {
      OrderedBounds(values, v);
    }
    OrderedBounds(values, values[0]);
  }

  /** A pair of fractions at which it falls, for any values that are not all the same: at
      -1 / (n - 1) it is the last of the sorted values and at 0 the first. */
  lemma FallingPair(values: seq<real>)
    requires |values| > 1
    ensures var s := Ordered(values); var v, v' := Percentile(values, -1.0 / (|values| - 1) as real), Percentile(values, 0.0);
            && v == Value(s[|s| - 1]) && v' == Value(s[0])
            && (v.value > v'.value <==> exists x :: x in values && x != values[0])
  {
    FractionOf(|values|, -1.0);
    assert Position(|values|, 0.0) == 0.0;
    hide Position, Ordered;
    AllSame(values);
  }

  lemma OrderedBounds(values: seq<real>, v: real)
    requires v in values
    ensures var s := Ordered(values); s[0] <= v <= s[|s| - 1] && s[0] in values && s[|s| - 1] in values
  {
    var s := Ordered(values);
    assert v in multiset(s) && s[0] in multiset(values) && s[|s| - 1] in multiset(values);
    var i :| 0 <= i < |s| && s[i] == v;
  }

  /** The order in which the values were recorded does not matter. */
  lemma PermutationInvariant(values: seq<real>, values': seq<real>, f: real)
    requires multiset(values) == multiset(values')
    ensures Percentile(values, f) == Percentile(values', f)
  {
    assert |values| == |multiset(values)| == |multiset(values')| == |values'|;
    RealOrder();
    var s, s' := Ordered(values), Ordered(values');
    SortedUnique(s, s', RealLeq());
  }

  /** The median by its usual definition. */
  function Median(values: seq<real>): real
    requires |values| > 0
  {
    var s, n := Ordered(values), |values|;
    if n % 2 == 1 then s[n / 2] else (s[n / 2 - 1] + s[n / 2]) / 2.0
  }

  lemma HalfIsMedian(values: seq<real>)
    requires |values| > 0
    ensures Percentile(values, 0.5) == Value(Median(values))
  {
    var s, n := Ordered(values), |values|;
    if n > 1 {
      var h := n / 2;
      var p := Position(n, 0.5);
      if n % 2 == 1 {
        assert n == 2 * h + 1 && p == h as real;
      } else {
        assert n == 2 * h && p == (h - 1) as real + 0.5;
        assert p.Floor == h - 1;
        assert p - p.Floor as real == 0.5;
        assert Interpolated(s, p) == s[h - 1] * (1.0 - 0.5) + s[h] * 0.5;
      }
    }
  }
}
