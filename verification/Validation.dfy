/** Validation of the full RCCL exchange: fill every rank's hoew with a pattern that names its
    source, exchange once, and compare hons and hoew with what the neighbours should have
    sent. Pattern words are ideal integers here. */
module Validation {
  import opened Topology
  import opened Halo
  import opened Reduction

  function PatternValue(rank: nat, segment: nat, n: nat, index: nat): int {
    rank * 100000 + segment * 10000 + n * 10 + index % 10
  }

  function SegmentOf(n: nat, index: nat): nat { if index < n then 1 else 2 }

  /** Different sources give different words: a word tells rank, segment and last index digit. */
  lemma PatternInjective(q: nat, s: nat, q': nat, s': nat, n: nat, i: nat, i': nat)
    requires 1 <= s <= 2 && 1 <= s' <= 2
    ensures PatternValue(q, s, n, i) == PatternValue(q', s', n, i') <==> q == q' && s == s' && i % 10 == i' % 10
  {
    var d, e := i % 10, i' % 10;
    assert 0 <= d < 10 && 0 <= e < 10;
  }

  method FillPattern(rank: nat, n: nat) returns (host: seq<Word>)
    ensures host == Pattern(rank, n)
    ensures |host| == 3 * n
    ensures forall k: nat | k < 3 * n :: host[k] == rank * 100000 + (if k < n then 10000 else 20000) + 10 * n + k % 10
  {
    host := [];
    for i := 0 to BufferWords(n)
      invariant |host| == i && forall k: nat | k < i :: host[k] == PatternValue(rank, SegmentOf(n, k), n, k)
    {
      var segment := if i < n then 1 else 2;
      host := host + [PatternValue(rank, segment, n, i)];
    }
  }

  function Pattern(rank: nat, n: nat): (s: seq<Word>)
    ensures |s| == BufferWords(n)
    ensures forall k: nat | k < |s| :: s[k] == PatternValue(rank, SegmentOf(n, k), n, k)
  {
    seq(BufferWords(n), k requires 0 <= k => PatternValue(rank, SegmentOf(n, k), n, k))
  }

  datatype Direction = North | East | South | West

  datatype Report = Clean | Mismatch(direction: Direction, index: nat, expected: Word, actual: Word)

  /** The four ranks whose words rank r expects, directly or around the corner. */
  datatype Sources = Sources(north: nat, northEast: nat, south: nat, southWest: nat)

  function SourcesOf(g: Grid, r: nat): Sources
    requires r < g.Size()
  {
    RowBound(r, g.rows, g.cols);
    Sources(g.North(r), g.Shift(r, 1, 1), g.South(r), g.Shift(r, g.rows - 1, g.cols - 1))
  }

  function ExpectedHons(src: Sources, n: nat, i: nat): Word {
    PatternValue(if i < n then src.north else src.south, SegmentOf(n, i), n, i)
  }

  function ExpectedHoew(src: Sources, n: nat, i: nat): Word {
    PatternValue(if i < n then src.northEast else src.southWest, SegmentOf(n, i), n, i)
  }

  /** Both buffers hold the expected word at index i. */
  predicate MatchesAt(src: Sources, n: nat, hons: seq<Word>, hoew: seq<Word>, i: nat)
    requires i < |hons| == |hoew|
  {
    hons[i] == ExpectedHons(src, n, i) && hoew[i] == ExpectedHoew(src, n, i)
  }

  predicate Matches(src: Sources, n: nat, hons: seq<Word>, hoew: seq<Word>)
    requires |hons| == |hoew| == BufferWords(n)
  {
    forall i: nat | i < BufferWords(n) :: MatchesAt(src, n, hons, hoew, i)
  }

  /** The comparison loops: hons before hoew at each index, and only the first mismatch is kept. */
  method CheckBuffers(src: Sources, n: nat, hons: seq<Word>, hoew: seq<Word>) returns (valid: bool, first: Report)
    requires |hons| == |hoew| == BufferWords(n)
    ensures valid <==> Matches(src, n, hons, hoew)
    ensures valid <==> first.Clean?
    ensures first.Mismatch? ==>
              && first.index < BufferWords(n)
              && (forall i: nat | i < first.index :: MatchesAt(src, n, hons, hoew, i))
              && first.expected != first.actual
              && (first.direction.North? || first.direction.South? ==>
                    first.actual == hons[first.index] && first.expected == ExpectedHons(src, n, first.index))
              && (first.direction.East? || first.direction.West? ==>
                    && first.actual == hoew[first.index] && first.expected == ExpectedHoew(src, n, first.index)
                    && hons[first.index] == ExpectedHons(src, n, first.index))
              && (first.index < n <==> first.direction.North? || first.direction.East?)
  {
    valid, first := true, Clean;
    for i := 0 to n
      invariant valid <==> first.Clean?
      invariant valid ==> forall k: nat | k < i :: MatchesAt(src, n, hons, hoew, k)
      invariant !valid ==> FirstAt(src, n, hons, hoew, first) && first.index < i
    {
      valid, first := Check(valid, first, North, hons[i], PatternValue(src.north, 1, n, i), i);
      valid, first := Check(valid, first, East, hoew[i], PatternValue(src.northEast, 1, n, i), i);
    }
    for i := n to BufferWords(n)
      invariant valid <==> first.Clean?
      invariant valid ==> forall k: nat | k < i :: MatchesAt(src, n, hons, hoew, k)
      invariant !valid ==> FirstAt(src, n, hons, hoew, first) && first.index < i
    {
      valid, first := Check(valid, first, South, hons[i], PatternValue(src.south, 2, n, i), i);
      valid, first := Check(valid, first, West, hoew[i], PatternValue(src.southWest, 2, n, i), i);
    }
    if !valid {
      assert !MatchesAt(src, n, hons, hoew, first.index);
    }
  }

  /** The report describes the first wrong word in the order of the loops. */
  ghost predicate FirstAt(src: Sources, n: nat, hons: seq<Word>, hoew: seq<Word>, m: Report)
    requires |hons| == |hoew| == BufferWords(n)
  {
    && m.Mismatch? && m.index < BufferWords(n) && m.expected != m.actual
    && (forall k: nat | k < m.index :: MatchesAt(src, n, hons, hoew, k))
    && (m.index < n <==> m.direction.North? || m.direction.East?)
    && (if m.direction.North? || m.direction.South?
        then m.actual == hons[m.index] && m.expected == ExpectedHons(src, n, m.index)
        else m.actual == hoew[m.index] && m.expected == ExpectedHoew(src, n, m.index)
             && hons[m.index] == ExpectedHons(src, n, m.index))
  }

  method Check(valid: bool, first: Report, direction: Direction, actual: Word, expected: Word, index: nat)
    returns (valid': bool, first': Report)
    ensures valid' == (valid && actual == expected)
    ensures first' == if valid && actual != expected then Mismatch(direction, index, expected, actual) else first
  {
    valid', first' := valid, first;
    if valid && actual != expected {
      first' := Mismatch(direction, index, expected, actual);
      valid' := false;
    }
  }

  /** A case whose hoew buffers have just been filled with the pattern; the rest is arbitrary. */
  ghost predicate Patterned(c: Case) {
    forall r: nat | r < c.l.size :: PatternedAt(c, r)
  }

  ghost predicate PatternedAt(c: Case, r: nat)
    requires r < c.l.size
  {
    c.init[r].hoew == Pattern(r, c.n)
  }

  /** Completeness: a correct exchange is accepted on every rank of every grid. */
  lemma CorrectAccepted(g: Grid, c: Case, r: nat)
    requires OnTorus(c, g) && Patterned(c) && r < c.l.size
    ensures var b := After(c, 4)[r]; b.Sized(c.n) && Matches(SourcesOf(g, r), c.n, b.hons, b.hoew)
  {
    var b := After(c, 4)[r];
    var src := SourcesOf(g, r);
    forall i: nat | i < BufferWords(c.n)
      ensures MatchesAt(src, c.n, b.hons, b.hoew, i)
    {
      ExpectedWords(g, c, r, i);
    }
  }

  lemma ExpectedWords(g: Grid, c: Case, r: nat, i: nat)
    requires OnTorus(c, g) && Patterned(c) && r < c.l.size && i < BufferWords(c.n)
    ensures After(c, 4)[r].hons[i] == ExpectedHons(SourcesOf(g, r), c.n, i)
    ensures After(c, 4)[r].hoew[i] == ExpectedHoew(SourcesOf(g, r), c.n, i)
  {
    var twoN := i >= c.n;
    FirstExchange(g, c, r, i);
    DiagonalSource(g, r, twoN);
    PatternWord(c, if twoN then g.South(r) else g.North(r), i);
    PatternWord(c, Hop(c.l, twoN, r), i);
  }

  lemma FirstExchange(g: Grid, c: Case, r: nat, i: nat)
    requires OnTorus(c, g) && r < c.l.size && i < BufferWords(c.n)
    ensures After(c, 4)[r].hons[i] == c.init[if i < c.n then g.North(r) else g.South(r)].hoew[i]
    ensures After(c, 4)[r].hoew[i] == c.init[Hop(c.l, i >= c.n, r)].hoew[i]
  {
    FirstHons(g, c, r, i);
    FirstHoew(c, r, i);
  }

  lemma FirstHons(g: Grid, c: Case, r: nat, i: nat)
    requires OnTorus(c, g) && r < c.l.size && i < BufferWords(c.n)
    ensures After(c, 4)[r].hons[i] == c.init[if i < c.n then g.North(r) else g.South(r)].hoew[i]
  {
    hide After;
    ClosedFormHons(g, c, 0, r, i);
  }

  lemma FirstHoew(c: Case, r: nat, i: nat)
    requires r < c.l.size && i < BufferWords(c.n)
    ensures After(c, 4)[r].hoew[i] == c.init[Hop(c.l, i >= c.n, r)].hoew[i]
  {
    hide Hop;
    OneExchange(c, 0, r, i);
    assert HoewAfter(c, 1, r, i) == After(c, 4)[r].hoew[i];
  }

  lemma PatternWord(c: Case, q: nat, i: nat)
    requires Patterned(c) && q < c.l.size && i < BufferWords(c.n)
    ensures c.init[q].hoew[i] == PatternValue(q, SegmentOf(c.n, i), c.n, i)
  {
    assert PatternedAt(c, q);
  }

  lemma DiagonalSource(g: Grid, r: nat, twoN: bool)
    requires r < g.Size()
    ensures Hop(Torus(g), twoN, r) == if twoN then SourcesOf(g, r).southWest else SourcesOf(g, r).northEast
  {
    HopShift(g, twoN, r);
    RowBound(r, g.rows, g.cols);
  }

  /** The word is the pattern word of rank q for index i of its buffer. */
  ghost predicate IsPattern(size: nat, n: nat, w: Word, q: nat, i: nat) {
    q < size && i < BufferWords(n) && w == PatternValue(q, SegmentOf(n, i), n, i)
  }

  /** Soundness: where every word is some rank's pattern word, acceptance means that at every
      index the word came from the expected rank and segment, and from an index that agrees in
      the last decimal digit. */
  lemma AcceptedSound(src: Sources, size: nat, n: nat, hons: seq<Word>, hoew: seq<Word>, i: nat, q: nat, k: nat)
    requires |hons| == |hoew| == BufferWords(n) && i < BufferWords(n)
    requires Matches(src, n, hons, hoew)
    ensures IsPattern(size, n, hons[i], q, k) ==>
              q == (if i < n then src.north else src.south) && SegmentOf(n, k) == SegmentOf(n, i) && k % 10 == i % 10
    ensures IsPattern(size, n, hoew[i], q, k) ==>
              q == (if i < n then src.northEast else src.southWest) && SegmentOf(n, k) == SegmentOf(n, i) && k % 10 == i % 10
  {
    assert MatchesAt(src, n, hons, hoew, i);
    PatternInjective(q, SegmentOf(n, k), if i < n then src.north else src.south, SegmentOf(n, i), n, k, i);
    PatternInjective(q, SegmentOf(n, k), if i < n then src.northEast else src.southWest, SegmentOf(n, i), n, k, i);
  }

  /** The verdicts the ranks bring to the minimum reduction. */
  function Verdicts(oks: seq<bool>): (xs: seq<real>)
    ensures |xs| == |oks|
  {
    seq(|oks|, r requires 0 <= r < |oks| => if oks[r] then 1.0 else 0.0)
  }

  /** All ranks see 1, and accept, exactly if every rank found its buffers right; otherwise all throw. */
  lemma {:induction false} AllOrNone(oks: seq<bool>)
    requires oks != []
    ensures Min(Verdicts(oks)) == 1.0 <==> forall r | 0 <= r < |oks| :: oks[r]
    ensures Min(Verdicts(oks)) == 0.0 || Min(Verdicts(oks)) == 1.0
  {
    var m := |oks| - 1;
    if m > 0 {
      AllOrNone(oks[..m]);
      assert Verdicts(oks)[..m] == Verdicts(oks[..m]);
    }
  }
}
