/** The halo exchange as a function: buffer layout, the four stages, and what any number
    of stages leaves on every rank when all ranks take them together. */
module Halo {
  import opened Topology

  /** An exchanged word. Nothing in the exchange looks inside it. */
  type Word = int

  datatype Buffers = Buffers(hins: seq<Word>, hons: seq<Word>, hiew: seq<Word>, hoew: seq<Word>) {
    predicate Sized(n: nat) {
      |hins| == |hons| == |hiew| == |hoew| == BufferWords(n)
    }
  }

  function BufferWords(n: nat): nat { 3 * n }

  /** The kind of stage j when the stages of all exchanges are counted on: j modulo 4. */
  function Kind(j: nat): (t: nat)
    ensures t < 4
  {
    if j == 0 then 0 else if Kind(j - 1) == 3 then 0 else Kind(j - 1) + 1
  }

  lemma {:induction false} KindOf(k: nat, t: nat)
    requires t < 4
    ensures Kind(4 * k + t) == t == (4 * k + t) % 4
  {
    if t > 0 {
      KindOf(k, t - 1);
      assert 4 * k + t - 1 == 4 * k + (t - 1);
    } else if k > 0 {
      KindOf(k - 1, 3);
      assert 4 * k - 1 == 4 * (k - 1) + 3;
    }
  }

  /** Stages 0 and 2 move the N segment, stages 1 and 3 the 2N segment behind it. */
  function SegLo(n: nat, t: nat): nat { if t == 0 || t == 2 then 0 else n }

  function SegLen(n: nat, t: nat): nat { if t == 0 || t == 2 then n else 2 * n }

  /** Words lo up to lo + len of a buffer; nothing if the buffer is too short. */
  function Slice(buf: seq<Word>, lo: nat, len: nat): (msg: seq<Word>)
    ensures lo + len <= |buf| ==> msg == buf[lo..lo + len]
  {
    if lo + len <= |buf| then buf[lo..lo + len] else []
  }

  /** Overwrite buf from lo on; a message that does not fit would be an error and is dropped. */
  function Splice(buf: seq<Word>, lo: nat, msg: seq<Word>): (r: seq<Word>)
    ensures |r| == |buf|
    ensures lo + |msg| <= |buf| ==>
              forall i | 0 <= i < |r| :: r[i] == if lo <= i < lo + |msg| then msg[i - lo] else buf[i]
  {
    if lo + |msg| <= |buf| then buf[..lo] + msg + buf[lo + |msg|..] else buf
  }

  /** The local copies: hoew to hins before the first stage, hons to hiew before the third. */
  function Begin(b: Buffers, t: nat): Buffers {
    if t == 0 then b.(hins := b.hoew) else if t == 2 then b.(hiew := b.hons) else b
  }

  function Outgoing(b: Buffers, n: nat, t: nat): seq<Word> {
    Slice(if t < 2 then b.hins else b.hiew, SegLo(n, t), SegLen(n, t))
  }

  function Deliver(b: Buffers, n: nat, t: nat, msg: seq<Word>): Buffers {
    if |msg| != SegLen(n, t) then b
    else if t < 2 then b.(hons := Splice(b.hons, SegLo(n, t), msg))
    else b.(hoew := Splice(b.hoew, SegLo(n, t), msg))
  }

  /** Setup for halo length n: the three work buffers are zeroed, hoew keeps its words unless its
      size changes. */
  function Prepared(b: Buffers, n: nat, rank: nat): (b': Buffers)
    ensures b'.Sized(n)
  {
    var zero := seq(BufferWords(n), _ => 0);
    Buffers(zero, zero, zero, if |b.hoew| == BufferWords(n) then b.hoew else seq(BufferWords(n), _ => rank))
  }

  /** The ranks, the halo length and what every rank's buffers hold to begin with. */
  datatype Setting = Setting(l: Links, n: nat, init: seq<Buffers>)

  type Case = c: Setting | |c.init| == c.l.size && forall r | 0 <= r < |c.init| :: c.init[r].Sized(c.n)
    witness Setting(LinkTable(0, [], [], [], []), 0, [])

  /** What rank r holds after stage t when w is the world before it. */
  ghost function StageOf(l: Links, n: nat, w: seq<Buffers>, t: nat, r: nat): Buffers
    requires |w| == l.size && r < l.size
  {
    Deliver(Begin(w[r], t), n, t, Outgoing(Begin(w[Src(l, t, r)], t), n, t))
  }

  /** Every rank takes stage t. */
  ghost function Next(l: Links, n: nat, w: seq<Buffers>, t: nat): (w': seq<Buffers>)
    requires |w| == l.size
    ensures |w'| == l.size
    ensures forall r | 0 <= r < l.size :: w'[r] == StageOf(l, n, w, t, r)
  {
    seq(l.size, r requires 0 <= r < l.size => StageOf(l, n, w, t, r))
  }

  /** The world after j stages, counted across exchanges. */
  ghost function After(c: Case, j: nat): (w: seq<Buffers>)
    ensures |w| == c.l.size && forall r | 0 <= r < |w| :: w[r].Sized(c.n)
  {
    if j == 0 then c.init else Next(c.l, c.n, After(c, j - 1), Kind(j - 1))
  }

  /** What rank a sends in stage j. */
  ghost function Message(c: Case, j: nat, a: nat): (msg: seq<Word>)
    requires a < c.l.size
    ensures |msg| == SegLen(c.n, Kind(j))
  {
    assert After(c, j)[a].Sized(c.n);
    Outgoing(Begin(After(c, j)[a], Kind(j)), c.n, Kind(j))
  }

  lemma AfterStep(c: Case, j: nat, r: nat)
    requires r < c.l.size
    ensures After(c, j + 1)[r]
         == Deliver(Begin(After(c, j)[r], Kind(j)), c.n, Kind(j), Message(c, j, Src(c.l, Kind(j), r)))
  {
    assert After(c, j + 1)[r] == StageOf(c.l, c.n, After(c, j), Kind(j), r);
  }

  /** The N segment of x followed by the 2N segment of y. */
  function Halves(x: seq<Word>, y: seq<Word>, n: nat): seq<Word> {
    Slice(x, 0, n) + Slice(y, n, 2 * n)
  }

  ghost predicate AllSized(w: seq<Buffers>, n: nat) {
    forall q | 0 <= q < |w| :: w[q].Sized(n)
  }

  lemma HalvesWords(x: seq<Word>, y: seq<Word>, n: nat)
    requires |x| == |y| == BufferWords(n)
    ensures |Halves(x, y, n)| == BufferWords(n)
    ensures forall i | 0 <= i < BufferWords(n) :: Halves(x, y, n)[i] == if i < n then x[i] else y[i]
  {
  }

  /** Joining two joined buffers keeps the outer halves. */
  lemma HalvesTwice(x: seq<Word>, x': seq<Word>, y': seq<Word>, y: seq<Word>, n: nat)
    requires |x| == |x'| == |y'| == |y| == BufferWords(n)
    ensures Halves(Halves(x, x', n), Halves(y', y, n), n) == Halves(x, y, n)
  {
    HalvesWords(x, x', n);
    HalvesWords(y', y, n);
    HalvesWords(x, y, n);
    HalvesWords(Halves(x, x', n), Halves(y', y, n), n);
  }

  lemma NorthSouthWords(l: Links, n: nat, w: seq<Buffers>, r: nat)
    requires |w| == l.size && r < l.size
    requires AllSized(w, n)
    ensures var w2 := Next(l, n, Next(l, n, w, 0), 1);
            && w2[r].hoew == w[r].hoew
            && w2[r].hons == Halves(w[Src(l, 0, r)].hoew, w[Src(l, 1, r)].hoew, n)
  {
    var w1 := Next(l, n, w, 0);
    var south := Src(l, 1, r);
    assert w[r].Sized(n) && w[Src(l, 0, r)].Sized(n) && w[south].Sized(n) && w[Src(l, 0, south)].Sized(n);
    assert Next(l, n, w1, 1)[r] == StageOf(l, n, w1, 1, r);
    assert w1[r] == StageOf(l, n, w, 0, r);
    assert w1[south] == StageOf(l, n, w, 0, south);
  }

  lemma EastWestWords(l: Links, n: nat, w: seq<Buffers>, r: nat)
    requires |w| == l.size && r < l.size
    requires AllSized(w, n)
    ensures var w4 := Next(l, n, Next(l, n, w, 2), 3);
            && w4[r].hons == w[r].hons
            && w4[r].hoew == Halves(w[Src(l, 2, r)].hons, w[Src(l, 3, r)].hons, n)
  {
    var w3 := Next(l, n, w, 2);
    var west := Src(l, 3, r);
    assert w[r].Sized(n) && w[Src(l, 2, r)].Sized(n) && w[west].Sized(n) && w[Src(l, 2, west)].Sized(n);
    assert Next(l, n, w3, 3)[r] == StageOf(l, n, w3, 3, r);
    assert w3[r] == StageOf(l, n, w, 2, r);
    assert w3[west] == StageOf(l, n, w, 2, west);
  }

  lemma AfterExchange(c: Case, k: nat)
    ensures var mid := After(c, 4 * k + 2);
            && mid == Next(c.l, c.n, Next(c.l, c.n, After(c, 4 * k), 0), 1)
            && After(c, 4 * k + 4) == Next(c.l, c.n, Next(c.l, c.n, mid, 2), 3)
  {
    KindOf(k, 0);
    KindOf(k, 1);
    KindOf(k, 2);
    KindOf(k, 3);
    assert After(c, 4 * k + 1) == Next(c.l, c.n, After(c, 4 * k), 0);
    assert After(c, 4 * k + 3) == Next(c.l, c.n, After(c, 4 * k + 2), 2);
  }

  /** One exchange: north and south into hons, and the two diagonals into hoew. */
  lemma ExchangeWords(c: Case, k: nat, r: nat)
    requires r < c.l.size
    ensures var w, w' := After(c, 4 * k), After(c, 4 * k + 4);
            && w'[r].hons == Halves(w[Src(c.l, 0, r)].hoew, w[Src(c.l, 1, r)].hoew, c.n)
            && w'[r].hoew == Halves(w[Src(c.l, 0, Src(c.l, 2, r))].hoew, w[Src(c.l, 1, Src(c.l, 3, r))].hoew, c.n)
  {
    AfterExchange(c, k);
    TwoPhases(c.l, c.n, After(c, 4 * k), r);
  }

  lemma TwoPhases(l: Links, n: nat, w: seq<Buffers>, r: nat)
    requires |w| == l.size && r < l.size
    requires AllSized(w, n)
    ensures var w' := Next(l, n, Next(l, n, Next(l, n, Next(l, n, w, 0), 1), 2), 3);
            && w'[r].hons == Halves(w[Src(l, 0, r)].hoew, w[Src(l, 1, r)].hoew, n)
            && w'[r].hoew == Halves(w[Src(l, 0, Src(l, 2, r))].hoew, w[Src(l, 1, Src(l, 3, r))].hoew, n)
  {
    var mid := Next(l, n, Next(l, n, w, 0), 1);
    var east, west := Src(l, 2, r), Src(l, 3, r);
    NorthSouthWords(l, n, w, r);
    NorthSouthWords(l, n, w, east);
    NorthSouthWords(l, n, w, west);
    EastWestWords(l, n, mid, r);
    assert w[Src(l, 0, east)].Sized(n) && w[Src(l, 1, east)].Sized(n);
    assert w[Src(l, 0, west)].Sized(n) && w[Src(l, 1, west)].Sized(n);
    HalvesTwice(w[Src(l, 0, east)].hoew, w[Src(l, 1, east)].hoew,
             w[Src(l, 0, west)].hoew, w[Src(l, 1, west)].hoew, n);
  }

  /** What a stage leaves untouched. */
  lemma StageKeeps(l: Links, n: nat, w: seq<Buffers>, t: nat, r: nat)
    requires |w| == l.size && r < l.size && t < 4
    ensures Next(l, n, w, t)[r].hins == if t == 0 then w[r].hoew else w[r].hins
    ensures Next(l, n, w, t)[r].hiew == if t == 2 then w[r].hons else w[r].hiew
    ensures t >= 2 ==> Next(l, n, w, t)[r].hons == w[r].hons
  {
    hide Slice, Splice;
  }

  /** What an exchange leaves in the work buffers: the hoew it began with, and hons. */
  lemma WorkBuffers(c: Case, k: nat, r: nat)
    requires r < c.l.size
    ensures After(c, 4 * k + 4)[r].hins == After(c, 4 * k)[r].hoew
    ensures After(c, 4 * k + 4)[r].hiew == After(c, 4 * k + 4)[r].hons
  {
    hide StageOf;
    AfterExchange(c, k);
    hide After;
    var w := After(c, 4 * k);
    var w1 := Next(c.l, c.n, w, 0);
    var w2 := Next(c.l, c.n, w1, 1);
    var w3 := Next(c.l, c.n, w2, 2);
    StageKeeps(c.l, c.n, w, 0, r);
    StageKeeps(c.l, c.n, w1, 1, r);
    StageKeeps(c.l, c.n, w2, 2, r);
    StageKeeps(c.l, c.n, w3, 3, r);
  }

  /** The rank whose N (or 2N) words an exchange brings to rank r's hoew. */
  function Hop(l: Links, twoN: bool, r: nat): (o: nat)
    requires r < l.size
    ensures o < l.size
  {
    if twoN then Src(l, 1, Src(l, 3, r)) else Src(l, 0, Src(l, 2, r))
  }

  function Hops(l: Links, twoN: bool, k: nat, r: nat): (o: nat)
    requires r < l.size
    ensures o < l.size
  {
    if k == 0 then r else Hops(l, twoN, k - 1, Hop(l, twoN, r))
  }

  /** The word at index i of rank r's hoew after k exchanges. */
  ghost function HoewAfter(c: Case, k: nat, r: nat, i: nat): Word
    requires r < c.l.size && i < BufferWords(c.n)
  {
    After(c, 4 * k)[r].hoew[i]
  }

  lemma OneExchange(c: Case, k: nat, r: nat, i: nat)
    requires r < c.l.size && i < BufferWords(c.n)
    ensures HoewAfter(c, k + 1, r, i) == HoewAfter(c, k, Hop(c.l, i >= c.n, r), i)
  {
    ExchangeWords(c, k, r);
    assert 4 * (k + 1) == 4 * k + 4;
    var w := After(c, 4 * k);
    var a, b := Hop(c.l, false, r), Hop(c.l, true, r);
    assert w[a].Sized(c.n) && w[b].Sized(c.n);
    HalvesWords(w[a].hoew, w[b].hoew, c.n);
  }

  lemma {:induction false} HoewTrace(c: Case, k: nat, r: nat, i: nat)
    requires r < c.l.size && i < BufferWords(c.n)
    ensures HoewAfter(c, k, r, i) == HoewAfter(c, 0, Hops(c.l, i >= c.n, k, r), i)
  {
    if k > 0 {
      OneExchange(c, k - 1, r, i);
      HoewTrace(c, k - 1, Hop(c.l, i >= c.n, r), i);
    }
  }

  /** A case on the torus of grid g. */
  ghost predicate OnTorus(c: Case, g: Grid) {
    c.l == Torus(g)
  }

  /** How many rows and columns k hops move, counted forwards. */
  function Turns(m: nat, twoN: bool, k: nat): nat {
    if !twoN || m == 0 then k else k * (m - 1)
  }

  lemma {:induction false} HopsShift(g: Grid, twoN: bool, k: nat, r: nat)
    requires r < g.Size()
    ensures Hops(Torus(g), twoN, k, r) == g.Shift(r, Turns(g.rows, twoN, k), Turns(g.cols, twoN, k))
  {
    RowBound(r, g.rows, g.cols);
    if k == 0 {
      ShiftTurns(g, r, 0, 0);
    } else {
      hide Hop, Turns, Grid.Shift;
      var o := Hop(Torus(g), twoN, r);
      HopShift(g, twoN, r);
      HopsShift(g, twoN, k - 1, o);
      TurnsAdd(g.rows, twoN, k - 1);
      TurnsAdd(g.cols, twoN, k - 1);
      ShiftShift(g, r, Turns(g.rows, twoN, 1), Turns(g.cols, twoN, 1),
                 Turns(g.rows, twoN, k - 1), Turns(g.cols, twoN, k - 1));
    }
  }

  lemma TurnsAdd(m: nat, twoN: bool, k: nat)
    requires m >= 1
    ensures Turns(m, twoN, 1) + Turns(m, twoN, k) == Turns(m, twoN, k + 1)
  {
    assert 1 * (m - 1) + k * (m - 1) == (k + 1) * (m - 1);
  }

  lemma HopShift(g: Grid, twoN: bool, r: nat)
    requires r < g.Size()
    ensures Hop(Torus(g), twoN, r) == g.Shift(r, Turns(g.rows, twoN, 1), Turns(g.cols, twoN, 1))
  {
    RowBound(r, g.rows, g.cols);
    NeighboursShift(g, r);
    NeighboursShift(g, g.East(r));
    NeighboursShift(g, g.West(r));
    ShiftShift(g, r, 0, 1, 1, 0);
    ShiftShift(g, r, 0, g.cols - 1, g.rows - 1, 0);
  }

  /** Closed form: k exchanges move the N segment k steps along one diagonal of the torus
      and the 2N segment k steps back along it. */
  lemma ClosedForm(g: Grid, c: Case, k: nat, r: nat, i: nat)
    requires OnTorus(c, g) && r < c.l.size && i < BufferWords(c.n)
    ensures var o := if i < c.n then g.Shift(r, k, k)
                     else g.Shift(r, Turns(g.rows, true, k), Turns(g.cols, true, k));
            After(c, 4 * k)[r].hoew[i] == c.init[o].hoew[i]
  {
    HoewTrace(c, k, r, i);
    HopsShift(g, i >= c.n, k, r);
    assert HoewAfter(c, 0, Hops(c.l, i >= c.n, k, r), i) == c.init[Hops(c.l, i >= c.n, k, r)].hoew[i];
  }

  /** Remainders of negative numbers. */
  lemma RemainderIs(b: int, m: nat, q: int, rest: nat)
    requires rest < m && b == q * m + rest
    ensures b % m == rest
  {
    var p, r := b / m, b % m;
    assert b == p * m + r && 0 <= r < m;
    assert (q - p) * m == q * m - p * m && (p - q) * m == p * m - q * m;
    if q > p {
      MulLessEq(1, q - p, m);
    } else if q < p {
      MulLessEq(1, p - q, m);
    }
  }

  /** Where k steps forward lead to x, k steps back from x lead. */
  lemma StepsBack(o: nat, x: nat, m: nat, k: nat)
    requires o < m && (o + k) % m == x
    ensures o == (x as int - k as int) % m
  {
    var q := (o + k) / m;
    assert o + k == q * m + x;
    assert x as int - k as int == -(q as int) * m + o;
    RemainderIs(x as int - k as int, m, -(q as int), o);
  }

  /** Where k steps back on both axes lead, in coordinates. */
  lemma BackRank(g: Grid, r: nat, o: nat, k: nat)
    requires r < g.Size() && o < g.Size() && g.rows > 0 && g.cols > 0 && g.Shift(o, k, k) == r
    ensures g.Row(o) == (g.Row(r) as int - k as int) % g.rows < g.rows
    ensures g.Col(o) == (g.Col(r) as int - k as int) % g.cols < g.cols
    ensures g.Rank(g.Row(o), g.Col(o)) == o
  {
    hide Grid.Rank, Grid.Row, Grid.Col;
    RowBound(o, g.rows, g.cols);
    RowBoundOf(g, o);
    CoordsRank(g, o);
    RankCoords(g, (g.Row(o) + k) % g.rows, (g.Col(o) + k) % g.cols);
    StepsBack(g.Row(o), g.Row(r), g.rows, k);
    StepsBack(g.Col(o), g.Col(r), g.cols, k);
  }

  lemma RowBoundOf(g: Grid, o: nat)
    requires o < g.Size()
    ensures g.Row(o) < g.rows && g.Col(o) < g.cols
  {
    RowBound(o, g.rows, g.cols);
  }

  /** The closed form in rows and columns: ((r + k) mod rows, (c + k) mod cols) for the first N
      words, ((r - k) mod rows, (c - k) mod cols) for the others. */
  lemma ClosedFormCoords(g: Grid, c: Case, k: nat, r: nat, i: nat)
    requires OnTorus(c, g) && r < c.l.size && i < BufferWords(c.n)
    ensures g.rows > 0 && g.cols > 0
    ensures var step := if i < c.n then k as int else -(k as int);
            var row, col := (g.Row(r) as int + step) % g.rows, (g.Col(r) as int + step) % g.cols;
            row < g.rows && col < g.cols && g.Rank(row, col) < c.l.size
            && After(c, 4 * k)[r].hoew[i] == c.init[g.Rank(row, col)].hoew[i]
  {
    hide After, Grid.Row, Grid.Col, Grid.Rank;
    RowBound(r, g.rows, g.cols);
    ClosedForm(g, c, k, r, i);
    if i >= c.n {
      BackAndForth(g, r, k);
      BackRank(g, r, g.Shift(r, k * (g.rows - 1), k * (g.cols - 1)), k);
    }
  }

  /** Every word of rank r's hoew is r, as setup leaves it when it changes the size. */
  ghost predicate RankWords(b: Buffers, r: nat) {
    forall i | 0 <= i < |b.hoew| :: b.hoew[i] == r
  }

  /** The words of a setup that changes the size of hoew, and of any other. */
  lemma PreparedWords(b: Buffers, n: nat, rank: nat)
    ensures var p := Prepared(b, n, rank);
            && |p.hins| == |p.hons| == |p.hiew| == |p.hoew| == 3 * n
            && (forall i | 0 <= i < 3 * n :: p.hins[i] == p.hons[i] == p.hiew[i] == 0)
            && (if |b.hoew| == 3 * n then p.hoew == b.hoew else RankWords(p, rank))
  {
  }

  /** From such a setup on a word is the number of the rank it came from: after k exchanges that of
      ((r + k) mod rows, (c + k) mod cols) or ((r - k) mod rows, (c - k) mod cols). */
  lemma RankNumbers(g: Grid, c: Case, k: nat, r: nat, i: nat)
    requires OnTorus(c, g) && r < c.l.size && i < 3 * c.n
    requires forall q: nat | q < c.l.size :: RankWords(c.init[q], q)
    ensures g.rows > 0 && g.cols > 0 && |After(c, 4 * k)[r].hoew| == 3 * c.n
    ensures var step := if i < c.n then k as int else -(k as int);
            var row, col := (g.Row(r) as int + step) % g.rows, (g.Col(r) as int + step) % g.cols;
            row < g.rows && col < g.cols && After(c, 4 * k)[r].hoew[i] == g.Rank(row, col)
  {
    hide After, Grid.Row, Grid.Col, Grid.Rank;
    ClosedFormCoords(g, c, k, r, i);
    assert After(c, 4 * k)[r].Sized(c.n);
  }

  lemma BackAndForth(g: Grid, r: nat, k: nat)
    requires r < g.Size() && g.rows > 0 && g.cols > 0
    ensures g.Shift(g.Shift(r, k * (g.rows - 1), k * (g.cols - 1)), k, k) == r
  {
    hide Grid.Shift;
    var a, b := k * (g.rows - 1), k * (g.cols - 1);
    ShiftShift(g, r, a, b, k, k);
    assert a + k == k * g.rows && b + k == k * g.cols;
    FullTurns(g, r, k);
  }

  lemma FullTurns(g: Grid, r: nat, k: nat)
    requires r < g.Size() && g.rows > 0 && g.cols > 0
    ensures g.Shift(r, k * g.rows, k * g.cols) == r
  {
    hide Grid.Shift;
    DivModUnique(k * g.rows, g.rows, k, 0);
    DivModUnique(k * g.cols, g.cols, k, 0);
    ShiftTurns(g, r, k * g.rows, k * g.cols);
  }

  /** hons holds the previous exchange's hoew of the north and south neighbours. */
  lemma ClosedFormHons(g: Grid, c: Case, k: nat, r: nat, i: nat)
    requires OnTorus(c, g) && r < c.l.size && i < BufferWords(c.n)
    ensures After(c, 4 * k + 4)[r].hons[i]
         == c.init[Hops(c.l, i >= c.n, k, if i < c.n then g.North(r) else g.South(r))].hoew[i]
  {
    ExchangeWords(c, k, r);
    HoewTrace(c, k, if i < c.n then g.North(r) else g.South(r), i);
    var w := After(c, 4 * k);
    assert w[g.North(r)].Sized(c.n) && w[g.South(r)].Sized(c.n);
    HalvesWords(w[g.North(r)].hoew, w[g.South(r)].hoew, c.n);
  }

  /** k exchanges bring back every hoew, whatever the buffers held. */
  ghost predicate Restores(g: Grid, n: nat, k: nat) {
    forall c: Case, r: nat | OnTorus(c, g) && c.n == n && r < g.Size() ::
      After(c, 4 * k)[r].hoew == c.init[r].hoew
  }

  /** That holds exactly when k is a common multiple of rows and cols, or there is no halo. */
  lemma RestoresIff(g: Grid, n: nat, k: nat)
    requires g.Valid()
    ensures Restores(g, n, k) <==> n == 0 || (k % g.rows == 0 && k % g.cols == 0)
  {
    if n == 0 || (k % g.rows == 0 && k % g.cols == 0) {
      forall c: Case, r: nat | OnTorus(c, g) && c.n == n && r < g.Size()
        ensures After(c, 4 * k)[r].hoew == c.init[r].hoew
      {
        Restored(g, c, k, r);
      }
    } else {
      Unrestored(g, n, k);
    }
  }

  lemma Restored(g: Grid, c: Case, k: nat, r: nat)
    requires g.Valid() && OnTorus(c, g) && r < g.Size()
    requires c.n == 0 || (k % g.rows == 0 && k % g.cols == 0)
    ensures After(c, 4 * k)[r].hoew == c.init[r].hoew
  {
    var x, y := After(c, 4 * k)[r], c.init[r];
    assert x.Sized(c.n) && y.Sized(c.n);
    if c.n > 0 {
      forall i | 0 <= i < BufferWords(c.n)
        ensures x.hoew[i] == y.hoew[i]
      {
        RestoredWord(g, c, k, r, i);
      }
    }
  }

  lemma RestoredWord(g: Grid, c: Case, k: nat, r: nat, i: nat)
    requires g.Valid() && OnTorus(c, g) && r < g.Size() && i < BufferWords(c.n)
    requires k % g.rows == 0 && k % g.cols == 0
    ensures After(c, 4 * k)[r].hoew[i] == c.init[r].hoew[i]
  {
    HoewTrace(c, k, r, i);
    WholeTurns(g, i >= c.n, k, r);
    assert HoewAfter(c, 0, r, i) == c.init[r].hoew[i];
  }

  lemma WholeTurns(g: Grid, twoN: bool, k: nat, r: nat)
    requires g.Valid() && r < g.Size() && k % g.rows == 0 && k % g.cols == 0
    ensures Hops(Torus(g), twoN, k, r) == r
  {
    HopsShift(g, twoN, k, r);
    if twoN {
      MultipleKeeps(k, g.rows, g.rows - 1);
      MultipleKeeps(k, g.cols, g.cols - 1);
    }
    ShiftTurns(g, r, Turns(g.rows, twoN, k), Turns(g.cols, twoN, k));
  }

  lemma Unrestored(g: Grid, n: nat, k: nat)
    requires g.Valid() && n > 0 && !(k % g.rows == 0 && k % g.cols == 0)
    ensures !Restores(g, n, k)
  {
    MulLess(0, g.rows, g.cols);
    var c: Case := Setting(Torus(g), n, seq(g.Size(), r requires 0 <= r < g.Size() => RankFilled(n, r)));
    HoewTrace(c, k, 0, 0);
    HopsShift(g, false, k, 0);
    ShiftTurns(g, 0, k, k);
    assert HoewAfter(c, k, 0, 0) != c.init[0].hoew[0];
  }

  /** Every buffer holds its own rank. */
  function RankFilled(n: nat, r: nat): (b: Buffers)
    ensures b.Sized(n)
  {
    var s := seq(BufferWords(n), _ => r);
    Buffers(s, s, s, s)
  }

  lemma MultipleKeeps(k: nat, m: nat, f: nat)
    requires m >= 1 && k % m == 0
    ensures (k * f) % m == 0
  {
    MulSwap(k / m, m, f);
    ModTurns(0, m, (k / m) * f);
  }

  /** The words at index i of every rank's hoew. */
  function Column(w: seq<Buffers>, n: nat, i: nat): (s: seq<Word>)
    requires i < BufferWords(n) && forall r | 0 <= r < |w| :: w[r].Sized(n)
    ensures |s| == |w|
  {
    seq(|w|, r requires 0 <= r < |w| => assert w[r].Sized(n); w[r].hoew[i])
  }

  ghost predicate Permutation(p: seq<nat>) {
    && (forall r | 0 <= r < |p| :: p[r] < |p|)
    && (forall r, q | 0 <= r < q < |p| :: p[r] != p[q])
  }

  function Pick(s: seq<Word>, p: seq<nat>): (t: seq<Word>)
    requires forall r | 0 <= r < |p| :: p[r] < |s|
    ensures |t| == |p|
  {
    seq(|p|, r requires 0 <= r < |p| => s[p[r]])
  }

  /** One step of the induction: t and s agree up to the order of their elements. */
  lemma SameElements(t: seq<Word>, u: seq<Word>, part: seq<Word>, s: seq<Word>)
    requires s != [] && multiset(u) == multiset(t) && u == part + [s[|s| - 1]]
    requires multiset(part) == multiset(s[..|s| - 1])
    ensures multiset(t) == multiset(s)
  {
    AppendMultiset(part, s[..|s| - 1], s[|s| - 1]);
    assert s == s[..|s| - 1] + [s[|s| - 1]];
  }

  /** Rearranging by a permutation keeps the multiset. */
  lemma {:induction false} PickMultiset(s: seq<Word>, p: seq<nat>)
    requires |s| == |p| && Permutation(p)
    ensures multiset(Pick(s, p)) == multiset(s)
  {
    if |s| == 0 {
      assert Pick(s, p) == s;
    } else {
      hide Pick, Permutation, Swapped;
      var z := FindTop(p);
      var m := |s| - 1;
      PickMultiset(s[..m], DropTop(p, z));
      SwapMultiset(Pick(s, p), z, m);
      SwapPick(s, p, z);
      SameElements(Pick(s, p), Swapped(Pick(s, p), z, m), Pick(s[..m], DropTop(p, z)), s);
    }
  }

  lemma AppendMultiset(x: seq<Word>, y: seq<Word>, v: Word)
    requires multiset(x) == multiset(y)
    ensures multiset(x + [v]) == multiset(y + [v])
  {
  }

  lemma SwapPick(s: seq<Word>, p: seq<nat>, z: nat)
    requires 0 < |s| == |p| && Permutation(p) && z < |p| && p[z] == |p| - 1
    ensures var t, m := Pick(s, p), |s| - 1;
            Swapped(t, z, m) == Pick(s[..m], DropTop(p, z)) + [s[m]]
  {
  }

  /** Swap the largest entry of p to the end and drop it. */
  function DropTop(p: seq<nat>, z: nat): (q: seq<nat>)
    requires z < |p| && p[z] == |p| - 1 && Permutation(p)
    ensures |q| == |p| - 1 && Permutation(q)
    ensures forall r | 0 <= r < |q| :: q[r] == if r == z then p[|q|] else p[r]
  {
    p[z := p[|p| - 1]][..|p| - 1]
  }

  function Swapped(t: seq<Word>, z: nat, m: nat): (u: seq<Word>)
    requires z < |t| && m < |t|
  {
    t[z := t[m]][m := t[z]]
  }

  lemma SwapMultiset(t: seq<Word>, z: nat, m: nat)
    requires z < |t| && m < |t|
    ensures multiset(Swapped(t, z, m)) == multiset(t)
  {
  }

  lemma {:induction false} FindTop(p: seq<nat>) returns (z: nat)
    requires |p| > 0 && Permutation(p)
    ensures z < |p| && p[z] == |p| - 1
  {
    if !exists r :: 0 <= r < |p| && p[r] == |p| - 1 {
      Pigeonhole(p, |p| - 1);
    }
    z :| z < |p| && p[z] == |p| - 1;
  }

  /** No sequence of distinct naturals below b is longer than b. */
  lemma {:induction false} Pigeonhole(p: seq<nat>, b: nat)
    requires forall r | 0 <= r < |p| :: p[r] < b
    requires forall r, q | 0 <= r < q < |p| :: p[r] != p[q]
    ensures |p| <= b
  {
    if |p| == 0 {
    } else if exists z: nat :: z < |p| && p[z] == b - 1 {
      var z: nat :| z < |p| && p[z] == b - 1;
      Pigeonhole(p[..z] + p[z + 1..], b - 1);
    } else {
      assert p[0] < b;
      Pigeonhole(p, b - 1);
    }
  }

  /** Conservation, for any neighbour tables: at every index, exchanges only permute the
      words among the ranks. */
  lemma Conservation(c: Case, k: nat, i: nat)
    requires i < BufferWords(c.n)
    ensures multiset(Column(After(c, 4 * k), c.n, i)) == multiset(Column(c.init, c.n, i))
  {
    assert After(c, 0) == c.init;
    hide After, Hops;
    var w := After(c, 4 * k);
    var p := seq(c.l.size, r requires 0 <= r < c.l.size => Hops(c.l, i >= c.n, k, r));
    forall r, q | 0 <= r < q < |p|
      ensures p[r] != p[q]
    {
      HopsInjective(c.l, i >= c.n, k, r, q);
    }
    PickMultiset(Column(c.init, c.n, i), p);
    forall r | 0 <= r < c.l.size
      ensures Column(w, c.n, i)[r] == Pick(Column(c.init, c.n, i), p)[r]
    {
      HoewTrace(c, k, r, i);
    }
    assert Column(w, c.n, i) == Pick(Column(c.init, c.n, i), p);
  }

  lemma {:induction false} HopsInjective(l: Links, twoN: bool, k: nat, r: nat, q: nat)
    requires r < l.size && q < l.size && r != q
    ensures Hops(l, twoN, k, r) != Hops(l, twoN, k, q)
  {
    if k > 0 {
      HopInjective(l, twoN, r, q);
      HopsInjective(l, twoN, k - 1, Hop(l, twoN, r), Hop(l, twoN, q));
    }
  }

  lemma HopInjective(l: Links, twoN: bool, r: nat, q: nat)
    requires r < l.size && q < l.size && r != q
    ensures Hop(l, twoN, r) != Hop(l, twoN, q)
  {
    var x, y := if twoN then 3 else 2, if twoN then 1 else 0;
    SrcDest(l, x, Src(l, x, r), r);
    SrcDest(l, x, Src(l, x, r), q);
    SrcDest(l, y, Hop(l, twoN, r), Src(l, x, r));
    SrcDest(l, y, Hop(l, twoN, r), Src(l, x, q));
  }
}
