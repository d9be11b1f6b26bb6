/** The process grid: factorisation of the world size into rows x cols, the row-major
    numbering of a Cartesian communicator, and the four periodic neighbours of a rank. */
module Topology {

  function Pow2(k: nat): (p: nat)
    ensures p >= 1
  {
    if k == 0 then 1 else 2 * Pow2(k - 1)
  }

  lemma MulLess(a: nat, b: nat, c: nat)
    requires a < b && c >= 1
    ensures a * c < b * c
  {
  }

  lemma MulLessEq(a: nat, b: nat, c: nat)
    requires a <= b
    ensures a * c <= b * c
  {
  }

  lemma MulAssoc(a: int, b: int, c: int)
    ensures a * (b * c) == (a * b) * c
  {
  }

  lemma MulSwap(a: int, b: int, c: int)
    ensures (a * b) * c == (a * c) * b
  {
  }

  /** Quotient and remainder are unique. */
  lemma DivModUnique(x: nat, d: nat, q: nat, m: nat)
    requires x == q * d + m && m < d
    ensures x / d == q && x % d == m
  {
    var q', m' := x / d, x % d;
    assert x == q' * d + m' && m' < d;
    if q' < q {
      MulLessEq(q' + 1, q, d);
    } else if q < q' {
      MulLessEq(q + 1, q', d);
    }
  }

  lemma {:induction false} Pow2Add(i: nat, j: nat)
    ensures Pow2(i + j) == Pow2(i) * Pow2(j)
  {
    if i > 0 {
      Pow2Add(i - 1, j);
      assert i + j - 1 == (i - 1) + j;
    }
  }

  /** The odd factor the column count starts from. */
  function Seed(ranks: nat): (s: nat)
    ensures s == 1 || s == 3 || s == 5
  {
    if ranks % 25 == 0 then 5 else if ranks % 9 == 0 then 3 else 1
  }

  /** What a factorisation has to satisfy; DimsUnique shows that this pins it down. */
  ghost predicate Factorisation(ranks: nat, rows: nat, cols: nat, k: nat) {
    && rows * cols == ranks
    && cols == Seed(ranks) * Pow2(k)
    && (rows % 2 == 1 || cols >= rows)
    && cols < 4 * rows
  }

  /** A multiple of d * d leaves an exact quotient by d and is at least d * d. */
  lemma SquareDivides(ranks: nat, d: nat)
    requires ranks >= 1 && d >= 1 && ranks % (d * d) == 0
    ensures ranks / d * d == ranks >= d * d
    ensures ranks % d == 0
  {
    var q := ranks / (d * d);
    assert ranks == (d * d) * q;
    assert ranks == (d * q) * d;
    DivModUnique(ranks, d, d * q, 0);
    MulLessEq(1, q, d * d);
  }

  /** The loop guard's products, read as a comparison of the two sides. */
  lemma AspectRatio(ranks: nat, rows: nat, cols: nat)
    requires rows * cols == ranks >= 1
    ensures cols * cols < 4 * ranks ==> cols < 4 * rows
    ensures cols * cols >= ranks ==> cols >= rows
  {
    if cols >= 4 * rows {
      MulLessEq(4 * rows, cols, cols);
    }
    if cols < rows {
      MulLess(cols, rows, cols);
    }
  }

  lemma DoubleCols(ranks: nat, remaining: nat, cols: nat, k: nat)
    requires cols == Seed(ranks) * Pow2(k)
    requires remaining % 2 == 0
    ensures cols * 2 == Seed(ranks) * Pow2(k + 1)
    ensures (remaining / 2) * (cols * 2) == remaining * cols
    ensures (cols * 2) * (cols * 2) == 4 * (cols * cols)
  {
    MulAssoc(Seed(ranks), Pow2(k), 2);
    MulAssoc(remaining / 2, 2, cols);
  }

  method HaloCompatibleDims(ranks: nat) returns (rows: nat, cols: nat)
    requires ranks >= 1
    ensures rows * cols == ranks
    ensures exists k: nat :: Factorisation(ranks, rows, cols, k)
    ensures if ranks % 25 == 0 then exists k: nat :: cols == 5 * Pow2(k)
            else if ranks % 9 == 0 then exists k: nat :: cols == 3 * Pow2(k)
            else exists k: nat :: cols == Pow2(k)
  {
    assert Pow2(0) == 1;
    cols := 1;
    var remaining := ranks;
    if ranks % 25 == 0 {
      SquareDivides(ranks, 5);
      cols := 5;
      remaining := ranks / 5;
    } else if ranks % 9 == 0 {
      SquareDivides(ranks, 3);
      cols := 3;
      remaining := ranks / 3;
    }
    ghost var k: nat := 0;
    while remaining % 2 == 0 && cols * cols < ranks && remaining != 1
      invariant cols == Seed(ranks) * Pow2(k) >= 1
      invariant remaining * cols == ranks
      invariant cols * cols < 4 * ranks
      decreases remaining
    {
      DoubleCols(ranks, remaining, cols, k);
      remaining := remaining / 2;
      cols := cols * 2;
      k := k + 1;
    }
    DivModUnique(ranks, cols, remaining, 0);
    rows := ranks / cols;
    AspectRatio(ranks, rows, cols);
    assert Factorisation(ranks, rows, cols, k);
    OddFactor(ranks, rows, cols, k);
  }

  /** A multiple of 25 has five times a power of two columns, any other multiple of 9 three times
      one, and every other rank count a power of two. */
  lemma OddFactor(ranks: nat, rows: nat, cols: nat, k: nat)
    requires Factorisation(ranks, rows, cols, k)
    ensures if ranks % 25 == 0 then cols == 5 * Pow2(k) else if ranks % 9 == 0 then cols == 3 * Pow2(k) else cols == Pow2(k)
  {
  }

  /** The loop's result is the only grid that meets its contract. */
  lemma {:induction false} DimsUnique(ranks: nat, rows: nat, cols: nat, k: nat, rows': nat, cols': nat, k': nat)
    requires ranks >= 1
    requires Factorisation(ranks, rows, cols, k) && Factorisation(ranks, rows', cols', k')
    ensures rows == rows' && cols == cols'
  {
    if k < k' {
      NotLater(ranks, rows, cols, k, rows', cols', k');
    } else if k' < k {
      NotLater(ranks, rows', cols', k', rows, cols, k);
    } else {
      DivModUnique(ranks, cols, rows, 0);
      DivModUnique(ranks, cols', rows', 0);
    }
  }

  lemma NotLater(ranks: nat, rows: nat, cols: nat, k: nat, rows': nat, cols': nat, k': nat)
    requires ranks >= 1 && k < k'
    requires Factorisation(ranks, rows, cols, k)
    ensures !Factorisation(ranks, rows', cols', k')
  {
    if Factorisation(ranks, rows', cols', k') {
      NarrowerStops(ranks, rows, cols, k, rows', cols', k');
    }
  }

  lemma NarrowerStops(ranks: nat, rows: nat, cols: nat, k: nat, rows': nat, cols': nat, k': nat)
    requires ranks >= 1 && k < k'
    requires Factorisation(ranks, rows, cols, k)
    requires rows' * cols' == ranks && cols' == Seed(ranks) * Pow2(k')
    ensures cols' >= 4 * rows'
  {
    var d, h := Pow2(k' - k), Pow2(k' - k - 1);
    Pow2Add(k, k' - k);
    MulAssoc(Seed(ranks), Pow2(k), d);
    AlreadyWide(rows, cols, rows', h);
  }

  /** rows is even, so cols >= rows; the wider grid has cols * d >= d * d * rows' columns. */
  lemma AlreadyWide(rows: nat, cols: nat, rows': nat, h: nat)
    requires cols >= 1 && h >= 1 && rows * cols == rows' * (cols * (2 * h))
    requires rows % 2 == 1 || cols >= rows
    ensures cols * (2 * h) >= 4 * rows'
  {
    CancelRows(rows, cols, rows', 2 * h);
    MulAssoc(rows', h, 2);
    assert rows == (rows' * h) * 2;
    TooWide(rows', cols, 2 * h);
  }

  lemma CancelRows(rows: nat, cols: nat, rows': nat, d: nat)
    requires cols >= 1 && rows * cols == rows' * (cols * d)
    ensures rows == rows' * d
  {
    MulAssoc(rows', cols, d);
    MulSwap(rows', cols, d);
    DivModUnique(rows * cols, cols, rows, 0);
    DivModUnique(rows * cols, cols, rows' * d, 0);
  }

  lemma TooWide(rows': nat, cols: nat, d: nat)
    requires d >= 2 && cols >= rows' * d
    ensures cols * d >= 4 * rows'
  {
    MulLessEq(2 * rows', cols, d) by { MulLessEq(2, d, rows'); }
    MulLessEq(2, d, 2 * rows');
  }

  /** On a power of two the grid is square or twice as wide as it is tall. */
  lemma PowerOfTwoDims(m: nat, rows: nat, cols: nat, k: nat)
    requires Factorisation(Pow2(m), rows, cols, k)
    ensures cols == Pow2((m + 1) / 2)
    ensures rows == Pow2(m / 2)
  {
    Pow2Mod(m);
    var hi, lo := (m + 1) / 2, m / 2;
    assert m == hi + lo;
    Pow2Add(lo, hi);
    if hi == lo + 1 {
      assert Pow2(hi) == 2 * Pow2(lo);
    }
    assert Factorisation(Pow2(m), Pow2(lo), Pow2(hi), hi);
    DimsUnique(Pow2(m), rows, cols, k, Pow2(lo), Pow2(hi), hi);
  }

  /** Three times as many rows and columns for nine times a power of two. */
  lemma NineTimesDims(m: nat, rows: nat, cols: nat, k: nat)
    requires Factorisation(9 * Pow2(m), rows, cols, k)
    ensures cols == 3 * Pow2((m + 1) / 2) && rows == 3 * Pow2(m / 2)
  {
    NineTimes(Pow2(m)) by { Pow2Mod(m); }
    assert 3 * 3 * Pow2(m) == 9 * Pow2(m);
    hide Factorisation;
    ScaledDims(3, m, rows, cols, k);
  }

  /** And five times as many for twenty-five times one. */
  lemma TwentyFiveTimesDims(m: nat, rows: nat, cols: nat, k: nat)
    requires Factorisation(25 * Pow2(m), rows, cols, k)
    ensures cols == 5 * Pow2((m + 1) / 2) && rows == 5 * Pow2(m / 2)
  {
    DivModUnique(25 * Pow2(m), 25, Pow2(m), 0);
    assert 5 * 5 * Pow2(m) == 25 * Pow2(m);
    hide Factorisation;
    ScaledDims(5, m, rows, cols, k);
  }

  lemma ScaledDims(d: nat, m: nat, rows: nat, cols: nat, k: nat)
    requires (d == 3 || d == 5) && Factorisation(d * d * Pow2(m), rows, cols, k) && Seed(d * d * Pow2(m)) == d
    ensures cols == d * Pow2((m + 1) / 2) && rows == d * Pow2(m / 2)
  {
    var hi, lo := (m + 1) / 2, m / 2;
    assert m == hi + lo;
    Pow2Add(lo, hi);
    if hi == lo + 1 {
      assert Pow2(hi) == 2 * Pow2(lo);
    }
    var a, b := Pow2(lo), Pow2(hi);
    SideBySide(d, a, b);
    assert Factorisation(d * d * Pow2(m), d * a, d * b, hi);
    DimsUnique(d * d * Pow2(m), rows, cols, k, d * a, d * b, hi);
  }

  lemma SideBySide(d: nat, a: nat, b: nat)
    requires d >= 1 && a >= 1 && (b == a || b == 2 * a)
    ensures d * a <= d * b < 4 * (d * a) && (d * a) * (d * b) == d * d * (a * b)
  {
    MulLessEq(1, d, a);
    MulAssoc(d, a, 2);
    MulAssoc(d * a, d, b);
    MulSwap(d, a, d);
    MulAssoc(d * d, a, b);
  }

  /** Nine times a number that five does not divide is no multiple of 25. */
  lemma NineTimes(p: nat)
    requires p % 5 != 0
    ensures (9 * p) % 25 != 0 && (9 * p) % 9 == 0
  {
    if (9 * p) % 25 == 0 {
      var q := 9 * p / 25;
      assert 9 * p == 25 * q;
      DivModUnique(p, 5, 2 * p - 5 * q, 0);
    }
  }

  /** A power of two is not a multiple of 9 or of 25. */
  lemma {:induction false} Pow2Mod(m: nat)
    ensures Pow2(m) % 3 != 0 && Pow2(m) % 5 != 0
    ensures Seed(Pow2(m)) == 1
  {
    var p := Pow2(m);
    if m > 0 {
      Pow2Mod(m - 1);
      ghost var h, q3, q5 := Pow2(m - 1), p / 3, p / 5;
      if p % 3 == 0 {
        DivModUnique(h, 3, 2 * q3 - h, 0);
      }
      if p % 5 == 0 {
        DivModUnique(h, 5, h - 2 * q5, 0);
      }
    }
    if p % (5 * 5) == 0 {
      SquareDivides(p, 5);
    }
    if p % (3 * 3) == 0 {
      SquareDivides(p, 3);
    }
  }

  /** The four neighbour fields of every rank's TopologyInfo, indexed by rank. */
  datatype LinkTable = LinkTable(size: nat, south: seq<nat>, north: seq<nat>, west: seq<nat>, east: seq<nat>)

  ghost predicate MutuallyInverse(l: LinkTable) {
    && |l.south| == |l.north| == |l.west| == |l.east| == l.size
    && (forall a | 0 <= a < l.size ::
          l.south[a] < l.size && l.north[a] < l.size && l.west[a] < l.size && l.east[a] < l.size)
    && (forall a, b | 0 <= a < l.size && 0 <= b < l.size :: Paired(l.south, l.north, a, b))
    && (forall a, b | 0 <= a < l.size && 0 <= b < l.size :: Paired(l.west, l.east, a, b))
  }

  /** There is a link from a to b exactly if there is one back from b to a. */
  ghost predicate Paired(there: seq<nat>, back: seq<nat>, a: nat, b: nat)
    requires a < |there| && b < |back|
  {
    there[a] == b <==> back[b] == a
  }

  type Links = l: LinkTable | MutuallyInverse(l) witness LinkTable(0, [], [], [], [])

  /** Where rank a sends in stage t of an exchange: N south, 2N north, N west, 2N east. */
  function Dest(l: Links, t: nat, a: nat): (b: nat)
    requires a < l.size
    ensures b < l.size
  {
    if t == 0 then l.south[a] else if t == 1 then l.north[a] else if t == 2 then l.west[a] else l.east[a]
  }

  /** Whom rank b receives from in stage t. */
  function Src(l: Links, t: nat, b: nat): (a: nat)
    requires b < l.size
    ensures a < l.size
  {
    if t == 0 then l.north[b] else if t == 1 then l.south[b] else if t == 2 then l.east[b] else l.west[b]
  }

  /** The rank a message is sent to is the one that names the sender as its source. */
  lemma SrcDest(l: Links, t: nat, a: nat, b: nat)
    requires a < l.size && b < l.size
    ensures Dest(l, t, a) == b <==> Src(l, t, b) == a
  {
    assert Paired(l.south, l.north, a, b) && Paired(l.south, l.north, b, a);
    assert Paired(l.west, l.east, a, b) && Paired(l.west, l.east, b, a);
  }

  /** The stage in which a rank hears from the neighbour it sends to in stage t. */
  function Opposite(t: nat): (o: nat)
    requires t < 4
    ensures o < 4
  {
    if t == 0 || t == 2 then t + 1 else t - 1
  }

  lemma HearsBack(l: Links, t: nat, a: nat)
    requires t < 4 && a < l.size
    ensures Src(l, Opposite(t), a) == Dest(l, t, a)
  {
  }

  datatype Grid = Grid(rows: nat, cols: nat) {

    ghost predicate Valid() { rows >= 1 && cols >= 1 }

    function Size(): nat { rows * cols }

    function Rank(r: nat, c: nat): (k: nat)
      requires r < rows && c < cols
      ensures k < Size()
    {
      MulLessEq(r + 1, rows, cols);
      assert (r + 1) * cols == r * cols + cols;
      r * cols + c
    }

    function Row(k: nat): (r: nat)
      requires k < Size()
      ensures r < rows
    {
      RowBound(k, rows, cols);
      k / cols
    }

    function Col(k: nat): (c: nat)
      requires k < Size()
      ensures c < cols
    {
      RowBound(k, rows, cols);
      k % cols
    }

    /** Periodic move by dr rows and dc columns. */
    function Shift(k: nat, dr: nat, dc: nat): (k': nat)
      requires k < Size()
      ensures k' < Size()
    {
      RowBound(k, rows, cols);
      Rank((Row(k) + dr) % rows, (Col(k) + dc) % cols)
    }

    function North(k: nat): (b: nat)
      requires k < Size()
      ensures b < Size()
    {
      RowBound(k, rows, cols);
      Rank((Row(k) + 1) % rows, Col(k))
    }

    function South(k: nat): (b: nat)
      requires k < Size()
      ensures b < Size()
    {
      RowBound(k, rows, cols);
      Rank((Row(k) + rows - 1) % rows, Col(k))
    }

    function East(k: nat): (b: nat)
      requires k < Size()
      ensures b < Size()
    {
      RowBound(k, rows, cols);
      Rank(Row(k), (Col(k) + 1) % cols)
    }

    function West(k: nat): (b: nat)
      requires k < Size()
      ensures b < Size()
    {
      RowBound(k, rows, cols);
      Rank(Row(k), (Col(k) + cols - 1) % cols)
    }

    /** The neighbour fields as every backend initialises them. */
    function Neighbours(): LinkTable {
      LinkTable(Size(),
                seq(Size(), k requires 0 <= k < Size() => South(k)),
                seq(Size(), k requires 0 <= k < Size() => North(k)),
                seq(Size(), k requires 0 <= k < Size() => West(k)),
                seq(Size(), k requires 0 <= k < Size() => East(k)))
    }
  }

  lemma RowBound(k: nat, rows: nat, cols: nat)
    requires k < rows * cols
    ensures cols >= 1 && rows >= 1 && k / cols < rows
  {
    if cols >= 1 && k / cols >= rows {
      MulLessEq(rows, k / cols, cols);
    }
  }

  /** The row-major numbering is a bijection between coordinates and ranks. */
  lemma RankCoords(g: Grid, r: nat, c: nat)
    requires r < g.rows && c < g.cols
    ensures g.Row(g.Rank(r, c)) == r && g.Col(g.Rank(r, c)) == c
  {
    DivModUnique(g.Rank(r, c), g.cols, r, c);
  }

  lemma CoordsRank(g: Grid, k: nat)
    requires k < g.Size()
    ensures g.Rank(g.Row(k), g.Col(k)) == k
  {
    RowBound(k, g.rows, g.cols);
  }

  /** Adding a whole number of turns changes nothing. */
  lemma {:induction false} ModTurns(x: nat, m: nat, turns: nat)
    requires m >= 1
    ensures (x + turns * m) % m == x % m
  {
    MulAssoc(turns, m, 1);
    assert x + turns * m == (x / m) * m + turns * m + x % m;
    assert (x / m + turns) * m == (x / m) * m + turns * m;
    DivModUnique(x + turns * m, m, x / m + turns, x % m);
  }

  lemma ModAdd(x: nat, a: nat, m: nat)
    requires m >= 1
    ensures (x % m + a) % m == (x + a) % m
  {
    assert x + a == (x % m + a) + x / m * m;
    ModTurns(x % m + a, m, x / m);
  }

  lemma ShiftShift(g: Grid, k: nat, a: nat, b: nat, a': nat, b': nat)
    requires k < g.Size()
    ensures g.Shift(g.Shift(k, a, b), a', b') == g.Shift(k, a + a', b + b')
  {
    RowBound(k, g.rows, g.cols);
    RankCoords(g, (g.Row(k) + a) % g.rows, (g.Col(k) + b) % g.cols);
    ModAdd(g.Row(k) + a, a', g.rows);
    ModAdd(g.Col(k) + b, b', g.cols);
  }

  /** Moving by whole turns in both dimensions, and only that, is the identity. */
  lemma ShiftTurns(g: Grid, k: nat, a: nat, b: nat)
    requires k < g.Size()
    ensures g.Shift(k, a, b) == k <==> a % g.rows == 0 && b % g.cols == 0
  {
    RowBound(k, g.rows, g.cols);
    var r, c := g.Row(k), g.Col(k);
    RankCoords(g, (r + a) % g.rows, (c + b) % g.cols);
    CoordsRank(g, k);
    AddKeeps(r, a, g.rows);
    AddKeeps(c, b, g.cols);
  }

  lemma AddKeeps(x: nat, a: nat, m: nat)
    requires x < m
    ensures (x + a) % m == x <==> a % m == 0
  {
    ModAdd(a, x, m);
    var y := a % m;
    if y + x < m {
      DivModUnique(y + x, m, 0, y + x);
    } else {
      DivModUnique(y + x, m, 1, y + x - m);
    }
  }

  /** Two different ranks never move to the same place. */
  lemma ShiftInjective(g: Grid, r: nat, q: nat, a: nat, b: nat)
    requires r < g.Size() && q < g.Size() && r != q
    ensures g.Shift(r, a, b) != g.Shift(q, a, b)
  {
    RowBound(r, g.rows, g.cols);
    RankCoords(g, (g.Row(r) + a) % g.rows, (g.Col(r) + b) % g.cols);
    RankCoords(g, (g.Row(q) + a) % g.rows, (g.Col(q) + b) % g.cols);
    ModCancel(g.Row(r), g.Row(q), a, g.rows);
    ModCancel(g.Col(r), g.Col(q), b, g.cols);
    CoordsRank(g, r);
    CoordsRank(g, q);
  }

  lemma ModCancel(x: nat, y: nat, a: nat, m: nat)
    requires x < m && y < m
    ensures (x + a) % m == (y + a) % m <==> x == y
  {
    var b := a % m;
    ModAdd(a, x, m);
    ModAdd(a, y, m);
    DivModUnique(b + x, m, if b + x < m then 0 else 1, if b + x < m then b + x else b + x - m);
    DivModUnique(b + y, m, if b + y < m then 0 else 1, if b + y < m then b + y else b + y - m);
  }

  lemma NeighboursShift(g: Grid, k: nat)
    requires k < g.Size()
    ensures g.North(k) == g.Shift(k, 1, 0) && g.South(k) == g.Shift(k, g.rows - 1, 0)
    ensures g.East(k) == g.Shift(k, 0, 1) && g.West(k) == g.Shift(k, 0, g.cols - 1)
  {
    RowBound(k, g.rows, g.cols);
    AddKeeps(g.Row(k), 0, g.rows);
    AddKeeps(g.Col(k), 0, g.cols);
  }

  /** North and south, and east and west, are mutually inverse on every grid, however
      small: a neighbour may be the rank itself, and opposite neighbours may coincide. */
  lemma TorusValid(g: Grid)
    ensures MutuallyInverse(g.Neighbours())
  {
    forall k | 0 <= k < g.Size()
      ensures g.North(g.South(k)) == k && g.South(g.North(k)) == k
      ensures g.East(g.West(k)) == k && g.West(g.East(k)) == k
    {
      NeighboursInverse(g, k);
    }
  }

  lemma NeighboursInverse(g: Grid, k: nat)
    requires k < g.Size()
    ensures g.North(g.South(k)) == k && g.South(g.North(k)) == k
    ensures g.East(g.West(k)) == k && g.West(g.East(k)) == k
  {
    RowBound(k, g.rows, g.cols);
    NeighboursShift(g, k);
    NeighboursShift(g, g.South(k));
    NeighboursShift(g, g.North(k));
    NeighboursShift(g, g.East(k));
    NeighboursShift(g, g.West(k));
    ShiftShift(g, k, 1, 0, g.rows - 1, 0);
    ShiftShift(g, k, g.rows - 1, 0, 1, 0);
    ShiftShift(g, k, 0, 1, 0, g.cols - 1);
    ShiftShift(g, k, 0, g.cols - 1, 0, 1);
    ModTurns(0, g.rows, 1);
    ModTurns(0, g.cols, 1);
    ShiftTurns(g, k, g.rows, 0);
    ShiftTurns(g, k, 0, g.cols);
  }

  function Torus(g: Grid): (l: Links)
    ensures l == g.Neighbours()
  {
    TorusValid(g);
    g.Neighbours()
  }
}
