/** Pure specification of the Game of Life engine: the grid as a value,
    the hard-edged Moore neighbourhood count, the birth/survival rule,
    one generation, and grid construction from an injected bit source. */
module LifeRules {

  /** A grid is a list of rows; cell value 1 is alive, 0 is dead. */
  type Cells = seq<seq<int>>

  /** The source of random bits: `draw(k)` is the outcome of the k-th
      random choice between 0 and 1. */
  type Draw = nat -> bool

  /** `g` has exactly `rows` rows of `cols` entries each. */
  predicate IsGrid(g: Cells, rows: nat, cols: nat) {
    |g| == rows && forall i :: 0 <= i < rows ==> |g[i]| == cols
  }

  /** `g` is a `rows` x `cols` grid whose every cell is 0 or 1. */
  predicate IsBinary(g: Cells, rows: nat, cols: nat) {
    IsGrid(g, rows, cols) &&
    forall i, j :: 0 <= i < rows && 0 <= j < cols ==> g[i][j] == 0 || g[i][j] == 1
  }

  /** The grid with every cell dead. */
  function Zeroed(rows: nat, cols: nat): (g: Cells)
    ensures IsBinary(g, rows, cols)
    ensures forall i, j :: 0 <= i < rows && 0 <= j < cols ==> g[i][j] == 0
  {
    seq(rows, i => seq(cols, j => 0))
  }

  /** The grid `create_grid` builds: all dead, or, when `randomize` holds,
      cell (i, j) taken from the (i * cols + j)-th draw, the order in which
      the nested comprehension asks for random values. */
  function Created(rows: nat, cols: nat, randomize: bool, draw: Draw): (g: Cells)
    ensures IsBinary(g, rows, cols)
    ensures !randomize ==> g == Zeroed(rows, cols)
  {
    if randomize then
      seq(rows, i requires 0 <= i < rows =>
        seq(cols, j requires 0 <= j < cols => if draw(i * cols + j) then 1 else 0))
    else Zeroed(rows, cols)
  }

  /** The eight Moore offsets, in the order `count_neighbors` visits them. */
  const Directions: seq<(int, int)> :=
    [(-1, -1), (-1, 0), (-1, 1), (0, -1), (0, 1), (1, -1), (1, 0), (1, 1)]

  /** What position (nx, ny) adds to a neighbour count: its cell value when
      it lies inside the grid, 0 otherwise (hard edges, no wraparound). */
  function Contribution(g: Cells, rows: nat, cols: nat, nx: int, ny: int): int
    requires IsGrid(g, rows, cols)
  {
    if 0 <= nx < rows && 0 <= ny < cols then g[nx][ny] else 0
  }

  /** The sum over the first `k` offsets of `Directions` around (x, y). */
  function PartialCount(g: Cells, rows: nat, cols: nat, x: int, y: int, k: nat): int
    requires IsGrid(g, rows, cols)
    requires k <= |Directions|
  {
    if k == 0 then 0
    else PartialCount(g, rows, cols, x, y, k - 1)
         + Contribution(g, rows, cols, x + Directions[k - 1].0, y + Directions[k - 1].1)
  }

  /** The number of live neighbours of (x, y): on a 0/1 grid at most the
      eight offsets, and none for a position two or more rows or columns
      away from the grid. */
  function NeighborCount(g: Cells, rows: nat, cols: nat, x: int, y: int): (n: int)
    requires IsGrid(g, rows, cols)
    ensures IsBinary(g, rows, cols) ==> 0 <= n <= 8
    ensures x < -1 || x > rows || y < -1 || y > cols ==> n == 0
  {
    PartialOutside(g, rows, cols, x, y, |Directions|);
    if IsBinary(g, rows, cols) then
      PartialCountRange(g, rows, cols, x, y, |Directions|);
      PartialCount(g, rows, cols, x, y, |Directions|)
    else
      PartialCount(g, rows, cols, x, y, |Directions|)
  }

  /** Around a position at least two steps outside the grid every offset
      misses the grid, so every partial count is 0. */
  lemma {:induction false} PartialOutside(g: Cells, rows: nat, cols: nat, x: int, y: int, k: nat)
    requires IsGrid(g, rows, cols)
    requires k <= |Directions|
    ensures x < -1 || x > rows || y < -1 || y > cols ==> PartialCount(g, rows, cols, x, y, k) == 0
  {
    if k > 0 {
      PartialOutside(g, rows, cols, x, y, k - 1);
    }
  }

  /** Conway's rule: the state of a cell in the next generation, from its
      current value and its live-neighbour count. */
  function Rule(cell: int, neighbors: int): (r: int)
    ensures r == 0 || r == 1
    ensures r == 1 <==> neighbors == 3 || (cell == 1 && neighbors == 2)
  {
    if cell == 1 then (if neighbors == 2 || neighbors == 3 then 1 else 0)
    else (if neighbors == 3 then 1 else 0)
  }

  /** The next state of cell (i, j), read from the old grid only. */
  function NextCell(g: Cells, rows: nat, cols: nat, i: nat, j: nat): (c: int)
    requires IsGrid(g, rows, cols)
    requires i < rows && j < cols
    ensures c == 0 || c == 1
    ensures c == 1 <==> NeighborCount(g, rows, cols, i, j) == 3
                        || (g[i][j] == 1 && NeighborCount(g, rows, cols, i, j) == 2)
  {
    Rule(g[i][j], NeighborCount(g, rows, cols, i, j))
  }

  /** One generation: every cell updated simultaneously from `g`. */
  function Next(g: Cells, rows: nat, cols: nat): (r: Cells)
    requires IsGrid(g, rows, cols)
    ensures IsBinary(r, rows, cols)
  {
    seq(rows, i requires 0 <= i < rows => seq(cols, j requires 0 <= j < cols => NextCell(g, rows, cols, i, j)))
  }

  /** Two grids of the same shape with the same cells are equal. */
  lemma SameCells(g: Cells, h: Cells, rows: nat, cols: nat)
    requires IsGrid(g, rows, cols) && IsGrid(h, rows, cols)
    requires forall i, j :: 0 <= i < rows && 0 <= j < cols ==> g[i][j] == h[i][j]
    ensures g == h
  {
    forall i | 0 <= i < rows
      ensures g[i] == h[i]
    {
    }
  }

  // ---------------------------------------------------------------------
  // Neighbour counts

  /** The count written out as its eight terms. */
  lemma NeighborCountUnfolded(g: Cells, rows: nat, cols: nat, x: int, y: int)
    requires IsGrid(g, rows, cols)
    ensures NeighborCount(g, rows, cols, x, y) ==
      Contribution(g, rows, cols, x - 1, y - 1) + Contribution(g, rows, cols, x - 1, y)
      + Contribution(g, rows, cols, x - 1, y + 1) + Contribution(g, rows, cols, x, y - 1)
      + Contribution(g, rows, cols, x, y + 1) + Contribution(g, rows, cols, x + 1, y - 1)
      + Contribution(g, rows, cols, x + 1, y) + Contribution(g, rows, cols, x + 1, y + 1)
  {
    assert PartialCount(g, rows, cols, x, y, 1) == Contribution(g, rows, cols, x - 1, y - 1);
    assert PartialCount(g, rows, cols, x, y, 2) == PartialCount(g, rows, cols, x, y, 1) + Contribution(g, rows, cols, x - 1, y);
    assert PartialCount(g, rows, cols, x, y, 3) == PartialCount(g, rows, cols, x, y, 2) + Contribution(g, rows, cols, x - 1, y + 1);
    assert PartialCount(g, rows, cols, x, y, 4) == PartialCount(g, rows, cols, x, y, 3) + Contribution(g, rows, cols, x, y - 1);
    assert PartialCount(g, rows, cols, x, y, 5) == PartialCount(g, rows, cols, x, y, 4) + Contribution(g, rows, cols, x, y + 1);
    assert PartialCount(g, rows, cols, x, y, 6) == PartialCount(g, rows, cols, x, y, 5) + Contribution(g, rows, cols, x + 1, y - 1);
    assert PartialCount(g, rows, cols, x, y, 7) == PartialCount(g, rows, cols, x, y, 6) + Contribution(g, rows, cols, x + 1, y);
  }

  /** Each of the first k offsets adds 0 or 1, so the partial sum lies in [0, k]. */
  lemma {:induction false} PartialCountRange(g: Cells, rows: nat, cols: nat, x: int, y: int, k: nat)
    requires IsBinary(g, rows, cols)
    requires k <= |Directions|
    ensures 0 <= PartialCount(g, rows, cols, x, y, k) <= k
  {
    if k > 0 {
      PartialCountRange(g, rows, cols, x, y, k - 1);
    }
  }

  /** A corner cell has at most 3 live neighbours. */
  lemma CornerCountAtMost3(g: Cells, rows: nat, cols: nat, x: nat, y: nat)
    requires IsBinary(g, rows, cols)
    requires x < rows && y < cols
    requires (x == 0 || x == rows - 1) && (y == 0 || y == cols - 1)
    ensures NeighborCount(g, rows, cols, x, y) <= 3
  {
    NeighborCountUnfolded(g, rows, cols, x, y);
  }

  /** A cell on the border of the grid has at most 5 live neighbours. */
  lemma EdgeCountAtMost5(g: Cells, rows: nat, cols: nat, x: nat, y: nat)
    requires IsBinary(g, rows, cols)
    requires x < rows && y < cols
    requires x == 0 || x == rows - 1 || y == 0 || y == cols - 1
    ensures NeighborCount(g, rows, cols, x, y) <= 5
  {
    NeighborCountUnfolded(g, rows, cols, x, y);
  }

  /** The count looks only at the eight surrounding in-grid cells: two grids
      that agree there give the same count, whatever the cell itself holds. */
  lemma NeighborCountLocal(g: Cells, h: Cells, rows: nat, cols: nat, x: int, y: int)
    requires IsGrid(g, rows, cols) && IsGrid(h, rows, cols)
    requires forall i, j ::
               0 <= i < rows && 0 <= j < cols && x - 1 <= i <= x + 1 && y - 1 <= j <= y + 1 && (i, j) != (x, y)
               ==> g[i][j] == h[i][j]
    ensures NeighborCount(g, rows, cols, x, y) == NeighborCount(h, rows, cols, x, y)
  {
    NeighborCountUnfolded(g, rows, cols, x, y);
    NeighborCountUnfolded(h, rows, cols, x, y);
  }

  // ---------------------------------------------------------------------
  // Generations

  /** The next state of a cell depends only on its 3 x 3 window of the old grid. */
  lemma NextIsLocal(g: Cells, h: Cells, rows: nat, cols: nat, x: nat, y: nat)
    requires IsGrid(g, rows, cols) && IsGrid(h, rows, cols)
    requires x < rows && y < cols
    requires forall i, j :: 0 <= i < rows && 0 <= j < cols && x - 1 <= i <= x + 1 && y - 1 <= j <= y + 1
               ==> g[i][j] == h[i][j]
    ensures Next(g, rows, cols)[x][y] == Next(h, rows, cols)[x][y]
  {
    NeighborCountLocal(g, h, rows, cols, x, y);
  }

  /** Survival and death of a live cell, birth and stasis of a dead one. */
  lemma NextCellCases(g: Cells, rows: nat, cols: nat, x: nat, y: nat)
    requires IsBinary(g, rows, cols)
    requires x < rows && y < cols
    ensures var n := NeighborCount(g, rows, cols, x, y);
            (g[x][y] == 1 ==> (Next(g, rows, cols)[x][y] == 1 <==> n == 2 || n == 3)) &&
            (g[x][y] == 0 ==> (Next(g, rows, cols)[x][y] == 1 <==> n == 3))
  {
  }

  /** Every position around a dead grid adds nothing. */
  lemma {:induction false} ZeroedPartialCount(rows: nat, cols: nat, x: int, y: int, k: nat)
    requires k <= |Directions|
    ensures PartialCount(Zeroed(rows, cols), rows, cols, x, y, k) == 0
  {
    if k > 0 {
      ZeroedPartialCount(rows, cols, x, y, k - 1);
    }
  }

  /** An all-dead grid is a fixed point of a generation. */
  lemma ZeroedIsFixedPoint(rows: nat, cols: nat)
    ensures Next(Zeroed(rows, cols), rows, cols) == Zeroed(rows, cols)
  {
    var z := Zeroed(rows, cols);
    var n := Next(z, rows, cols);
    forall i | 0 <= i < rows
      ensures n[i] == z[i]
    {
      forall j | 0 <= j < cols
        ensures n[i][j] == z[i][j]
      {
        ZeroedPartialCount(rows, cols, i, j, |Directions|);
      }
    }
  }

  // ---------------------------------------------------------------------
  // Grid construction

  /** A positive multiple of a natural number is at least that number. */
  lemma MultipleAtLeast(d: int, c: nat)
    requires d >= 1
    ensures d * c >= c
  {
  }

  /** Integer division recovers the row and column from a row-major index. */
  lemma RowMajorIndex(i: nat, j: nat, cols: nat)
    requires j < cols
    ensures (i * cols + j) / cols == i && (i * cols + j) % cols == j
  {
    var k := i * cols + j;
    var q, m := k / cols, k % cols;
    assert k == q * cols + m;
    if q > i {
      assert (q - i) * cols == q * cols - i * cols;
      MultipleAtLeast(q - i, cols);
    } else if q < i {
      assert (i - q) * cols == i * cols - q * cols;
      MultipleAtLeast(i - q, cols);
    }
  }

  /** The bit source that reproduces `g`: draw number k is the cell at
      row k / cols, column k % cols. */
  function DrawOf(g: Cells, rows: nat, cols: nat): Draw
    requires IsGrid(g, rows, cols)
  {
    k => cols > 0 && 0 <= k / cols < rows && k % cols < |g[k / cols]| && g[k / cols][k % cols] == 1
  }

  /** Every 0/1 grid of the right shape is one that random construction can
      produce: the injected bit source does not restrict the outcomes. */
  lemma EveryBinaryGridCanBeDrawn(g: Cells, rows: nat, cols: nat)
    requires IsBinary(g, rows, cols)
    ensures exists draw: Draw :: Created(rows, cols, true, draw) == g
  {
    var draw := DrawOf(g, rows, cols);
    var c := Created(rows, cols, true, draw);
    forall i | 0 <= i < rows
      ensures c[i] == g[i]
    {
      forall j | 0 <= j < cols
        ensures c[i][j] == g[i][j]
      {
        var k := i * cols + j;
        RowMajorIndex(i, j, cols);
        assert draw(k) <==> g[i][j] == 1;
      }
    }
    assert c == g;
  }

  // ---------------------------------------------------------------------
  // Patterns: a lone cell, a still life and an oscillator

  /** The grid whose live cells are exactly the in-grid members of `live`. */
  function Pattern(rows: nat, cols: nat, live: set<(int, int)>): (g: Cells)
    ensures IsBinary(g, rows, cols)
    ensures forall i, j :: 0 <= i < rows && 0 <= j < cols ==> (g[i][j] == 1 <==> (i, j) in live)
  {
    seq(rows, i => seq(cols, j => if (i, j) in live then 1 else 0))
  }

  /** The grid whose only live cell is (r, c). */
  function Single(rows: nat, cols: nat, r: nat, c: nat): Cells {
    Pattern(rows, cols, {(r, c)})
  }

  /** Whether position (nx, ny) holds a live cell of `Pattern(rows, cols, live)`. */
  function Hit(rows: nat, cols: nat, live: set<(int, int)>, nx: int, ny: int): int {
    if 0 <= nx < rows && 0 <= ny < cols && (nx, ny) in live then 1 else 0
  }

  /** The live in-grid members of `live` among the eight neighbours of (x, y). */
  function HitSum(rows: nat, cols: nat, live: set<(int, int)>, x: int, y: int): int {
    Hit(rows, cols, live, x - 1, y - 1) + Hit(rows, cols, live, x - 1, y)
    + Hit(rows, cols, live, x - 1, y + 1) + Hit(rows, cols, live, x, y - 1)
    + Hit(rows, cols, live, x, y + 1) + Hit(rows, cols, live, x + 1, y - 1)
    + Hit(rows, cols, live, x + 1, y) + Hit(rows, cols, live, x + 1, y + 1)
  }

  /** The neighbour count of a pattern, as eight membership tests. */
  lemma PatternCount(rows: nat, cols: nat, live: set<(int, int)>, x: int, y: int)
    ensures NeighborCount(Pattern(rows, cols, live), rows, cols, x, y) == HitSum(rows, cols, live, x, y)
  {
    var g := Pattern(rows, cols, live);
    NeighborCountUnfolded(g, rows, cols, x, y);
    forall nx, ny ensures Contribution(g, rows, cols, nx, ny) == Hit(rows, cols, live, nx, ny) {
    }
  }

  /** Around a single live cell, no position sees more than one live
      neighbour, and the cell itself sees none. */
  lemma SingleHits(rows: nat, cols: nat, r: nat, c: nat, i: nat, j: nat)
    requires r < rows && c < cols
    ensures HitSum(rows, cols, {(r, c)}, i, j) <= 1
    ensures (i, j) == (r, c) ==> HitSum(rows, cols, {(r, c)}, i, j) == 0
  {
  }

  /** A single live cell dies of loneliness and nothing is born, so the
      next grid is all dead. */
  lemma IsolatedCellDies(rows: nat, cols: nat, r: nat, c: nat)
    requires r < rows && c < cols
    ensures Next(Single(rows, cols, r, c), rows, cols) == Zeroed(rows, cols)
  {
    var g := Single(rows, cols, r, c);
    var n := Next(g, rows, cols);
    var z := Zeroed(rows, cols);
    forall i, j | 0 <= i < rows && 0 <= j < cols
      ensures n[i][j] == z[i][j]
    {
      PatternCount(rows, cols, {(r, c)}, i, j);
      SingleHits(rows, cols, r, c, i, j);
    }
    SameCells(n, z, rows, cols);
  }

  /** A 2 x 2 block with its top-left cell at (r, c). */
  function BlockCells(r: int, c: int): set<(int, int)> {
    {(r, c), (r, c + 1), (r + 1, c), (r + 1, c + 1)}
  }

  function Block(rows: nat, cols: nat, r: int, c: int): Cells {
    Pattern(rows, cols, BlockCells(r, c))
  }

  /** Each cell of a block sees three live neighbours; no other cell more than two. */
  lemma BlockHits(rows: nat, cols: nat, r: nat, c: nat, i: nat, j: nat)
    requires r + 1 < rows && c + 1 < cols
    ensures (i, j) in BlockCells(r, c) ==> HitSum(rows, cols, BlockCells(r, c), i, j) == 3
    ensures (i, j) !in BlockCells(r, c) ==> HitSum(rows, cols, BlockCells(r, c), i, j) <= 2
  {
  }

  /** A block that fits inside the grid is unchanged by a generation: each
      of its cells sees the other three, and no dead cell sees more than two. */
  lemma BlockIsStillLife(rows: nat, cols: nat, r: nat, c: nat)
    requires r + 1 < rows && c + 1 < cols
    ensures Next(Block(rows, cols, r, c), rows, cols) == Block(rows, cols, r, c)
  {
    var b := Block(rows, cols, r, c);
    var n := Next(b, rows, cols);
    forall i, j | 0 <= i < rows && 0 <= j < cols
      ensures n[i][j] == b[i][j]
    {
      PatternCount(rows, cols, BlockCells(r, c), i, j);
      BlockHits(rows, cols, r, c, i, j);
    }
    SameCells(n, b, rows, cols);
  }

  /** The blinker centred on (r, c): three cells in a column, or in a row. */
  function VerticalCells(r: int, c: int): set<(int, int)> {
    {(r - 1, c), (r, c), (r + 1, c)}
  }

  function HorizontalCells(r: int, c: int): set<(int, int)> {
    {(r, c - 1), (r, c), (r, c + 1)}
  }

  /** Around a vertical blinker exactly the horizontal cells have 3 live
      neighbours or are live with 2. */
  lemma VerticalHits(rows: nat, cols: nat, r: nat, c: nat, i: nat, j: nat)
    requires 1 <= r < rows - 1 && 1 <= c < cols - 1
    ensures var n := HitSum(rows, cols, VerticalCells(r, c), i, j);
            (i, j) in HorizontalCells(r, c) <==>
              n == 3 || ((i, j) in VerticalCells(r, c) && n == 2)
  {
  }

  /** The same, with the roles of the two orientations swapped. */
  lemma HorizontalHits(rows: nat, cols: nat, r: nat, c: nat, i: nat, j: nat)
    requires 1 <= r < rows - 1 && 1 <= c < cols - 1
    ensures var n := HitSum(rows, cols, HorizontalCells(r, c), i, j);
            (i, j) in VerticalCells(r, c) <==>
              n == 3 || ((i, j) in HorizontalCells(r, c) && n == 2)
  {
  }

  /** A vertical blinker away from the edges turns horizontal. */
  lemma VerticalBlinkerTurns(rows: nat, cols: nat, r: nat, c: nat)
    requires 1 <= r < rows - 1 && 1 <= c < cols - 1
    ensures Next(Pattern(rows, cols, VerticalCells(r, c)), rows, cols) == Pattern(rows, cols, HorizontalCells(r, c))
  {
    var v := Pattern(rows, cols, VerticalCells(r, c));
    var h := Pattern(rows, cols, HorizontalCells(r, c));
    var n := Next(v, rows, cols);
    forall i, j | 0 <= i < rows && 0 <= j < cols
      ensures n[i][j] == h[i][j]
    {
      PatternCount(rows, cols, VerticalCells(r, c), i, j);
      VerticalHits(rows, cols, r, c, i, j);
    }
    SameCells(n, h, rows, cols);
  }

  /** A horizontal blinker away from the edges turns vertical. */
  lemma HorizontalBlinkerTurns(rows: nat, cols: nat, r: nat, c: nat)
    requires 1 <= r < rows - 1 && 1 <= c < cols - 1
    ensures Next(Pattern(rows, cols, HorizontalCells(r, c)), rows, cols) == Pattern(rows, cols, VerticalCells(r, c))
  {
    var h := Pattern(rows, cols, HorizontalCells(r, c));
    var v := Pattern(rows, cols, VerticalCells(r, c));
    var n := Next(h, rows, cols);
    forall i, j | 0 <= i < rows && 0 <= j < cols
      ensures n[i][j] == v[i][j]
    {
      PatternCount(rows, cols, HorizontalCells(r, c), i, j);
      HorizontalHits(rows, cols, r, c, i, j);
    }
    SameCells(n, v, rows, cols);
  }

  /** The blinker oscillates with period 2. */
  lemma BlinkerHasPeriodTwo(rows: nat, cols: nat, r: nat, c: nat)
    requires 1 <= r < rows - 1 && 1 <= c < cols - 1
    ensures Next(Next(Pattern(rows, cols, VerticalCells(r, c)), rows, cols), rows, cols) == Pattern(rows, cols, VerticalCells(r, c))
  {
    VerticalBlinkerTurns(rows, cols, r, c);
    HorizontalBlinkerTurns(rows, cols, r, c);
  }
}
