/** The simulator object: a fixed-size grid held in a 2-D array field that
    each generation replaces with a freshly computed array. */
module Simulation {
  import opened LifeRules

  /** The contents of a 2-D array as a grid value. */
  ghost function ToCells(a: array2<int>): (g: Cells)
    reads a
    ensures IsGrid(g, a.Length0, a.Length1)
    ensures forall i, j :: 0 <= i < a.Length0 && 0 <= j < a.Length1 ==> g[i][j] == a[i, j]
  {
    seq(a.Length0, i requires 0 <= i < a.Length0 reads a =>
      seq(a.Length1, j requires 0 <= j < a.Length1 reads a => a[i, j]))
  }

  class LifeSimulator {
    const rows: nat
    const cols: nat
    var grid: array2<int>

    /** The grid has the simulator's dimensions and holds only 0 and 1. */
    ghost predicate Valid()
      reads this, grid
    {
      grid.Length0 == rows && grid.Length1 == cols && IsBinary(ToCells(grid), rows, cols)
    }

    /** The current generation as a value. */
    ghost function Cells(): Cells
      reads this, grid
    {
      ToCells(grid)
    }

    /** A new simulator starts from a randomly populated grid. */
    constructor (rows: nat, cols: nat, draw: Draw)
      ensures this.rows == rows && this.cols == cols
      ensures Valid() && fresh(grid)
      ensures Cells() == Created(rows, cols, true, draw)
    {
      var g := CreateGrid(rows, cols, true, draw);
      this.rows, this.cols, grid := rows, cols, g;
    }

    /** A fresh `rows` x `cols` array, all dead or drawn from `draw`. */
    static method CreateGrid(rows: nat, cols: nat, randomize: bool, draw: Draw) returns (g: array2<int>)
      ensures fresh(g) && g.Length0 == rows && g.Length1 == cols
      ensures ToCells(g) == Created(rows, cols, randomize, draw)
    {
      if randomize {
        g := new int[rows, cols]((i: nat, j: nat) => if draw(i * cols + j) then 1 else 0);
      } else {
        g := new int[rows, cols]((i, j) => 0);
      }
      SameCells(ToCells(g), Created(rows, cols, randomize, draw), rows, cols);
    }

    /** The live neighbours of (x, y), summed over the eight offsets; offsets
        that leave the grid are skipped. Any x and y are accepted. */
    method CountNeighbors(x: int, y: int) returns (count: int)
      requires Valid()
      ensures count == NeighborCount(Cells(), rows, cols, x, y)
      ensures 0 <= count <= 8
    {
      count := 0;
      for k := 0 to |Directions|
        invariant count == PartialCount(Cells(), rows, cols, x, y, k)
      {
        var (dx, dy) := Directions[k];
        var nx, ny := x + dx, y + dy;
        if 0 <= nx < rows && 0 <= ny < cols {
          count := count + grid[nx, ny];
        }
      }
    }

    /** Advances one generation. Every new cell is computed from the old
        array into a separate one (double buffering), which then becomes
        the grid; the old array is never written. */
    method NextGeneration()
      requires Valid()
      modifies this
      ensures Valid() && fresh(grid)
      ensures Cells() == Next(old(Cells()), rows, cols)
    {
      ghost var before := Cells();
      var newGrid := new int[rows, cols]((i, j) => 0);
      for x := 0 to rows
        modifies newGrid
        invariant Valid() && Cells() == before
        invariant forall i, j :: 0 <= i < x && 0 <= j < cols ==> newGrid[i, j] == NextCell(before, rows, cols, i, j)
      {
        for y := 0 to cols
          modifies newGrid
          invariant Valid() && Cells() == before
          invariant forall i, j :: 0 <= i < rows && 0 <= j < cols && (i < x || (i == x && j < y))
                      ==> newGrid[i, j] == NextCell(before, rows, cols, i, j)
        {
          var neighbors := CountNeighbors(x, y);
          assert neighbors == NeighborCount(before, rows, cols, x, y) && grid[x, y] == before[x][y];
          if grid[x, y] == 1 {
            newGrid[x, y] := if neighbors == 2 || neighbors == 3 then 1 else 0;
          } else {
            newGrid[x, y] := if neighbors == 3 then 1 else 0;
          }
        }
      }
      SameCells(ToCells(newGrid), Next(before, rows, cols), rows, cols);
      grid := newGrid;
    }
  }
}
