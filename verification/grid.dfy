/** The Grid class of py_of_life.py: a height x width board of cells that
    init_random fills and compute_next_generation advances in place. */
module PyOfLife {
  import opened LifeRules
  import opened Neighbours
  import opened Generation
  import opened Picture

  class Grid {
    const height: int
    const width: int
    /** The rows of the board; empty until it is filled. */
    var grid: seq<seq<bool>>

    /** The board holds height rows of width cells. */
    ghost predicate Valid()
      reads this
    {
      Shaped(grid, height, width)
    }

    /** A grid with the given dimensions and the given rows, none by default. */
    constructor (height: int, width: int, grid: seq<seq<bool>> := [])
      ensures this.height == height && this.width == width
      ensures this.grid == grid
    {
      this.height := height;
      this.width := width;
      this.grid := grid;
    }

    /** init_random: a fresh height x width board whose every cell is an
        independent random bit, here an arbitrary choice. */
    method InitRandom()
      requires height > 0 && width > 0
      modifies this
      ensures Valid()
      ensures grid != []
    {
      grid := [];
      var i := 0;
      while i < height
        invariant 0 <= i <= height
        invariant |grid| == i
        invariant forall r :: 0 <= r < i ==> |grid[r]| == width
      {
        grid := grid + [[]];
        var j := 0;
        while j < width
          invariant 0 <= j <= width
          invariant |grid| == i + 1
          invariant forall r :: 0 <= r < i ==> |grid[r]| == width
          invariant |grid[i]| == j
        {
          var bit: bool :| true;
          grid := grid[i := grid[i] + [bit]];
          j := j + 1;
        }
        i := i + 1;
      }
    }

    /** compute_next_generation: a scatter pass counts the live neighbours of
        every cell into a separate buffer, then a rule pass overwrites each
        cell from its state and its count. Every count is complete before the
        first cell is overwritten, so the result is the synchronous update of
        the board as it was on entry. */
    method ComputeNextGeneration()
      requires Valid()
      modifies this
      ensures Valid()
      ensures grid == NextGen(old(grid), height, width)
    {
      ghost var current := grid;
      var counts := CountLiveNeighbours();
      ApplyRule(counts);
      ghost var next := NextGen(current, height, width);
      forall a | 0 <= a < height
        ensures grid[a] == next[a]
      {
      }
    }

    /** The scatter pass of compute_next_generation: every live cell adds one
        to the count of each of its on-board neighbours, in a fresh buffer of
        zeros. The result holds each cell's live-neighbour count. */
    method CountLiveNeighbours() returns (counts: array2<int>)
      requires Valid()
      ensures fresh(counts)
      ensures counts.Length0 == height && counts.Length1 == width
      ensures forall a, b :: 0 <= a < height && 0 <= b < width ==>
        counts[a, b] == LiveNeighbours(grid, height, width, a, b)
    {
      ghost var board := grid;
      counts := new int[height, width]((_, _) => 0);
      var i := 0;
      while i < height
        invariant 0 <= i <= height
        invariant forall a, b :: 0 <= a < height && 0 <= b < width ==> counts[a, b] == Scattered(board, i, (a, b))
      {
        ScatterRow(counts, i);
        i := i + 1;
      }
      forall a, b | 0 <= a < height && 0 <= b < width
        ensures counts[a, b] == LiveNeighbours(grid, height, width, a, b)
      {
        ScatterEqualsGather(board, height, width, a, b);
      }
    }

    /** One row of the scatter pass: every live cell of row i, in column
        order, adds one to the count of each of its on-board neighbours. */
    method ScatterRow(counts: array2<int>, i: int)
      requires Valid()
      requires counts.Length0 == height && counts.Length1 == width
      requires 0 <= i < height
      modifies counts
      ensures forall a, b :: 0 <= a < height && 0 <= b < width ==>
        counts[a, b] == old(counts[a, b]) + RowScatter(grid[i], i, width, (a, b))
    {
      var row := grid[i];
      var j := 0;
      while j < width
        invariant 0 <= j <= width
        invariant forall a, b :: 0 <= a < height && 0 <= b < width ==>
          counts[a, b] == old(counts[a, b]) + RowScatter(row, i, j, (a, b))
      {
        if row[j] {
          ScatterFrom(counts, i, j);
        }
        j := j + 1;
      }
    }

    /** The rule pass of compute_next_generation: each cell, in row order, is
        overwritten by the rule applied to its own state and its count. Only
        the cell being written is read, so no cell sees another cell's new
        state. */
    method ApplyRule(counts: array2<int>)
      requires Valid()
      requires counts.Length0 == height && counts.Length1 == width
      modifies this
      ensures Valid()
      ensures forall a, b :: 0 <= a < height && 0 <= b < width ==>
        grid[a][b] == CellState(old(grid)[a][b], counts[a, b])
    {
      ghost var current := grid;
      var i := 0;
      while i < height
        invariant 0 <= i <= height
        invariant Shaped(grid, height, width)
        invariant forall a, b :: 0 <= a < height && 0 <= b < width ==>
          grid[a][b] == if a < i then CellState(current[a][b], counts[a, b]) else current[a][b]
      {
        var j := 0;
        while j < width
          invariant 0 <= j <= width
          invariant Shaped(grid, height, width)
          invariant forall a, b :: 0 <= a < height && 0 <= b < width ==>
            grid[a][b] == if a < i || (a == i && b < j) then CellState(current[a][b], counts[a, b]) else current[a][b]
        {
          grid := grid[i := grid[i][j := CellState(grid[i][j], counts[i, j])]];
          j := j + 1;
        }
        i := i + 1;
      }
    }

    /** The body of the scatter pass for one live cell (i, j): add one to the
        count of every on-board cell at a displacement from (i, j), visiting
        the displacements in an unspecified order. */
    method ScatterFrom(counts: array2<int>, i: int, j: int)
      requires counts.Length0 == height && counts.Length1 == width
      modifies counts
      ensures forall a, b :: 0 <= a < height && 0 <= b < width ==>
        counts[a, b] == old(counts[a, b]) + (if Reaches(i, j, (a, b)) then 1 else 0)
    {
      var rest := Displacements;
      ghost var done: set<(int, int)> := {};
      while rest != {}
        invariant done + rest == Displacements && done !! rest
        invariant forall a, b :: 0 <= a < height && 0 <= b < width ==>
          counts[a, b] == old(counts[a, b]) + (if (a - i, b - j) in done then 1 else 0)
        decreases rest
      {
        var d :| d in rest;
        var x, y := d.0, d.1;
        if InBounds(height, width, i + x, j + y) {
          counts[i + x, j + y] := counts[i + x, j + y] + 1;
        }
        rest := rest - {d};
        done := done + {d};
      }
    }

    /** print_grid: the bordered picture of the board, built line by line. */
    method PrintGrid() returns (gridStr: string)
      requires Valid()
      ensures gridStr == Render(grid, width)
    {
      var boardSeparator := Separator(width);
      gridStr := boardSeparator;
      var i := 0;
      while i < height
        invariant 0 <= i <= height
        invariant gridStr == boardSeparator + RenderRows(grid[..i])
      {
        var row := grid[i];
        ghost var before := gridStr;
        gridStr := gridStr + "| ";
        ghost var head := gridStr;
        var j := 0;
        while j < width
          invariant 0 <= j <= width
          invariant gridStr == head + CellGlyphs(row[..j])
        {
          var cell := if row[j] then "*" else " ";
          CellGlyphsSnoc(row, j);
          AppendAssoc(head, CellGlyphs(row[..j]), cell + " ");
          gridStr := gridStr + (cell + " ");
          j := j + 1;
        }
        assert gridStr + "|\n" == before + RowLine(row) by {
          assert row[..width] == row;
          AppendAssoc(head, CellGlyphs(row), "|\n");
          AppendAssoc(before, "| ", CellGlyphs(row) + "|\n");
        }
        gridStr := gridStr + "|\n";
        assert gridStr == boardSeparator + RenderRows(grid[..i + 1]) by {
          RenderRowsSnoc(grid, i);
          AppendAssoc(boardSeparator, RenderRows(grid[..i]), RowLine(row));
        }
        i := i + 1;
      }
      gridStr := gridStr + boardSeparator;
      assert grid[..height] == grid;
    }
  }
}
