# py-of-life in Dafny

A model of the core of py-of-life, a terminal implementation of Conway's
Game of Life. The core is the `Grid` class of `py_of_life.py`. A board of
`height` rows by `width` columns holds cells that are live or dead.
`init_random` fills the board with random bits. `compute_next_generation`
advances it one generation in place. `print_grid` draws it as text between
two border lines.

The project is split into modules:

- `LifeRules` (`rules.dfy`) holds the fixed parts of the game:
  - the neighbourhood `DISPLACEMENT_MATRIX` as the set `Displacements`, plus an ordered listing `Offsets`
  - the bounds test `validate_grid_position` as `InBounds`
  - the rule `compute_cell_state` as `CellState`
  - the shape of a board, `Shaped`
- `Neighbours` (`neighbours.dfy`) defines the live-neighbour count of a cell in two ways:
  - by gathering over the cell's eight neighbours (`LiveNeighbours`)
  - by what the scatter pass of `compute_next_generation` has added to the cell after visiting the board in row order (`Scattered`)

  It proves that the two agree.
- `Generation` (`generation.dfy`) defines one generation of the whole board
  as a function (`NextGen`). Every cell takes its next state from the rule,
  its own state and its live neighbours on the current board.
- `Picture` (`picture.dfy`) defines the text that `print_grid` builds
  (`Render`) and proves where each cell is drawn and that the picture
  determines the board.
- `PyOfLife` (`grid.dfy`) is the `Grid` class itself, which updates its
  `grid` field in place:
  - `ComputeNextGeneration` fills a fresh `height x width` count buffer by
    scattering from every live cell over the displacement set, then
    overwrites every cell from its state and its count.
  - It is proved to leave exactly `NextGen` of the board it started from.
  - `PrintGrid` builds the picture string line by line and is proved to
    return `Render` of the board.
- `Scenarios` (`scenarios.dfy`) holds the fixed boards of the unit tests in
  `tests.py` as lemmas about `NextGen`. It also holds the tests themselves as
  methods that drive the `Grid` class.

## Model

| member | source | states |
|---|---|---|
| LifeRules.DisplacementsComprehension | py_of_life.py:9-11 | the displacement set is exactly the pairs over {-1, 0, 1} x {-1, 0, 1} with (0, 0) removed |
| LifeRules.DisplacementsMember | py_of_life.py:9-11 | a pair is a displacement iff both coordinates lie in -1..1 and it is not (0, 0) |
| LifeRules.DisplacementsSymmetric | py_of_life.py:9-11 | the displacement set is closed under negation, so "q is a displacement from p" is symmetric |
| LifeRules.OffsetsEnumerateDisplacements | py_of_life.py:9-11 | the ordered listing holds exactly the displacements, each once, and there are eight of them |
| LifeRules.DistinctCardinality | py_of_life.py:9-11 | a sequence without repetitions has as many distinct members as elements (used for the count of eight) |
| LifeRules.CellStateRules | py_of_life.py:32-48 | survival with two or three neighbours, birth with exactly three, death by underpopulation and overpopulation, and a cell is live next iff one of the first two holds |
| LifeRules.CellStateExamples | tests.py:17-39 | the rule on the nine (state, count) pairs that test_compute_cell_state checks |
| LifeRules.InBoundsExamples | tests.py:41-61 | the bounds test on the eleven positions of a 10 x 10 board that test_validate_grid_position checks |
| Neighbours.CountLive | py_of_life.py:56-58 | the live count over a list of displacements is at most the list's length |
| Neighbours.LiveNeighbours | py_of_life.py:56-58 | a cell has at most eight live neighbours |
| Neighbours.LiveNeighboursUnfold | py_of_life.py:56-58 | the live-neighbour count is the sum of the eight on-board-and-live tests around the cell |
| Neighbours.LiveNeighboursCountsDisplacements | py_of_life.py:56-58 | the live-neighbour count is the number of displacements that lead to an on-board live cell |
| Neighbours.CountLiveIsCardinality | py_of_life.py:56-58 | over a repetition-free list of displacements, the live count equals the size of the set of displacements that lead to a live cell |
| Neighbours.ReachesIsNeighbour | py_of_life.py:56-58 | scattering from (r, c) reaches p exactly when (r, c) is one of p's eight neighbours |
| Neighbours.RowScatterGathers | py_of_life.py:53-58 | what the scatter pass adds to p while visiting one row comes only from the (up to) three live cells of that row around p's column |
| Neighbours.ScatteredGathers | py_of_life.py:53-58 | what the scatter pass adds to p over whole rows comes only from the three rows around p |
| Neighbours.RowPickGathers | py_of_life.py:53-58 | one row's contribution to (i, j) is its on-board live cells among columns j - 1 .. j + 1, excluding (i, j) itself |
| Neighbours.ScatterEqualsGather | py_of_life.py:53-58 | after the scatter pass has visited every cell of the board, each position holds exactly its number of live neighbours |
| Neighbours.NoLiveNoNeighbours | py_of_life.py:53-58 | on a board with no live cell every count is zero |
| Generation.NextGen | py_of_life.py:50-62 | the next generation has the same height and width as the board |
| Generation.AllDeadStaysDead | py_of_life.py:50-62 | no spontaneous generation: a board without a live cell is unchanged by a generation |
| Generation.NextGenIsLocal | py_of_life.py:50-62 | a cell's next state depends only on itself and its eight neighbours: boards that agree there give it the same next state |
| Generation.CountLiveIsLocal | py_of_life.py:56-58 | boards that agree on a cell and its neighbours give the same live count over any displacements of at most one step |
| Picture.Repeat | py_of_life.py:65 | repeating a character n times gives n copies of it, and none for n <= 0 as Python's string repetition does |
| Picture.CellGlyphsAt | py_of_life.py:73-75 | a row's glyphs take two characters per cell: cell c is '*' or ' ' at position 2c, followed by a space |
| Picture.CellGlyphsSnoc | py_of_life.py:73-75 | drawing one more cell of a row appends that cell's glyph and a space |
| Picture.RowLineLength | py_of_life.py:71-77 | the line of a row of w cells has 2w + 4 characters |
| Picture.RowLineAt | py_of_life.py:71-77 | in a row's line, cell c is drawn as '*' or ' ' two characters past the start of the line (after the opening bar and space) |
| Picture.LineStartProduct | py_of_life.py:70-77 | row line k starts k * (2 * width + 4) characters into the body |
| Picture.RenderRowsLength | py_of_life.py:70-77 | the body of a board of width w takes 2w + 4 characters per row |
| Picture.RenderRowsSplit | py_of_life.py:70-77 | the body is the rows before k, the line of row k and the rows after k, in row order |
| Picture.RenderRowsSnoc | py_of_life.py:70-77 | drawing one more row appends that row's line |
| Picture.RenderBorders | py_of_life.py:64-79 | the picture starts and ends with the border line, and its length is two border lines plus one line per row |
| Picture.RenderLine | py_of_life.py:64-79 | line r of the picture's body, found at its line start past the top border, draws row r |
| Picture.RenderCell | py_of_life.py:64-79 | cell (r, c) is drawn as '*' when live and ' ' when dead at a position that depends only on r, c and the width |
| Picture.RenderDeterminesBoard | py_of_life.py:64-79 | two boards of the same shape with the same picture are the same board |
| Picture.RenderExample | py_of_life.py:64-79 | the picture of the one-row board [live, dead] |
| PyOfLife.Grid.constructor | py_of_life.py:14-18 | a grid holds the given height, width and rows, with no rows by default |
| PyOfLife.Grid.InitRandom | py_of_life.py:20-27 | after init_random the board has height rows of width cells (and is therefore not empty) |
| PyOfLife.Grid.ComputeNextGeneration | py_of_life.py:50-62 | compute_next_generation replaces the board by NextGen of the board it found: a synchronous update of every cell |
| PyOfLife.Grid.CountLiveNeighbours | py_of_life.py:51-58 | the scatter pass returns a fresh height x width buffer holding each cell's live-neighbour count |
| PyOfLife.Grid.ScatterRow | py_of_life.py:54-58 | visiting row i of the scatter pass adds to every count exactly what the live cells of row i reach, and nothing else |
| PyOfLife.Grid.ScatterFrom | py_of_life.py:56-58 | scattering from (i, j), in any order of the displacement set, adds one to exactly the on-board cells at a displacement from (i, j) and leaves every other count as it was |
| PyOfLife.Grid.ApplyRule | py_of_life.py:60-62 | the rule pass sets every cell to the rule applied to its old state and its count, keeping the shape |
| PyOfLife.Grid.PrintGrid | py_of_life.py:64-79 | print_grid's string is the picture Render of the board |
| Scenarios.NextGenCell | py_of_life.py:50-62 | a cell of the next generation is the rule applied to its state and the sum of its eight neighbour tests |
| Scenarios.GeneralExample | tests.py:64-83 | the general 5 x 5 test board goes to the expected board |
| Scenarios.DeadBoardExample | tests.py:85-100 | the all-dead 3 x 3 board stays dead |
| Scenarios.UnderpopulationExample | tests.py:102-117 | two isolated live cells die |
| Scenarios.OverpopulationExample | tests.py:119-132 | the crowded 2 x 3 board loses its two middle cells and gains the two bottom corners |
| Scenarios.ReproductionExample | tests.py:134-147 | the 2 x 3 board with three live cells goes to a vertical pair in the middle column |

## Left out

- `main`, `clear_screen`, argument parsing, `time.sleep` and the final `sys.stdout.write` of `print_grid` are input and output. `PrintGrid` returns the string that `print_grid` writes.
- `random.getrandbits(1)` is an arbitrary choice of a boolean in `InitRandom`.
- PyOfLife.Grid.InitRandom: states only the shape of the new board, because every cell is random. `assert self.height > 0 and self.width > 0` becomes its precondition: the Python method raises `AssertionError` instead.
- PyOfLife.Grid.ComputeNextGeneration: requires a board of exactly `height` rows of `width` cells.
  - Python also runs on boards with extra rows or longer rows, leaving the extra cells untouched.
  - It raises `IndexError` on boards with too few or too short rows.
  - The model covers only the well-shaped board.
- PyOfLife.Grid.PrintGrid: requires the same well-shaped board for the same reason.
- The board is a sequence of row values. Python's rows are separate mutable lists that other code could alias. Aliasing is not modelled.
- `Shaped` requires `width >= 0`. Python accepts a negative width on a board with no rows, but no cell can exist there.
- The order in which Python iterates over the displacement set is not fixed. `ScatterFrom` picks the displacements in an arbitrary order, and its result holds for every order.
- The scatter pass's count buffer is a list of lists in Python and an `array2` here.
