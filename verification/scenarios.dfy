/** The fixed boards of the unit tests for compute_next_generation, as facts
    about the generation function, and the tests themselves as clients of
    the Grid class. */
module Scenarios {
  import opened LifeRules
  import opened Neighbours
  import opened Generation
  import PyOfLife

  /** Every cell of a board one generation on, with its eight neighbour terms written out. */
  lemma NextGenCell(g: seq<seq<bool>>, height: int, width: int, i: int, j: int)
    requires Shaped(g, height, width)
    requires 0 <= i < height && 0 <= j < width
    ensures NextGen(g, height, width)[i][j] == CellState(g[i][j],
      LiveAt(g, height, width, i - 1, j - 1) + LiveAt(g, height, width, i - 1, j) + LiveAt(g, height, width, i - 1, j + 1) +
      LiveAt(g, height, width, i, j - 1) + LiveAt(g, height, width, i, j + 1) +
      LiveAt(g, height, width, i + 1, j - 1) + LiveAt(g, height, width, i + 1, j) + LiveAt(g, height, width, i + 1, j + 1))
  {
    LiveNeighboursUnfold(g, height, width, i, j);
  }

  const T := true
  const F := false

  const General: seq<seq<bool>> :=
    [[F, T, F, F, F],
     [F, T, T, F, F],
     [T, F, F, T, F],
     [T, T, F, F, F],
     [T, F, F, F, T]]

  const GeneralNext: seq<seq<bool>> :=
    [[F, T, T, F, F],
     [T, T, T, F, F],
     [T, F, F, F, F],
     [T, T, F, F, F],
     [T, T, F, F, F]]

  const DeadBoard: seq<seq<bool>> := [[F, F, F], [F, F, F], [F, F, F]]

  const Underpopulated: seq<seq<bool>> := [[F, F, T], [F, F, F], [F, F, T]]

  const Overpopulated: seq<seq<bool>> := [[T, T, T], [F, T, T]]

  const OverpopulatedNext: seq<seq<bool>> := [[T, F, T], [T, F, T]]

  const Reproducing: seq<seq<bool>> := [[T, F, T], [F, T, F]]

  const ReproducingNext: seq<seq<bool>> := [[F, T, F], [F, T, F]]

  // The cells of General one generation on, one at a time.
  lemma GeneralCell00() ensures NextGen(General, 5, 5)[0][0] == GeneralNext[0][0] { NextGenCell(General, 5, 5, 0, 0); }
  lemma GeneralCell01() ensures NextGen(General, 5, 5)[0][1] == GeneralNext[0][1] { NextGenCell(General, 5, 5, 0, 1); }
  lemma GeneralCell02() ensures NextGen(General, 5, 5)[0][2] == GeneralNext[0][2] { NextGenCell(General, 5, 5, 0, 2); }
  lemma GeneralCell03() ensures NextGen(General, 5, 5)[0][3] == GeneralNext[0][3] { NextGenCell(General, 5, 5, 0, 3); }
  lemma GeneralCell04() ensures NextGen(General, 5, 5)[0][4] == GeneralNext[0][4] { NextGenCell(General, 5, 5, 0, 4); }
  lemma GeneralCell10() ensures NextGen(General, 5, 5)[1][0] == GeneralNext[1][0] { NextGenCell(General, 5, 5, 1, 0); }
  lemma GeneralCell11() ensures NextGen(General, 5, 5)[1][1] == GeneralNext[1][1] { NextGenCell(General, 5, 5, 1, 1); }
  lemma GeneralCell12() ensures NextGen(General, 5, 5)[1][2] == GeneralNext[1][2] { NextGenCell(General, 5, 5, 1, 2); }
  lemma GeneralCell13() ensures NextGen(General, 5, 5)[1][3] == GeneralNext[1][3] { NextGenCell(General, 5, 5, 1, 3); }
  lemma GeneralCell14() ensures NextGen(General, 5, 5)[1][4] == GeneralNext[1][4] { NextGenCell(General, 5, 5, 1, 4); }
  lemma GeneralCell20() ensures NextGen(General, 5, 5)[2][0] == GeneralNext[2][0] { NextGenCell(General, 5, 5, 2, 0); }
  lemma GeneralCell21() ensures NextGen(General, 5, 5)[2][1] == GeneralNext[2][1] { NextGenCell(General, 5, 5, 2, 1); }
  lemma GeneralCell22() ensures NextGen(General, 5, 5)[2][2] == GeneralNext[2][2] { NextGenCell(General, 5, 5, 2, 2); }
  lemma GeneralCell23() ensures NextGen(General, 5, 5)[2][3] == GeneralNext[2][3] { NextGenCell(General, 5, 5, 2, 3); }
  lemma GeneralCell24() ensures NextGen(General, 5, 5)[2][4] == GeneralNext[2][4] { NextGenCell(General, 5, 5, 2, 4); }
  lemma GeneralCell30() ensures NextGen(General, 5, 5)[3][0] == GeneralNext[3][0] { NextGenCell(General, 5, 5, 3, 0); }
  lemma GeneralCell31() ensures NextGen(General, 5, 5)[3][1] == GeneralNext[3][1] { NextGenCell(General, 5, 5, 3, 1); }
  lemma GeneralCell32() ensures NextGen(General, 5, 5)[3][2] == GeneralNext[3][2] { NextGenCell(General, 5, 5, 3, 2); }
  lemma GeneralCell33() ensures NextGen(General, 5, 5)[3][3] == GeneralNext[3][3] { NextGenCell(General, 5, 5, 3, 3); }
  lemma GeneralCell34() ensures NextGen(General, 5, 5)[3][4] == GeneralNext[3][4] { NextGenCell(General, 5, 5, 3, 4); }
  lemma GeneralCell40() ensures NextGen(General, 5, 5)[4][0] == GeneralNext[4][0] { NextGenCell(General, 5, 5, 4, 0); }
  lemma GeneralCell41() ensures NextGen(General, 5, 5)[4][1] == GeneralNext[4][1] { NextGenCell(General, 5, 5, 4, 1); }
  lemma GeneralCell42() ensures NextGen(General, 5, 5)[4][2] == GeneralNext[4][2] { NextGenCell(General, 5, 5, 4, 2); }
  lemma GeneralCell43() ensures NextGen(General, 5, 5)[4][3] == GeneralNext[4][3] { NextGenCell(General, 5, 5, 4, 3); }
  lemma GeneralCell44() ensures NextGen(General, 5, 5)[4][4] == GeneralNext[4][4] { NextGenCell(General, 5, 5, 4, 4); }

  lemma GeneralRow0()
    ensures NextGen(General, 5, 5)[0] == GeneralNext[0]
  {
    GeneralCell00();
    GeneralCell01();
    GeneralCell02();
    GeneralCell03();
    GeneralCell04();
  }

  lemma GeneralRow1()
    ensures NextGen(General, 5, 5)[1] == GeneralNext[1]
  {
    GeneralCell10();
    GeneralCell11();
    GeneralCell12();
    GeneralCell13();
    GeneralCell14();
  }

  lemma GeneralRow2()
    ensures NextGen(General, 5, 5)[2] == GeneralNext[2]
  {
    GeneralCell20();
    GeneralCell21();
    GeneralCell22();
    GeneralCell23();
    GeneralCell24();
  }

  lemma GeneralRow3()
    ensures NextGen(General, 5, 5)[3] == GeneralNext[3]
  {
    GeneralCell30();
    GeneralCell31();
    GeneralCell32();
    GeneralCell33();
    GeneralCell34();
  }

  lemma GeneralRow4()
    ensures NextGen(General, 5, 5)[4] == GeneralNext[4]
  {
    GeneralCell40();
    GeneralCell41();
    GeneralCell42();
    GeneralCell43();
    GeneralCell44();
  }

  /** The general 5 x 5 case. */
  lemma GeneralExample()
    ensures Shaped(General, 5, 5)
    ensures NextGen(General, 5, 5) == GeneralNext
  {
    GeneralRow0();
    GeneralRow1();
    GeneralRow2();
    GeneralRow3();
    GeneralRow4();
  }

  /** No spontaneous generation on an all-dead 3 x 3 board. */
  lemma DeadBoardExample()
    ensures Shaped(DeadBoard, 3, 3)
    ensures NextGen(DeadBoard, 3, 3) == DeadBoard
  {
    AllDeadStaysDead(DeadBoard, 3, 3);
  }

  // The cells of Underpopulated one generation on, one at a time.
  lemma UnderpopulatedCell00() ensures NextGen(Underpopulated, 3, 3)[0][0] == DeadBoard[0][0] { NextGenCell(Underpopulated, 3, 3, 0, 0); }
  lemma UnderpopulatedCell01() ensures NextGen(Underpopulated, 3, 3)[0][1] == DeadBoard[0][1] { NextGenCell(Underpopulated, 3, 3, 0, 1); }
  lemma UnderpopulatedCell02() ensures NextGen(Underpopulated, 3, 3)[0][2] == DeadBoard[0][2] { NextGenCell(Underpopulated, 3, 3, 0, 2); }
  lemma UnderpopulatedCell10() ensures NextGen(Underpopulated, 3, 3)[1][0] == DeadBoard[1][0] { NextGenCell(Underpopulated, 3, 3, 1, 0); }
  lemma UnderpopulatedCell11() ensures NextGen(Underpopulated, 3, 3)[1][1] == DeadBoard[1][1] { NextGenCell(Underpopulated, 3, 3, 1, 1); }
  lemma UnderpopulatedCell12() ensures NextGen(Underpopulated, 3, 3)[1][2] == DeadBoard[1][2] { NextGenCell(Underpopulated, 3, 3, 1, 2); }
  lemma UnderpopulatedCell20() ensures NextGen(Underpopulated, 3, 3)[2][0] == DeadBoard[2][0] { NextGenCell(Underpopulated, 3, 3, 2, 0); }
  lemma UnderpopulatedCell21() ensures NextGen(Underpopulated, 3, 3)[2][1] == DeadBoard[2][1] { NextGenCell(Underpopulated, 3, 3, 2, 1); }
  lemma UnderpopulatedCell22() ensures NextGen(Underpopulated, 3, 3)[2][2] == DeadBoard[2][2] { NextGenCell(Underpopulated, 3, 3, 2, 2); }

  lemma UnderpopulatedRow0()
    ensures NextGen(Underpopulated, 3, 3)[0] == DeadBoard[0]
  {
    UnderpopulatedCell00();
    UnderpopulatedCell01();
    UnderpopulatedCell02();
  }

  lemma UnderpopulatedRow1()
    ensures NextGen(Underpopulated, 3, 3)[1] == DeadBoard[1]
  {
    UnderpopulatedCell10();
    UnderpopulatedCell11();
    UnderpopulatedCell12();
  }

  lemma UnderpopulatedRow2()
    ensures NextGen(Underpopulated, 3, 3)[2] == DeadBoard[2]
  {
    UnderpopulatedCell20();
    UnderpopulatedCell21();
    UnderpopulatedCell22();
  }

  /** Two isolated live cells die of underpopulation. */
  lemma UnderpopulationExample()
    ensures Shaped(Underpopulated, 3, 3)
    ensures NextGen(Underpopulated, 3, 3) == DeadBoard
  {
    UnderpopulatedRow0();
    UnderpopulatedRow1();
    UnderpopulatedRow2();
  }

  // The cells of Overpopulated one generation on, one at a time.
  lemma OverpopulatedCell00() ensures NextGen(Overpopulated, 2, 3)[0][0] == OverpopulatedNext[0][0] { NextGenCell(Overpopulated, 2, 3, 0, 0); }
  lemma OverpopulatedCell01() ensures NextGen(Overpopulated, 2, 3)[0][1] == OverpopulatedNext[0][1] { NextGenCell(Overpopulated, 2, 3, 0, 1); }
  lemma OverpopulatedCell02() ensures NextGen(Overpopulated, 2, 3)[0][2] == OverpopulatedNext[0][2] { NextGenCell(Overpopulated, 2, 3, 0, 2); }
  lemma OverpopulatedCell10() ensures NextGen(Overpopulated, 2, 3)[1][0] == OverpopulatedNext[1][0] { NextGenCell(Overpopulated, 2, 3, 1, 0); }
  lemma OverpopulatedCell11() ensures NextGen(Overpopulated, 2, 3)[1][1] == OverpopulatedNext[1][1] { NextGenCell(Overpopulated, 2, 3, 1, 1); }
  lemma OverpopulatedCell12() ensures NextGen(Overpopulated, 2, 3)[1][2] == OverpopulatedNext[1][2] { NextGenCell(Overpopulated, 2, 3, 1, 2); }

  lemma OverpopulatedRow0()
    ensures NextGen(Overpopulated, 2, 3)[0] == OverpopulatedNext[0]
  {
    OverpopulatedCell00();
    OverpopulatedCell01();
    OverpopulatedCell02();
  }

  lemma OverpopulatedRow1()
    ensures NextGen(Overpopulated, 2, 3)[1] == OverpopulatedNext[1]
  {
    OverpopulatedCell10();
    OverpopulatedCell11();
    OverpopulatedCell12();
  }

  /** The two middle cells of a crowded 2 x 3 board die of overpopulation. */
  lemma OverpopulationExample()
    ensures Shaped(Overpopulated, 2, 3)
    ensures NextGen(Overpopulated, 2, 3) == OverpopulatedNext
  {
    OverpopulatedRow0();
    OverpopulatedRow1();
  }

  // The cells of Reproducing one generation on, one at a time.
  lemma ReproducingCell00() ensures NextGen(Reproducing, 2, 3)[0][0] == ReproducingNext[0][0] { NextGenCell(Reproducing, 2, 3, 0, 0); }
  lemma ReproducingCell01() ensures NextGen(Reproducing, 2, 3)[0][1] == ReproducingNext[0][1] { NextGenCell(Reproducing, 2, 3, 0, 1); }
  lemma ReproducingCell02() ensures NextGen(Reproducing, 2, 3)[0][2] == ReproducingNext[0][2] { NextGenCell(Reproducing, 2, 3, 0, 2); }
  lemma ReproducingCell10() ensures NextGen(Reproducing, 2, 3)[1][0] == ReproducingNext[1][0] { NextGenCell(Reproducing, 2, 3, 1, 0); }
  lemma ReproducingCell11() ensures NextGen(Reproducing, 2, 3)[1][1] == ReproducingNext[1][1] { NextGenCell(Reproducing, 2, 3, 1, 1); }
  lemma ReproducingCell12() ensures NextGen(Reproducing, 2, 3)[1][2] == ReproducingNext[1][2] { NextGenCell(Reproducing, 2, 3, 1, 2); }

  lemma ReproducingRow0()
    ensures NextGen(Reproducing, 2, 3)[0] == ReproducingNext[0]
  {
    ReproducingCell00();
    ReproducingCell01();
    ReproducingCell02();
  }

  lemma ReproducingRow1()
    ensures NextGen(Reproducing, 2, 3)[1] == ReproducingNext[1]
  {
    ReproducingCell10();
    ReproducingCell11();
    ReproducingCell12();
  }

  /** A dead cell with three live neighbours comes to life. */
  lemma ReproductionExample()
    ensures Shaped(Reproducing, 2, 3)
    ensures NextGen(Reproducing, 2, 3) == ReproducingNext
  {
    ReproducingRow0();
    ReproducingRow1();
  }

  /** test_init_random: a new grid has no cells; after init_random it has 5 rows of 10. */
  method InitRandomTest() {
    var grid := new PyOfLife.Grid(5, 10);
    assert grid.grid == [];
    grid.InitRandom();
    assert grid.grid != [];
    assert |grid.grid| == 5;
    assert forall r :: 0 <= r < |grid.grid| ==> |grid.grid[r]| == 10;
  }

  /** test_compute_next_generation: each board, advanced in place by the Grid class. */
  method ComputeNextGenerationTest() {
    GeneralExample();
    DeadBoardExample();
    UnderpopulationExample();
    OverpopulationExample();
    ReproductionExample();

    var grid1 := new PyOfLife.Grid(5, 5);
    grid1.grid := General;
    grid1.ComputeNextGeneration();
    assert grid1.grid == GeneralNext;

    var grid2 := new PyOfLife.Grid(3, 3);
    grid2.grid := DeadBoard;
    grid2.ComputeNextGeneration();
    assert grid2.grid == DeadBoard;

    var grid3 := new PyOfLife.Grid(3, 3);
    grid3.grid := Underpopulated;
    grid3.ComputeNextGeneration();
    assert grid3.grid == DeadBoard;

    var grid4 := new PyOfLife.Grid(2, 3);
    grid4.grid := Overpopulated;
    grid4.ComputeNextGeneration();
    assert grid4.grid == OverpopulatedNext;

    var grid5 := new PyOfLife.Grid(2, 3);
    grid5.grid := Reproducing;
    grid5.ComputeNextGeneration();
    assert grid5.grid == ReproducingNext;
  }
}
