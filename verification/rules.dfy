/** The fixed parts of the Game of Life as py_of_life.py states them: the
    neighbourhood (DISPLACEMENT_MATRIX), the board bounds and the
    birth/survival/death rule. */
module LifeRules {

  /** DISPLACEMENT_MATRIX: every offset over {-1, 0, 1} x {-1, 0, 1} except
      (0, 0), written out; DisplacementsComprehension shows it is the set
      that the source's comprehension builds. */
  const Displacements: set<(int, int)> :=
    {(-1, -1), (-1, 0), (-1, 1), (0, -1), (0, 1), (1, -1), (1, 0), (1, 1)}

  /** The same eight offsets, each listed once, in a fixed order. */
  const Offsets: seq<(int, int)> :=
    [(-1, -1), (-1, 0), (-1, 1), (0, -1), (0, 1), (1, -1), (1, 0), (1, 1)]

  /** A step to one of the eight surrounding positions. */
  predicate IsNeighbourStep(d: (int, int)) {
    -1 <= d.0 <= 1 && -1 <= d.1 <= 1 && d != (0, 0)
  }

  /** The displacement set is the comprehension over {-1, 0, 1} x {-1, 0, 1} less (0, 0). */
  lemma DisplacementsComprehension()
    ensures Displacements == (set i, j | i in [-1, 0, 1] && j in [-1, 0, 1] :: (i, j)) - {(0, 0)}
  {
    var all := set i, j | i in [-1, 0, 1] && j in [-1, 0, 1] :: (i, j);
    forall d | d in all - {(0, 0)}
      ensures d in Displacements
    {
      DisplacementsMember(d);
    }
    forall d | d in Displacements
      ensures d in all - {(0, 0)}
    {
      assert d.0 in [-1, 0, 1] && d.1 in [-1, 0, 1];
    }
  }

  lemma DisplacementsMember(d: (int, int))
    ensures d in Displacements <==> IsNeighbourStep(d)
  {
  }

  /** The displacement set is closed under negation. */
  lemma DisplacementsSymmetric(d: (int, int))
    ensures d in Displacements <==> (-d.0, -d.1) in Displacements
  {
    DisplacementsMember(d);
    DisplacementsMember((-d.0, -d.1));
  }

  /** Offsets lists exactly the members of Displacements, once each, so there are eight. */
  lemma OffsetsEnumerateDisplacements()
    ensures forall d :: d in Offsets <==> d in Displacements
    ensures forall a, b :: 0 <= a < b < |Offsets| ==> Offsets[a] != Offsets[b]
    ensures |Displacements| == 8
  {
    forall d
      ensures d in Offsets <==> d in Displacements
    {
      DisplacementsMember(d);
    }
    assert Displacements == set d | d in Offsets;
    DistinctCardinality(Offsets);
  }

  /** A sequence without repetitions has as many distinct members as elements. */
  lemma {:induction false} DistinctCardinality<T>(ds: seq<T>)
    requires forall a, b :: 0 <= a < b < |ds| ==> ds[a] != ds[b]
    ensures |set d | d in ds| == |ds|
  {
    if ds != [] {
      var front := ds[..|ds| - 1];
      DistinctCardinality(front);
      assert (set d | d in ds) == (set d | d in front) + {ds[|ds| - 1]};
      assert ds[|ds| - 1] !in front;
    }
  }

  /** validate_grid_position on a height x width board. */
  predicate InBounds(height: int, width: int, i: int, j: int) {
    0 <= i < height && 0 <= j < width
  }

  /** compute_cell_state: the next state of one cell from its state and its live-neighbour count. */
  function CellState(currentState: bool, neighboursCount: int): bool {
    if currentState && neighboursCount in [2, 3] then true
    else if !currentState && neighboursCount == 3 then true
    else false
  }

  /** The four rules of the game, and that nothing else makes a cell live. */
  lemma CellStateRules(currentState: bool, neighboursCount: int)
    ensures currentState && (neighboursCount == 2 || neighboursCount == 3) ==> CellState(currentState, neighboursCount)
    ensures !currentState && neighboursCount == 3 ==> CellState(currentState, neighboursCount)
    ensures currentState && neighboursCount < 2 ==> !CellState(currentState, neighboursCount)
    ensures neighboursCount > 3 ==> !CellState(currentState, neighboursCount)
    ensures !currentState && neighboursCount != 3 ==> !CellState(currentState, neighboursCount)
    ensures CellState(currentState, neighboursCount) <==>
      (currentState && (neighboursCount == 2 || neighboursCount == 3)) || (!currentState && neighboursCount == 3)
  {
  }

  /** The truth-table cases the unit tests pin down. */
  lemma CellStateExamples()
    ensures CellState(false, 3) && CellState(true, 2) && CellState(true, 3)
    ensures !CellState(false, 0) && !CellState(false, 2) && !CellState(false, 4)
    ensures !CellState(true, 0) && !CellState(true, 1) && !CellState(true, 4)
  {
  }

  /** The bounds cases the unit tests pin down, on a 10 x 10 board. */
  lemma InBoundsExamples()
    ensures InBounds(10, 10, 0, 0) && InBounds(10, 10, 1, 2) && InBounds(10, 10, 0, 5)
    ensures InBounds(10, 10, 7, 3) && InBounds(10, 10, 9, 9)
    ensures !InBounds(10, 10, -1, 0) && !InBounds(10, 10, -1, -1) && !InBounds(10, 10, 3, -1)
    ensures !InBounds(10, 10, 0, 10) && !InBounds(10, 10, 10, 10) && !InBounds(10, 10, 15, 2)
  {
  }

  /** A height x width board: height rows of width cells each. */
  predicate Shaped(g: seq<seq<bool>>, height: int, width: int) {
    0 <= width && |g| == height && forall r :: 0 <= r < |g| ==> |g[r]| == width
  }
}
