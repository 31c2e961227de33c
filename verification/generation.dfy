/** One generation of the game as a function of the whole board: every cell
    takes its next state from the rule, its current state and its live
    neighbours on the current board (a synchronous update). */
module Generation {
  import opened LifeRules
  import opened Neighbours

  /** The board one generation on. */
  function NextGen(g: seq<seq<bool>>, height: int, width: int): (next: seq<seq<bool>>)
    requires Shaped(g, height, width)
    ensures Shaped(next, height, width)
  {
    seq(height, i requires 0 <= i < height =>
      seq(width, j requires 0 <= j < width => CellState(g[i][j], LiveNeighbours(g, height, width, i, j))))
  }

  /** No spontaneous generation: a board with no live cell stays without one. */
  lemma AllDeadStaysDead(g: seq<seq<bool>>, height: int, width: int)
    requires Shaped(g, height, width)
    requires forall r, c :: 0 <= r < height && 0 <= c < width ==> !g[r][c]
    ensures NextGen(g, height, width) == g
  {
    var next := NextGen(g, height, width);
    forall r | 0 <= r < height
      ensures next[r] == g[r]
    {
      forall c | 0 <= c < width
        ensures next[r][c] == g[r][c]
      {
        NoLiveNoNeighbours(g, height, width, r, c, Offsets);
      }
    }
  }

  /** Two boards that agree on (i, j) and on its on-board neighbours. */
  predicate SameNeighbourhood(g1: seq<seq<bool>>, g2: seq<seq<bool>>, height: int, width: int, i: int, j: int)
    requires Shaped(g1, height, width) && Shaped(g2, height, width)
  {
    forall a, b :: InBounds(height, width, a, b) && -1 <= a - i <= 1 && -1 <= b - j <= 1 ==> g1[a][b] == g2[a][b]
  }

  /** Boards that agree around (i, j) give the same live count over any displacements within one step. */
  lemma {:induction false} CountLiveIsLocal(g1: seq<seq<bool>>, g2: seq<seq<bool>>, height: int, width: int, i: int, j: int, ds: seq<(int, int)>)
    requires Shaped(g1, height, width) && Shaped(g2, height, width)
    requires SameNeighbourhood(g1, g2, height, width, i, j)
    requires forall k :: 0 <= k < |ds| ==> -1 <= ds[k].0 <= 1 && -1 <= ds[k].1 <= 1
    ensures CountLive(g1, height, width, i, j, ds) == CountLive(g2, height, width, i, j, ds)
    decreases |ds|
  {
    if ds != [] {
      CountLiveIsLocal(g1, g2, height, width, i, j, ds[..|ds| - 1]);
    }
  }

  /** Locality: the next state of a cell depends only on the cell and its eight neighbours. */
  lemma NextGenIsLocal(g1: seq<seq<bool>>, g2: seq<seq<bool>>, height: int, width: int, i: int, j: int)
    requires Shaped(g1, height, width) && Shaped(g2, height, width)
    requires 0 <= i < height && 0 <= j < width
    requires SameNeighbourhood(g1, g2, height, width, i, j)
    ensures NextGen(g1, height, width)[i][j] == NextGen(g2, height, width)[i][j]
  {
    CountLiveIsLocal(g1, g2, height, width, i, j, Offsets);
  }
}
