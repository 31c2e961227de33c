/** Live-neighbour counts, defined two ways: by gathering over the
    neighbours of a cell, and by what the scatter pass of
    compute_next_generation adds to a cell while it visits the board in row
    order. The two agree because the displacement set is closed under
    negation. */
module Neighbours {
  import opened LifeRules

  /** 1 when (i, j) is on the board and live, 0 otherwise. */
  function LiveAt(g: seq<seq<bool>>, height: int, width: int, i: int, j: int): nat
    requires Shaped(g, height, width)
  {
    if InBounds(height, width, i, j) && g[i][j] then 1 else 0
  }

  /** How many of the positions (i, j) + d, d in ds, are on the board and live. */
  function CountLive(g: seq<seq<bool>>, height: int, width: int, i: int, j: int, ds: seq<(int, int)>): (n: nat)
    requires Shaped(g, height, width)
    ensures n <= |ds|
    decreases |ds|
  {
    if ds == [] then 0
    else
      var d := ds[|ds| - 1];
      CountLive(g, height, width, i, j, ds[..|ds| - 1]) + LiveAt(g, height, width, i + d.0, j + d.1)
  }

  /** Gather: the number of live on-board neighbours of (i, j). */
  function LiveNeighbours(g: seq<seq<bool>>, height: int, width: int, i: int, j: int): (n: nat)
    requires Shaped(g, height, width)
    ensures n <= 8
  {
    CountLive(g, height, width, i, j, Offsets)
  }

  /** The eight terms of LiveNeighbours written out. */
  lemma LiveNeighboursUnfold(g: seq<seq<bool>>, height: int, width: int, i: int, j: int)
    requires Shaped(g, height, width)
    ensures LiveNeighbours(g, height, width, i, j) ==
      LiveAt(g, height, width, i - 1, j - 1) + LiveAt(g, height, width, i - 1, j) + LiveAt(g, height, width, i - 1, j + 1) +
      LiveAt(g, height, width, i, j - 1) + LiveAt(g, height, width, i, j + 1) +
      LiveAt(g, height, width, i + 1, j - 1) + LiveAt(g, height, width, i + 1, j) + LiveAt(g, height, width, i + 1, j + 1)
  {
    var ds := Offsets;
    assert CountLive(g, height, width, i, j, ds[..1]) == LiveAt(g, height, width, i - 1, j - 1) by {
      assert ds[..1][..0] == [];
    }
    assert CountLive(g, height, width, i, j, ds[..2]) == CountLive(g, height, width, i, j, ds[..1]) + LiveAt(g, height, width, i - 1, j) by {
      assert ds[..2][..1] == ds[..1];
    }
    assert CountLive(g, height, width, i, j, ds[..3]) == CountLive(g, height, width, i, j, ds[..2]) + LiveAt(g, height, width, i - 1, j + 1) by {
      assert ds[..3][..2] == ds[..2];
    }
    assert CountLive(g, height, width, i, j, ds[..4]) == CountLive(g, height, width, i, j, ds[..3]) + LiveAt(g, height, width, i, j - 1) by {
      assert ds[..4][..3] == ds[..3];
    }
    assert CountLive(g, height, width, i, j, ds[..5]) == CountLive(g, height, width, i, j, ds[..4]) + LiveAt(g, height, width, i, j + 1) by {
      assert ds[..5][..4] == ds[..4];
    }
    assert CountLive(g, height, width, i, j, ds[..6]) == CountLive(g, height, width, i, j, ds[..5]) + LiveAt(g, height, width, i + 1, j - 1) by {
      assert ds[..6][..5] == ds[..5];
    }
    assert CountLive(g, height, width, i, j, ds[..7]) == CountLive(g, height, width, i, j, ds[..6]) + LiveAt(g, height, width, i + 1, j) by {
      assert ds[..7][..6] == ds[..6];
    }
    assert CountLive(g, height, width, i, j, ds) == CountLive(g, height, width, i, j, ds[..7]) + LiveAt(g, height, width, i + 1, j + 1);
  }

  /** LiveNeighbours counts exactly the displacements that lead to a live on-board cell. */
  lemma LiveNeighboursCountsDisplacements(g: seq<seq<bool>>, height: int, width: int, i: int, j: int)
    requires Shaped(g, height, width)
    ensures LiveNeighbours(g, height, width, i, j) ==
      |set d | d in Displacements && LiveAt(g, height, width, i + d.0, j + d.1) == 1|
  {
    OffsetsEnumerateDisplacements();
    CountLiveIsCardinality(g, height, width, i, j, Offsets);
    assert (set d | d in Offsets && LiveAt(g, height, width, i + d.0, j + d.1) == 1)
        == (set d | d in Displacements && LiveAt(g, height, width, i + d.0, j + d.1) == 1);
  }

  lemma {:induction false} CountLiveIsCardinality(g: seq<seq<bool>>, height: int, width: int, i: int, j: int, ds: seq<(int, int)>)
    requires Shaped(g, height, width)
    requires forall a, b :: 0 <= a < b < |ds| ==> ds[a] != ds[b]
    ensures CountLive(g, height, width, i, j, ds) == |set d | d in ds && LiveAt(g, height, width, i + d.0, j + d.1) == 1|
  {
    if ds != [] {
      var front, last := ds[..|ds| - 1], ds[|ds| - 1];
      CountLiveIsCardinality(g, height, width, i, j, front);
      var before := set d | d in front && LiveAt(g, height, width, i + d.0, j + d.1) == 1;
      assert last !in front;
      if LiveAt(g, height, width, i + last.0, j + last.1) == 1 {
        assert (set d | d in ds && LiveAt(g, height, width, i + d.0, j + d.1) == 1) == before + {last};
      } else {
        assert (set d | d in ds && LiveAt(g, height, width, i + d.0, j + d.1) == 1) == before;
      }
    }
  }

  /** The scatter pass visiting live cell (r, c) adds one to p: p lies at a displacement from (r, c). */
  predicate Reaches(r: int, c: int, p: (int, int)) {
    (p.0 - r, p.1 - c) in Displacements
  }

  /** What the scatter pass has added to p after visiting cells (r, 0) .. (r, n - 1) of row r. */
  function RowScatter(row: seq<bool>, r: int, n: nat, p: (int, int)): nat
    requires n <= |row|
  {
    if n == 0 then 0
    else RowScatter(row, r, n - 1, p) + (if row[n - 1] && Reaches(r, n - 1, p) then 1 else 0)
  }

  /** What the scatter pass has added to p after visiting every cell of rows 0 .. k - 1. */
  function Scattered(g: seq<seq<bool>>, k: nat, p: (int, int)): nat
    requires k <= |g|
  {
    if k == 0 then 0
    else Scattered(g, k - 1, p) + RowScatter(g[k - 1], k - 1, |g[k - 1]|, p)
  }

  /** By symmetry, (r, c) reaches p exactly when (r, c) is a neighbour of p. */
  lemma ReachesIsNeighbour(r: int, c: int, p: (int, int))
    ensures Reaches(r, c, p) <==> IsNeighbourStep((r - p.0, c - p.1))
  {
    DisplacementsSymmetric((p.0 - r, p.1 - c));
    DisplacementsMember((r - p.0, c - p.1));
  }

  /** 1 when column c lies in the first n cells of row and is live. */
  function Pick(row: seq<bool>, n: nat, c: int): nat
    requires n <= |row|
  {
    if 0 <= c < n && row[c] then 1 else 0
  }

  /** Within one row, only the (up to) three columns around p contribute to p. */
  lemma {:induction false} RowScatterGathers(row: seq<bool>, r: int, n: nat, p: (int, int))
    requires n <= |row|
    ensures RowScatter(row, r, n, p) ==
      if -1 <= r - p.0 <= 1 then
        Pick(row, n, p.1 - 1) + (if r == p.0 then 0 else Pick(row, n, p.1)) + Pick(row, n, p.1 + 1)
      else 0
  {
    if n > 0 {
      RowScatterGathers(row, r, n - 1, p);
      ReachesIsNeighbour(r, n - 1, p);
    }
  }

  /** Row r's whole contribution to p, when row r is among the first k rows. */
  function RowPick(g: seq<seq<bool>>, k: nat, r: int, p: (int, int)): nat
    requires k <= |g|
  {
    if 0 <= r < k then RowScatter(g[r], r, |g[r]|, p) else 0
  }

  /** Only the (up to) three rows around p contribute to p. */
  lemma {:induction false} ScatteredGathers(g: seq<seq<bool>>, k: nat, p: (int, int))
    requires k <= |g|
    ensures Scattered(g, k, p) == RowPick(g, k, p.0 - 1, p) + RowPick(g, k, p.0, p) + RowPick(g, k, p.0 + 1, p)
  {
    if k > 0 {
      ScatteredGathers(g, k - 1, p);
      RowScatterGathers(g[k - 1], k - 1, |g[k - 1]|, p);
    }
  }

  /** One row's contribution to (i, j), as live cells of that row around column j. */
  lemma RowPickGathers(g: seq<seq<bool>>, height: int, width: int, r: int, i: int, j: int)
    requires Shaped(g, height, width)
    requires -1 <= r - i <= 1
    ensures RowPick(g, height, r, (i, j)) ==
      LiveAt(g, height, width, r, j - 1) + (if r == i then 0 else LiveAt(g, height, width, r, j)) + LiveAt(g, height, width, r, j + 1)
  {
    if 0 <= r < height {
      RowScatterGathers(g[r], r, width, (i, j));
    }
  }

  /** Scatter equals gather: after the scatter pass has visited the whole board,
      every on-board cell holds its number of live neighbours. */
  lemma ScatterEqualsGather(g: seq<seq<bool>>, height: int, width: int, i: int, j: int)
    requires Shaped(g, height, width)
    ensures Scattered(g, height, (i, j)) == LiveNeighbours(g, height, width, i, j)
  {
    ScatteredGathers(g, height, (i, j));
    RowPickGathers(g, height, width, i - 1, i, j);
    RowPickGathers(g, height, width, i, i, j);
    RowPickGathers(g, height, width, i + 1, i, j);
    LiveNeighboursUnfold(g, height, width, i, j);
  }

  /** A board with no live cell gives every cell zero live neighbours. */
  lemma {:induction false} NoLiveNoNeighbours(g: seq<seq<bool>>, height: int, width: int, i: int, j: int, ds: seq<(int, int)>)
    requires Shaped(g, height, width)
    requires forall r, c :: 0 <= r < height && 0 <= c < width ==> !g[r][c]
    ensures CountLive(g, height, width, i, j, ds) == 0
    decreases |ds|
  {
    if ds != [] {
      NoLiveNoNeighbours(g, height, width, i, j, ds[..|ds| - 1]);
    }
  }
}
