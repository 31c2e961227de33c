/** The text picture that print_grid writes: a border line, one line per
    row with a glyph for each cell, and the same border line again. */
module Picture {
  import opened LifeRules

  /** n copies of the character ch (none when n is not positive). */
  function Repeat(ch: char, n: int): (s: string)
    ensures |s| == if n <= 0 then 0 else n
    ensures forall k :: 0 <= k < |s| ==> s[k] == ch
    decreases n
  {
    if n <= 0 then [] else Repeat(ch, n - 1) + [ch]
  }

  /** The border line above and below the board: a space, width + 1 bars and a newline. */
  function Separator(width: int): string {
    " " + Repeat('＿', width + 1) + "\n"
  }

  /** A cell and the space after it. */
  function Glyph(live: bool): string {
    (if live then "*" else " ") + " "
  }

  /** The glyphs of a row's cells, in column order. */
  function CellGlyphs(row: seq<bool>): string {
    if row == [] then "" else CellGlyphs(row[..|row| - 1]) + Glyph(row[|row| - 1])
  }

  /** The line of one row, between its border bars. */
  function RowLine(row: seq<bool>): string {
    "| " + CellGlyphs(row) + "|\n"
  }

  /** The lines of the rows, in row order. */
  function RenderRows(rows: seq<seq<bool>>): string {
    if rows == [] then "" else RenderRows(rows[..|rows| - 1]) + RowLine(rows[|rows| - 1])
  }

  /** The whole picture of a board of the given width. */
  function Render(g: seq<seq<bool>>, width: int): string {
    Separator(width) + RenderRows(g) + Separator(width)
  }

  /** Cell c of a row is drawn at position 2c of its glyphs, followed by a space. */
  lemma {:induction false} CellGlyphsAt(row: seq<bool>, c: int)
    requires 0 <= c < |row|
    ensures |CellGlyphs(row)| == 2 * |row|
    ensures CellGlyphs(row)[2 * c] == (if row[c] then '*' else ' ')
    ensures CellGlyphs(row)[2 * c + 1] == ' '
  {
    var front := row[..|row| - 1];
    if c < |row| - 1 {
      CellGlyphsAt(front, c);
    } else if front != [] {
      CellGlyphsAt(front, 0);
    }
  }

  lemma AppendAssoc<T>(a: seq<T>, b: seq<T>, c: seq<T>)
    ensures (a + b) + c == a + (b + c)
  {
  }

  /** Drawing one more cell of a row appends its glyph. */
  lemma CellGlyphsSnoc(row: seq<bool>, j: int)
    requires 0 <= j < |row|
    ensures CellGlyphs(row[..j + 1]) == CellGlyphs(row[..j]) + Glyph(row[j])
  {
    assert row[..j + 1][..j] == row[..j];
  }

  /** Drawing one more row appends its line. */
  lemma RenderRowsSnoc(rows: seq<seq<bool>>, i: int)
    requires 0 <= i < |rows|
    ensures RenderRows(rows[..i + 1]) == RenderRows(rows[..i]) + RowLine(rows[i])
  {
    assert rows[..i + 1][..i] == rows[..i];
  }

  /** A row line holds two characters per cell and four of border. */
  lemma RowLineLength(row: seq<bool>)
    ensures |RowLine(row)| == 2 * |row| + 4
  {
    if row != [] {
      CellGlyphsAt(row, 0);
    }
  }

  /** Where line k of the rows' text starts: after k lines of 2 * width + 4 characters. */
  function LineStart(width: int, k: nat): int {
    if k == 0 then 0 else LineStart(width, k - 1) + 2 * width + 4
  }

  /** Line k starts at k * (2 * width + 4). */
  lemma {:induction false} LineStartProduct(width: int, k: nat)
    ensures LineStart(width, k) == k * (2 * width + 4)
  {
    if k > 0 {
      LineStartProduct(width, k - 1);
    }
  }

  /** The rows' text is as long as the first line start past the last row. */
  lemma {:induction false} RenderRowsLength(rows: seq<seq<bool>>, width: nat)
    requires forall r :: 0 <= r < |rows| ==> |rows[r]| == width
    ensures |RenderRows(rows)| == LineStart(width, |rows|)
  {
    if rows != [] {
      var front, last := rows[..|rows| - 1], rows[|rows| - 1];
      assert forall r :: 0 <= r < |front| ==> front[r] == rows[r];
      RenderRowsLength(front, width);
      RowLineLength(last);
      assert RenderRows(rows) == RenderRows(front) + RowLine(last);
    }
  }

  /** The rows' text is the text of the rows before k, the line of row k and the text of the rows after k. */
  lemma {:induction false} RenderRowsSplit(rows: seq<seq<bool>>, k: int)
    requires 0 <= k < |rows|
    ensures RenderRows(rows) == RenderRows(rows[..k]) + RowLine(rows[k]) + RenderRows(rows[k + 1..])
  {
    var n := |rows|;
    var front, last := rows[..n - 1], rows[n - 1];
    if k == n - 1 {
      assert rows[k + 1..] == [];
    } else {
      var tail := rows[k + 1..];
      RenderRowsSplit(front, k);
      assert front[..k] == rows[..k];
      assert tail[..|tail| - 1] == front[k + 1..];
      assert RenderRows(tail) == RenderRows(front[k + 1..]) + RowLine(last);
      AppendAssoc(RenderRows(rows[..k]) + RowLine(rows[k]), RenderRows(front[k + 1..]), RowLine(last));
    }
  }

  lemma SeparatorLength(width: nat)
    ensures |Separator(width)| == width + 3
  {
  }

  lemma MiddleSlice<T>(a: seq<T>, b: seq<T>, c: seq<T>)
    ensures (a + b + c)[|a|..|a| + |b|] == b
  {
  }

  /** The picture starts and ends with the border line, around a body of one line per row. */
  lemma RenderBorders(g: seq<seq<bool>>, height: int, width: int)
    requires Shaped(g, height, width)
    ensures |Render(g, width)| == 2 * (width + 3) + LineStart(width, height)
    ensures Render(g, width)[..width + 3] == Separator(width)
    ensures Render(g, width)[|Render(g, width)| - (width + 3)..] == Separator(width)
  {
    var sep, body := Separator(width), RenderRows(g);
    SeparatorLength(width);
    RenderRowsLength(g, width);
    AppendAssoc(sep, body, sep);
    assert (sep + (body + sep))[..|sep|] == sep;
    assert ((sep + body) + sep)[|sep + body|..] == sep;
  }

  /** Line r of the picture's body draws row r. */
  lemma RenderLine(g: seq<seq<bool>>, height: int, width: int, r: int)
    requires Shaped(g, height, width)
    requires 0 <= r < height
    ensures 0 <= LineStart(width, r) && LineStart(width, r + 1) <= LineStart(width, height)
    ensures width + 3 + LineStart(width, r + 1) <= |Render(g, width)|
    ensures Render(g, width)[width + 3 + LineStart(width, r) .. width + 3 + LineStart(width, r + 1)] == RowLine(g[r])
  {
    var sep := Separator(width);
    SeparatorLength(width);
    RenderRowsLength(g, width);
    RenderRowsSplit(g, r);
    RenderRowsLength(g[..r], width);
    RowLineLength(g[r]);
    var before, line, after := RenderRows(g[..r]), RowLine(g[r]), RenderRows(g[r + 1..]);
    AppendAssoc(sep, before + line, after);
    AppendAssoc(sep, before, line);
    AppendAssoc((sep + before) + line, after, sep);
    assert Render(g, width) == (sep + before) + line + (after + sep);
    MiddleSlice(sep + before, line, after + sep);
  }

  /** Where print_grid draws cell (r, c): past the border line, the lines of rows 0 .. r - 1, "| " and c glyphs. */
  function CellPos(width: int, r: nat, c: int): int {
    width + 3 + LineStart(width, r) + 2 + 2 * c
  }

  /** Cell c of a row is drawn two characters past the start of the row's line. */
  lemma RowLineAt(row: seq<bool>, c: int)
    requires 0 <= c < |row|
    ensures 2 + 2 * c < |RowLine(row)| == 2 * |row| + 4
    ensures RowLine(row)[2 + 2 * c] == (if row[c] then '*' else ' ')
  {
    CellGlyphsAt(row, c);
  }

  /** Cell (r, c) is drawn as '*' when live and ' ' when dead, at a position fixed by r and c alone. */
  lemma RenderCell(g: seq<seq<bool>>, height: int, width: int, r: int, c: int)
    requires Shaped(g, height, width)
    requires 0 <= r < height && 0 <= c < width
    ensures 0 <= CellPos(width, r, c) < |Render(g, width)|
    ensures Render(g, width)[CellPos(width, r, c)] == (if g[r][c] then '*' else ' ')
  {
    var pic := Render(g, width);
    var start, end := width + 3 + LineStart(width, r), width + 3 + LineStart(width, r + 1);
    RenderLine(g, height, width, r);
    RowLineAt(g[r], c);
    assert pic[start..end][2 + 2 * c] == pic[CellPos(width, r, c)];
  }

  /** The picture determines the board: two boards of the same shape with the same picture are equal. */
  lemma RenderDeterminesBoard(g1: seq<seq<bool>>, g2: seq<seq<bool>>, height: int, width: int)
    requires Shaped(g1, height, width) && Shaped(g2, height, width)
    requires Render(g1, width) == Render(g2, width)
    ensures g1 == g2
  {
    forall r | 0 <= r < height
      ensures g1[r] == g2[r]
    {
      forall c | 0 <= c < width
        ensures g1[r][c] == g2[r][c]
      {
        RenderCell(g1, height, width, r, c);
        RenderCell(g2, height, width, r, c);
      }
    }
  }

  /** The picture of a one-row board with a live and a dead cell. */
  lemma RenderExample()
    ensures Render([[true, false]], 2) == " ＿＿＿\n| *   |\n ＿＿＿\n"
  {
    var bar := Repeat('＿', 3);
    assert bar == "＿＿＿";
    var sep := Separator(2);
    assert sep == " ＿＿＿\n";
    var glyphs := CellGlyphs([true, false]);
    assert glyphs == "*   " by {
      assert [true, false][..1] == [true];
      assert [true][..0] == [];
    }
    var body := RenderRows([[true, false]]);
    assert body == "| *   |\n" by {
      assert [[true, false]][..0] == [];
    }
  }
}
