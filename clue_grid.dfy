/** The SimpleSudoku rendering of a clue string: `SudokuUtil.getSSFormatted` and its
    helper `writeSSLine`. The line separator (the `line.separator` system property in
    the program) is the parameter `nl`. */
module ClueGrid {
  import opened Outcomes
  import opened Text
  import opened GridLayout

  const OuterBorder := " *-----------*"
  const InnerBorder := " |---+---+---|"

  /** Width of every line before its separator. */
  const LineWidth := 14

  /** How `values.replace('0', '.')` renders one character. */
  function ClueChar(c: char): char
  {
    if c == '0' then '.' else c
  }

  /** `values.replace('0', '.')`: every '0' becomes '.', every other character stays. */
  function ReplaceZeros(s: string): (r: string)
    ensures |r| == |s|
    ensures forall i :: 0 <= i < |s| ==> r[i] == (if s[i] == '0' then '.' else s[i])
    ensures '0' !in r
  {
    if s == "" then "" else [ClueChar(s[0])] + ReplaceZeros(s[1..])
  }

  /** `writeSSLine(tmp, clues, start)`: the row of clues `start` to `start + 8`. */
  function SSLine(clues: string, start: nat, nl: string): string
    requires start + 9 <= |clues|
  {
    " |" + clues[start..start + 3] + "|" + clues[start + 3..start + 6] + "|"
    + clues[start + 6..start + 9] + "|" + nl
  }

  /** Line `l` of the rendering: the outer border first and last, the inner border at
      4 and 8, and row `RowOfLine(l)` on every other line. */
  function SSLineAt(clues: string, nl: string, l: nat): string
    requires |clues| >= 81 && l < 13
  {
    if IsRowLine(l) then SSLine(clues, 9 * RowOfLine(l), nl)
    else if l == 0 || l == 12 then OuterBorder + nl
    else InnerBorder + nl
  }

  /** The thirteen lines `getSSFormatted` appends, in order. */
  function SSLines(clues: string, nl: string): (lines: seq<string>)
    requires |clues| >= 81
    ensures |lines| == 13
  {
    seq(13, l requires 0 <= l < 13 => SSLineAt(clues, nl, l))
  }

  /** `getSSFormatted(values)`. The code does not check that the clues are digits; a
      string shorter than 81 characters makes a `substring` call throw. */
  function SSFormatted(values: string, nl: string): (r: Result<string>)
    ensures r.Err? <==> |values| < 81
    ensures r.Err? ==> r.error == IndexOutOfBounds
    ensures r.Ok? ==> |r.value| == 13 * (LineWidth + |nl|)
  {
    if |values| < 81 then Err(IndexOutOfBounds)
    else
      var lines := SSLines(ReplaceZeros(values), nl);
      SSLinesWidth(ReplaceZeros(values), nl);
      ConcatLength(lines, LineWidth + |nl|);
      Ok(Concat(lines))
  }

  /** The positions of a row line that hold a bar. */
  predicate IsBarColumn(p: nat)
  {
    p == 1 || p == 5 || p == 9 || p == 13
  }

  /** Which of the nine cells of a row the position `p` of a row line shows. */
  function CellOfColumn(p: nat): nat
    requires 2 <= p < LineWidth && !IsBarColumn(p)
  {
    if p < 5 then p - 2 else if p < 9 then p - 3 else p - 4
  }

  /** Character `p` of the line showing row `row` of `values`: a space, then bars around
      three groups of three clues. */
  function RowChar(values: string, row: nat, p: nat): char
    requires |values| >= 81 && row < 9 && p < LineWidth
  {
    if p == 0 then ' '
    else if IsBarColumn(p) then '|'
    else ClueChar(values[9 * row + CellOfColumn(p)])
  }

  /** Character `p` of line `l` of the rendering of `values`, the separator excluded. */
  function LayoutChar(values: string, l: nat, p: nat): char
    requires |values| >= 81 && l < 13 && p < LineWidth
  {
    if l == 0 || l == 12 then OuterBorder[p]
    else if l == 4 || l == 8 then InnerBorder[p]
    else RowChar(values, RowOfLine(l), p)
  }

  lemma SSLinesWidth(clues: string, nl: string)
    requires |clues| >= 81
    ensures forall j :: 0 <= j < 13 ==> |SSLines(clues, nl)[j]| == LineWidth + |nl|
  {
  }

  /** Character by character, a row line holds a space, then bars around three groups of
      three clues, then the separator. */
  lemma SSLineChars(clues: string, start: nat, nl: string)
    requires start + 9 <= |clues|
    ensures |SSLine(clues, start, nl)| == LineWidth + |nl|
    ensures SSLine(clues, start, nl)[LineWidth..] == nl
    ensures forall p :: 0 <= p < LineWidth ==>
      SSLine(clues, start, nl)[p] ==
        if p == 0 then ' ' else if IsBarColumn(p) then '|' else clues[start + CellOfColumn(p)]
  {
    var g1, g2, g3 := clues[start..start + 3], clues[start + 3..start + 6], clues[start + 6..start + 9];
    var line := SSLine(clues, start, nl);
    assert line == " |" + g1 + "|" + g2 + "|" + g3 + "|" + nl;
    forall p | 0 <= p < LineWidth
      ensures line[p] ==
        if p == 0 then ' ' else if IsBarColumn(p) then '|' else clues[start + CellOfColumn(p)]
    {
      if p < 2 {
      } else if p < 5 {
        assert line[p] == g1[p - 2];
      } else if p == 5 {
      } else if p < 9 {
        assert line[p] == g2[p - 6];
      } else if p == 9 {
      } else if p < 13 {
        assert line[p] == g3[p - 10];
      }
    }
  }

  /** The line of row `row` shows that row's clues with '0' rendered as '.'. */
  lemma RowLayout(values: string, row: nat, nl: string)
    requires |values| >= 81 && row < 9
    ensures var line := SSLine(ReplaceZeros(values), 9 * row, nl);
      |line| == LineWidth + |nl| && line[LineWidth..] == nl
      && forall p :: 0 <= p < LineWidth ==> line[p] == RowChar(values, row, p)
  {
    var clues := ReplaceZeros(values);
    SSLineChars(clues, 9 * row, nl);
    forall p | 2 <= p < LineWidth && !IsBarColumn(p)
      ensures clues[9 * row + CellOfColumn(p)] == ClueChar(values[9 * row + CellOfColumn(p)])
    {
    }
  }

  /** Line `l` of the thirteen, character by character. */
  lemma SSLineLayout(values: string, nl: string, l: nat)
    requires |values| >= 81 && l < 13
    ensures var line := SSLines(ReplaceZeros(values), nl)[l];
      |line| == LineWidth + |nl| && line[LineWidth..] == nl
      && forall p :: 0 <= p < LineWidth ==> line[p] == LayoutChar(values, l, p)
  {
    var clues := ReplaceZeros(values);
    if IsRowLine(l) {
      RowLayout(values, RowOfLine(l), nl);
    } else {
      var border := if l == 0 || l == 12 then OuterBorder else InnerBorder;
      assert SSLines(clues, nl)[l] == border + nl;
      assert forall p :: 0 <= p < LineWidth ==> LayoutChar(values, l, p) == border[p];
    }
  }

  /** The rendering is thirteen lines of equal width: the outer border, three rows, the
      inner border, three rows, the inner border, three rows, the outer border, each
      followed by the separator. Line `l`, character by character, is `LayoutChar`. */
  lemma SSFormattedLine(values: string, nl: string, l: nat)
    requires |values| >= 81 && l < 13
    ensures SSFormatted(values, nl).Ok?
    ensures var out, w := SSFormatted(values, nl).value, LineWidth + |nl|;
      l * w + w <= |out|
      && out[l * w + LineWidth .. l * w + w] == nl
      && forall p :: 0 <= p < LineWidth ==> out[l * w + p] == LayoutChar(values, l, p)
  {
    var lines := SSLines(ReplaceZeros(values), nl);
    var w := LineWidth + |nl|;
    SSLinesWidth(ReplaceZeros(values), nl);
    SSLineLayout(values, nl, l);
    ConcatAt(lines, w, l);
    PlaceLine(Concat(lines), l * w, lines[l], nl);
  }

  /** A line found at offset `base` of the output places its characters there. */
  lemma PlaceLine(out: string, base: nat, line: string, nl: string)
    requires |line| == LineWidth + |nl| && line[LineWidth..] == nl
    requires base + |line| <= |out| && out[base..base + |line|] == line
    ensures out[base + LineWidth .. base + |line|] == nl
    ensures forall p :: 0 <= p < LineWidth ==> out[base + p] == line[p]
  {
    SliceChars(out, base, line);
    assert forall k :: 0 <= k < |nl| ==> out[base + LineWidth + k] == nl[k] by {
      SliceChars(line, LineWidth, nl);
      forall k | 0 <= k < |nl| ensures out[base + LineWidth + k] == nl[k] {
        assert out[base + (LineWidth + k)] == line[LineWidth + k];
      }
    }
    CharsSlice(out, base + LineWidth, nl);
  }

  /** Cell `col` of a row is shown at position `2 + col + col / 3`. */
  lemma ColumnOfCell(col: nat)
    requires col < 9
    ensures var p := 2 + col + col / 3;
      2 <= p < LineWidth && !IsBarColumn(p) && CellOfColumn(p) == col
  {
    assert col / 3 == if col < 3 then 0 else if col < 6 then 1 else 2;
  }

  /** The clue of row `row`, column `col` sits at column `2 + col + col / 3` of line
      `row + 1 + row / 3`, '0' rendered as '.' and every other character verbatim. */
  lemma SSFormattedCell(values: string, nl: string, row: nat, col: nat)
    requires |values| >= 81 && row < 9 && col < 9
    ensures SSFormatted(values, nl).Ok?
    ensures var out, w := SSFormatted(values, nl).value, LineWidth + |nl|;
      var l, p := row + 1 + row / 3, 2 + col + col / 3;
      l * w + p < |out|
      && out[l * w + p] == if values[9 * row + col] == '0' then '.' else values[9 * row + col]
  {
    var l, p := row + 1 + row / 3, 2 + col + col / 3;
    LineOfRow(row);
    ColumnOfCell(col);
    SSFormattedLine(values, nl, l);
    LayoutCellChar(values, l, p);
  }

  lemma LayoutCellChar(values: string, l: nat, p: nat)
    requires |values| >= 81 && IsRowLine(l) && 2 <= p < LineWidth && !IsBarColumn(p)
    ensures LayoutChar(values, l, p) == ClueChar(values[9 * RowOfLine(l) + CellOfColumn(p)])
  {
  }

  /** Only the first 81 characters matter: what follows never reaches the output. */
  lemma SSFormattedIgnoresTail(values: string, nl: string)
    requires |values| >= 81
    ensures SSFormatted(values, nl) == SSFormatted(values[..81], nl)
  {
    var all, head := ReplaceZeros(values), ReplaceZeros(values[..81]);
    assert forall k :: 0 <= k < 81 ==> all[k] == head[k];
    forall l | 0 <= l < 13 && IsRowLine(l)
      ensures SSLine(all, 9 * RowOfLine(l), nl) == SSLine(head, 9 * RowOfLine(l), nl)
    {
      var start := 9 * RowOfLine(l);
      assert all[start..start + 3] == head[start..start + 3];
      assert all[start + 3..start + 6] == head[start + 3..start + 6];
      assert all[start + 6..start + 9] == head[start + 6..start + 9];
    }
    assert SSLines(all, nl) == SSLines(head, nl);
  }
}
