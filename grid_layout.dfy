/** The thirteen-line shape both SimpleSudoku renderings share: a border line, three
    rows, a separator line, three rows, a separator line, three rows, a border line. */
module GridLayout {

  /** Line `l` shows a row of the puzzle unless it is one of lines 0, 4, 8 and 12. */
  predicate IsRowLine(l: nat)
  {
    0 < l < 12 && l != 4 && l != 8
  }

  /** Which row of the puzzle row line `l` shows. */
  function RowOfLine(l: nat): (row: nat)
    requires IsRowLine(l)
    ensures row < 9
  {
    if l < 4 then l - 1 else if l < 8 then l - 2 else l - 3
  }

  /** Row `row` of the puzzle is shown on line `row + 1 + row / 3`. */
  lemma LineOfRow(row: nat)
    requires row < 9
    ensures var l := row + 1 + row / 3;
      IsRowLine(l) && RowOfLine(l) == row
  {
    assert row / 3 == if row < 3 then 0 else if row < 6 then 1 else 2;
  }
}
