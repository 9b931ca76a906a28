/** The SimpleSudoku rendering of a pencil-mark grid: `SudokuUtil.getSSPMGrid` and its
    helpers `writeSSPMFrameLine` and `writeSSPMLine`. The input is split at single spaces;
    every field that starts with a digit is the candidate list of the next cell. All
    cells are padded to the longest list and laid out in thirteen lines. The line
    separator is the parameter `nl`. */
module PmGrid {
  import opened Outcomes
  import opened Text
  import opened GridLayout

  /** A field that fills a cell: it is not empty and starts with a digit. */
  predicate IsCandidateToken(p: string)
  {
    p != "" && IsDigit(p[0])
  }

  /** The fields that fill cells, in their order. */
  function Kept(parts: seq<string>): seq<string>
  {
    if parts == [] then []
    else
      var init, last := parts[..|parts| - 1], parts[|parts| - 1];
      if IsCandidateToken(last) then Kept(init) + [last] else Kept(init)
  }

  /** Only fields that fill a cell are kept, so there are no more of them than fields. */
  lemma {:induction false} KeptCandidates(parts: seq<string>)
    ensures |Kept(parts)| <= |parts|
    ensures forall k :: 0 <= k < |Kept(parts)| ==> IsCandidateToken(Kept(parts)[k])
  {
    if parts != [] {
      KeptCandidates(parts[..|parts| - 1]);
    }
  }

  /** Exactly the fields that fill a cell are kept. */
  lemma {:induction false} KeptMembers(parts: seq<string>)
    ensures forall p :: p in Kept(parts) <==> p in parts && IsCandidateToken(p)
  {
    if parts != [] {
      var init, last := parts[..|parts| - 1], parts[|parts| - 1];
      assert parts == init + [last];
      KeptMembers(init);
    }
  }

  /** The candidate lists of `grid`, in the order `getSSPMGrid` stores them. */
  function Tokens(grid: string): seq<string>
  {
    Kept(JavaSplit(grid))
  }

  /** The length of the longest list; 0 when there is none. */
  function MaxLength(toks: seq<string>): nat
  {
    if toks == [] then 0
    else
      var m := MaxLength(toks[..|toks| - 1]);
      var last := |toks[|toks| - 1]|;
      if last > m then last else m
  }

  /** `MaxLength` is the length of a longest list: no list is longer, and some list has
      that length unless there is none. */
  lemma {:induction false} MaxLengthIsMax(toks: seq<string>)
    ensures forall k :: 0 <= k < |toks| ==> |toks[k]| <= MaxLength(toks)
    ensures toks == [] ==> MaxLength(toks) == 0
    ensures toks != [] ==> exists k :: 0 <= k < |toks| && |toks[k]| == MaxLength(toks)
  {
    if toks != [] {
      var init, last := toks[..|toks| - 1], toks[|toks| - 1];
      MaxLengthIsMax(init);
      assert forall k :: 0 <= k < |init| ==> toks[k] == init[k];
      if init == [] || |last| > MaxLength(init) {
        assert |toks[|toks| - 1]| == MaxLength(toks);
      } else {
        var k :| 0 <= k < |init| && |init[k]| == MaxLength(init);
        assert toks[k] == init[k];
      }
    }
  }

  /** A cell padded with spaces to `width`: unchanged when it is already that long. */
  function Pad(cell: string, width: nat): (r: string)
    ensures |r| == if |cell| < width then width else |cell|
    ensures r[..|cell|] == cell
    ensures forall k :: |cell| <= k < |r| ==> r[k] == ' '
  {
    if |cell| < width then cell + Spaces(width - |cell|) else cell
  }

  function PadAll(cells: seq<string>, width: nat): seq<string>
  {
    seq(|cells|, k requires 0 <= k < |cells| => Pad(cells[k], width))
  }

  /** `writeSSPMFrameLine(tmp, m, outer)`: three runs of `3m + 7` dashes between a
      leading " *", two joints and a final corner; the joints and the corner are
      "-", "-", "*" for the outer border and "+", "+", "|" for a separator line. */
  function FrameLine(m: nat, outer: bool, nl: string): string
  {
    var run := Repeat('-', 3 * m + 7);
    var joint := if outer then "-" else "+";
    " *" + run + joint + run + joint + run + (if outer then "*" else "|") + nl
  }

  /** `writeSSPMLine(tmp, cells, index)`: cells `index` to `index + 8` in three groups,
      a bar and a space before each group, two spaces after each cell and a bar closing
      the line. */
  function PMLine(cells: seq<string>, index: nat, nl: string): string
    requires index + 9 <= |cells|
  {
    " | " + Group(cells[index], cells[index + 1], cells[index + 2])
    + "  | " + Group(cells[index + 3], cells[index + 4], cells[index + 5])
    + "  | " + Group(cells[index + 6], cells[index + 7], cells[index + 8])
    + "  |" + nl
  }

  /** Three cells of a group, two spaces apart. */
  function Group(a: string, b: string, c: string): string
  {
    a + "  " + b + "  " + c
  }

  /** Line `l` of the grid: the outer border first and last, separator lines at 4 and 8,
      and row `RowOfLine(l)` on every other line. */
  function LineAt(cells: seq<string>, m: nat, nl: string, l: nat): string
    requires |cells| == 81 && l < 13
  {
    if IsRowLine(l) then PMLine(cells, 9 * RowOfLine(l), nl)
    else FrameLine(m, l == 0 || l == 12, nl)
  }

  /** The thirteen lines of the grid, in order. */
  function PMLines(cells: seq<string>, m: nat, nl: string): (lines: seq<string>)
    requires |cells| == 81
    ensures |lines| == 13
  {
    seq(13, l requires 0 <= l < 13 => LineAt(cells, m, nl, l))
  }

  /** Width of every line of a grid whose cells are `m` wide, the separator included. */
  function PMWidth(m: nat, nl: string): nat
  {
    9 * m + 26 + |nl|
  }

  /** `getSSPMGrid(grid)`. More than 81 lists overrun the cell array; fewer leave a cell
      null, and padding it throws. */
  function PMGrid(grid: string, nl: string): (r: Result<string>)
    ensures r.Err? <==> |Tokens(grid)| != 81
    ensures r.Err? ==> r.error == (if |Tokens(grid)| > 81 then IndexOutOfBounds else NullPointer)
    ensures r.Ok? ==> |r.value| == 13 * PMWidth(MaxLength(Tokens(grid)), nl)
  {
    var toks := Tokens(grid);
    if |toks| > 81 then Err(IndexOutOfBounds)
    else if |toks| < 81 then Err(NullPointer)
    else
      var m := MaxLength(toks);
      var lines := PMLines(PadAll(toks, m), m, nl);
      MaxLengthIsMax(toks);
      PMLinesWidth(toks, m, nl);
      ConcatLength(lines, PMWidth(m, nl));
      Ok(Concat(lines))
  }

  /** The cell array once the lists `kept` are stored: the first `|kept|` cells hold
      them in order, the others are still null. */
  function Stored(kept: seq<string>): (cells: seq<Option<string>>)
    requires |kept| <= 81
    ensures |cells| == 81
  {
    seq(81, k requires 0 <= k < 81 => if k < |kept| then Some(kept[k]) else None)
  }

  /** The stored values of an array of cells none of which is null. */
  function Present(cells: seq<Option<string>>): (r: seq<string>)
    requires forall k :: 0 <= k < |cells| ==> cells[k].Some?
    ensures |r| == |cells| && forall k :: 0 <= k < |cells| ==> cells[k] == Some(r[k])
  {
    seq(|cells|, k requires 0 <= k < |cells| => cells[k].value)
  }

  /** `writeSSPMFrameLine`, with its three loops appending dashes. */
  method WriteSSPMFrameLine(maxLength: nat, outer: bool, nl: string) returns (line: string)
    ensures line == FrameLine(maxLength, outer, nl)
  {
    var run := 3 * maxLength + 7;
    var joint := if outer then "-" else "+";
    line := " *";
    var i := 0;
    while i < run
      invariant 0 <= i <= run
      invariant line == " *" + Repeat('-', i)
    {
      RepeatSnoc('-', i);
      line := line + "-";
      i := i + 1;
    }
    line := line + joint;
    i := 0;
    while i < run
      invariant 0 <= i <= run
      invariant line == " *" + Repeat('-', run) + joint + Repeat('-', i)
    {
      RepeatSnoc('-', i);
      line := line + "-";
      i := i + 1;
    }
    line := line + joint;
    i := 0;
    while i < run
      invariant 0 <= i <= run
      invariant line == " *" + Repeat('-', run) + joint + Repeat('-', run) + joint + Repeat('-', i)
    {
      RepeatSnoc('-', i);
      line := line + "-";
      i := i + 1;
    }
    line := line + (if outer then "*" else "|");
    line := line + nl;
  }

  /** `getSSPMGrid`: the lists are stored in an 81-cell array, padded in place, and the
      thirteen lines are appended. */
  method SSPMGrid(grid: string, nl: string) returns (r: Result<string>)
    ensures r == PMGrid(grid, nl)
  {
    var parts := JavaSplit(grid);
    var cells, count, maxLength, overrun := StoreCells(parts);
    if overrun {
      return Err(IndexOutOfBounds);
    }
    var complete := PadCells(cells, count, maxLength, Kept(parts));
    if !complete {
      return Err(NullPointer);
    }
    var padded := Present(cells[..]);
    assert padded == PadAll(Kept(parts), maxLength);
    var tmp := BuildPMGrid(padded, maxLength, nl);
    r := Ok(tmp);
  }

  /** The loop at the start of `getSSPMGrid`: each field that starts with a digit goes to
      the next free cell, and the longest length is tracked. Storing an 82nd list throws;
      `overrun` reports that. */
  method StoreCells(parts: seq<string>)
    returns (cells: array<Option<string>>, count: nat, maxLength: nat, overrun: bool)
    ensures fresh(cells) && cells.Length == 81
    ensures overrun <==> |Kept(parts)| > 81
    ensures !overrun ==> count == |Kept(parts)| && maxLength == MaxLength(Kept(parts))
    ensures !overrun ==> cells[..] == Stored(Kept(parts))
  {
    cells := new Option<string>[81](_ => None);
    maxLength := 0;
    overrun := false;
    var i, j := 0, 0;
    ghost var kept: seq<string> := [];
    while i < |parts|
      invariant 0 <= i <= |parts|
      invariant kept == Kept(parts[..i])
      invariant j == |kept| <= 81
      invariant cells[..] == Stored(kept)
      invariant maxLength == MaxLength(kept)
    {
      if parts[i] != "" && IsDigit(parts[i][0]) {
        if j == 81 {
          OverrunStep(parts, i, kept);
          overrun := true;
          count := j;
          return;
        }
        StoreStep(parts, i, kept);
        cells[j] := Some(parts[i]);
        j := j + 1;
        if |parts[i]| > maxLength {
          maxLength := |parts[i]|;
        }
        kept := kept + [parts[i]];
      } else {
        KeptStep(parts, i);
      }
      i := i + 1;
    }
    assert parts[..i] == parts;
    count := j;
  }

  /** The loop padding every cell in place with spaces to `maxLength`. A cell still null
      throws when its length is asked for; `complete` is false then. */
  method PadCells(cells: array<Option<string>>, count: nat, maxLength: nat, ghost toks: seq<string>)
    returns (complete: bool)
    requires cells.Length == 81 && count == |toks| <= 81
    requires cells[..] == Stored(toks)
    modifies cells
    ensures complete <==> count == 81
    ensures complete ==> forall k :: 0 <= k < 81 ==> cells[k] == Some(Pad(toks[k], maxLength))
  {
    var i := 0;
    assert forall k :: 0 <= k < 81 ==> cells[k] == Stored(toks)[k];
    while i < 81
      invariant 0 <= i <= 81 && i <= count
      invariant forall k :: 0 <= k < i ==> cells[k] == Some(Pad(toks[k], maxLength))
      invariant forall k :: i <= k < count ==> cells[k] == Some(toks[k])
      invariant forall k :: count <= k < 81 ==> cells[k] == None
    {
      if cells[i] == None {
        return false;
      }
      if |cells[i].value| < maxLength {
        var anz := maxLength - |cells[i].value|;
        var k := 0;
        assert toks[i] + Spaces(0) == toks[i];
        while k < anz
          invariant 0 <= k <= anz
          invariant cells[i] == Some(toks[i] + Spaces(k))
          invariant forall q :: 0 <= q < i ==> cells[q] == Some(Pad(toks[q], maxLength))
          invariant forall q :: i < q < count ==> cells[q] == Some(toks[q])
          invariant forall q :: count <= q < 81 ==> cells[q] == None
        {
          RepeatSnoc(' ', k);
          assert toks[i] + Spaces(k) + " " == toks[i] + Spaces(k + 1);
          cells[i] := Some(cells[i].value + " ");
          k := k + 1;
        }
      }
      i := i + 1;
    }
    return true;
  }

  /** The thirteen appends at the end of `getSSPMGrid`. */
  method BuildPMGrid(cells: seq<string>, maxLength: nat, nl: string) returns (tmp: string)
    requires |cells| == 81
    ensures tmp == Concat(PMLines(cells, maxLength, nl))
  {
    ghost var lines := PMLines(cells, maxLength, nl);
    tmp := "";
    var line: string;
    line := WriteSSPMFrameLine(maxLength, true, nl);
    assert line == lines[0];
    tmp := tmp + line;
    line := PMLine(cells, 0, nl);
    assert line == lines[1];
    tmp := tmp + line;
    line := PMLine(cells, 9, nl);
    assert line == lines[2];
    tmp := tmp + line;
    line := PMLine(cells, 18, nl);
    assert line == lines[3];
    tmp := tmp + line;
    line := WriteSSPMFrameLine(maxLength, false, nl);
    assert line == lines[4];
    tmp := tmp + line;
    line := PMLine(cells, 27, nl);
    assert line == lines[5];
    tmp := tmp + line;
    line := PMLine(cells, 36, nl);
    assert line == lines[6];
    tmp := tmp + line;
    line := PMLine(cells, 45, nl);
    assert line == lines[7];
    tmp := tmp + line;
    line := WriteSSPMFrameLine(maxLength, false, nl);
    assert line == lines[8];
    tmp := tmp + line;
    line := PMLine(cells, 54, nl);
    assert line == lines[9];
    tmp := tmp + line;
    line := PMLine(cells, 63, nl);
    assert line == lines[10];
    tmp := tmp + line;
    line := PMLine(cells, 72, nl);
    assert line == lines[11];
    tmp := tmp + line;
    line := WriteSSPMFrameLine(maxLength, true, nl);
    assert line == lines[12];
    tmp := tmp + line;
    ConcatThirteen(lines);
  }

  /** Storing list `parts[i]` in the next cell keeps the loop's account of the stored
      lists, the array and the longest length. */
  lemma StoreStep(parts: seq<string>, i: nat, kept: seq<string>)
    requires i < |parts| && IsCandidateToken(parts[i])
    requires kept == Kept(parts[..i]) && |kept| < 81
    ensures kept + [parts[i]] == Kept(parts[..i + 1])
    ensures Stored(kept)[|kept| := Some(parts[i])] == Stored(kept + [parts[i]])
    ensures MaxLength(kept + [parts[i]]) ==
      if |parts[i]| > MaxLength(kept) then |parts[i]| else MaxLength(kept)
  {
    KeptStep(parts, i);
    StoredSnoc(kept, parts[i]);
    MaxLengthSnoc(kept, parts[i]);
  }

  /** An 82nd list means more than 81 lists in all. */
  lemma OverrunStep(parts: seq<string>, i: nat, kept: seq<string>)
    requires i < |parts| && IsCandidateToken(parts[i])
    requires kept == Kept(parts[..i]) && |kept| == 81
    ensures |Kept(parts)| > 81
  {
    KeptStep(parts, i);
    KeptPrefix(parts, i + 1);
  }

  /** One more field extends the kept ones by that field exactly when it fills a cell. */
  lemma KeptStep(parts: seq<string>, i: nat)
    requires i < |parts|
    ensures Kept(parts[..i + 1]) ==
      Kept(parts[..i]) + (if IsCandidateToken(parts[i]) then [parts[i]] else [])
  {
    assert parts[..i + 1][..i] == parts[..i];
  }

  /** Storing one more list fills the next null cell. */
  lemma StoredSnoc(kept: seq<string>, next: string)
    requires |kept| < 81
    ensures Stored(kept)[|kept| := Some(next)] == Stored(kept + [next])
  {
  }

  /** One more list raises the maximum to its length when it is longer. */
  lemma MaxLengthSnoc(toks: seq<string>, last: string)
    ensures MaxLength(toks + [last]) ==
      if |last| > MaxLength(toks) then |last| else MaxLength(toks)
  {
    assert (toks + [last])[..|toks|] == toks;
  }

  /** The fields kept from a prefix are no more than those kept from the whole. */
  lemma KeptPrefix(parts: seq<string>, i: nat)
    requires i <= |parts|
    ensures |Kept(parts[..i])| <= |Kept(parts)|
  {
    KeptAppend(parts[..i], parts[i..]);
    assert parts[..i] + parts[i..] == parts;
  }

  /** Filtering distributes over concatenation. */
  lemma {:induction false} KeptAppend(a: seq<string>, b: seq<string>)
    ensures Kept(a + b) == Kept(a) + Kept(b)
  {
    if b == [] {
      assert a + b == a;
    } else {
      var init := b[..|b| - 1];
      assert (a + b)[..|a + b| - 1] == a + init;
      KeptAppend(a, init);
    }
  }

  /** Every line of the grid has the same width. */
  lemma PMLinesWidth(toks: seq<string>, m: nat, nl: string)
    requires |toks| == 81 && forall k :: 0 <= k < 81 ==> |toks[k]| <= m
    ensures forall l :: 0 <= l < 13 ==> |PMLines(PadAll(toks, m), m, nl)[l]| == PMWidth(m, nl)
  {
    var cells := PadAll(toks, m);
    assert forall k :: 0 <= k < 81 ==> |cells[k]| == m;
    forall l | 0 <= l < 13
      ensures |PMLines(cells, m, nl)[l]| == PMWidth(m, nl)
    {
      if IsRowLine(l) {
        PMLineWidth(cells, 9 * RowOfLine(l), nl, m);
      } else {
        FrameLineWidth(m, l == 0 || l == 12, nl);
      }
    }
  }


  lemma FrameLineWidth(m: nat, outer: bool, nl: string)
    ensures |FrameLine(m, outer, nl)| == PMWidth(m, nl)
  {
  }

  lemma PMLineWidth(cells: seq<string>, index: nat, nl: string, m: nat)
    requires index + 9 <= |cells|
    requires forall k :: index <= k < index + 9 ==> |cells[k]| == m
    ensures |PMLine(cells, index, nl)| == PMWidth(m, nl)
  {
  }

  /** The positions where a row line has its bars and a frame line its joints. */
  predicate IsJoint(m: nat, p: nat)
  {
    p == 1 || p == 3 * m + 9 || p == 6 * m + 17 || p == 9 * m + 25
  }

  /** A row line starts with a space, has a bar at each joint position and ends with the
      separator. */
  lemma PMLineJoints(cells: seq<string>, index: nat, nl: string, m: nat)
    requires index + 9 <= |cells|
    requires forall k :: index <= k < index + 9 ==> |cells[k]| == m
    ensures var line := PMLine(cells, index, nl);
      |line| == PMWidth(m, nl) && line[9 * m + 26..] == nl && line[0] == ' '
      && forall p :: 0 <= p < 9 * m + 26 && IsJoint(m, p) ==> line[p] == '|'
  {
    var line := PMLine(cells, index, nl);
    var g1 := cells[index] + "  " + cells[index + 1] + "  " + cells[index + 2];
    var g2 := cells[index + 3] + "  " + cells[index + 4] + "  " + cells[index + 5];
    var g3 := cells[index + 6] + "  " + cells[index + 7] + "  " + cells[index + 8];
    assert |g1| == 3 * m + 4 && |g2| == 3 * m + 4 && |g3| == 3 * m + 4;
    assert line == " | " + g1 + "  | " + g2 + "  | " + g3 + "  |" + nl;
    assert line == (" | " + g1 + "  | " + g2 + "  | " + g3 + "  |") + nl;
  }

  /** Character `p` of a frame line: " *", then dashes, with the two joints and the final
      corner set apart; the joints are dashes too on the outer border. */
  function FrameChar(m: nat, outer: bool, p: nat): char
  {
    if p == 0 then ' '
    else if p == 1 then '*'
    else if p == 3 * m + 9 || p == 6 * m + 17 then (if outer then '-' else '+')
    else if p == 9 * m + 25 then (if outer then '*' else '|')
    else '-'
  }

  lemma FrameLineChars(m: nat, outer: bool, nl: string)
    ensures var f := FrameLine(m, outer, nl);
      |f| == PMWidth(m, nl) && f[9 * m + 26..] == nl
      && forall p :: 0 <= p < 9 * m + 26 ==> f[p] == FrameChar(m, outer, p)
  {
    var f := FrameLine(m, outer, nl);
    var run := Repeat('-', 3 * m + 7);
    var joint := if outer then "-" else "+";
    var corner := if outer then "*" else "|";
    var body := " *" + run + joint + run + joint + run + corner;
    assert f == body + nl;
    forall p | 0 <= p < 9 * m + 26
      ensures f[p] == FrameChar(m, outer, p)
    {
      assert f[p] == body[p];
      if p < 2 {
      } else if p < 3 * m + 9 {
        assert body[p] == run[p - 2];
      } else if p == 3 * m + 9 {
      } else if p < 6 * m + 17 {
        assert body[p] == run[p - (3 * m + 10)];
      } else if p == 6 * m + 17 {
      } else if p < 9 * m + 25 {
        assert body[p] == run[p - (6 * m + 18)];
      }
    }
  }

  /** The bars of every row line stand under the joints of the separator lines, and under
      the corners of the outer border at both ends. */
  lemma JointsAlign(cells: seq<string>, index: nat, nl: string, m: nat, p: nat)
    requires index + 9 <= |cells|
    requires forall k :: index <= k < index + 9 ==> |cells[k]| == m
    requires IsJoint(m, p)
    ensures PMLine(cells, index, nl)[p] == '|'
    ensures FrameLine(m, false, nl)[p] in {'*', '+', '|'}
    ensures (p == 1 || p == 9 * m + 25) ==> FrameLine(m, true, nl)[p] == '*'
  {
    PMLineJoints(cells, index, nl, m);
    FrameLineChars(m, false, nl);
    FrameLineChars(m, true, nl);
  }
}
