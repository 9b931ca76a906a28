/** Reading a pencil-mark grid back: the SimpleSudoku grid `getSSPMGrid` writes splits
    into exactly the candidate lists it was built from, so formatting its own output
    again gives the same grid. */
module PmGridFields {
  import opened Outcomes
  import opened Text
  import opened GridLayout
  import opened PmGrid

  /** The fields of `s` that would fill cells. */
  function Fields(s: string): seq<string>
  {
    Kept(SplitAll(s))
  }

  /** `split(" ")` drops only empty fields, which never fill a cell, so the lists of a
      grid are its fields. */
  lemma TokensAreFields(grid: string)
    ensures Tokens(grid) == Fields(grid)
  {
    if ' ' !in grid {
      SplitAllNoSpace(grid);
    } else {
      var parts := SplitAll(grid);
      var r := DropTrailingEmpty(parts);
      assert parts == r + parts[|r|..];
      KeptAppend(r, parts[|r|..]);
      KeptNone(parts[|r|..]);
    }
  }

  /** No field of an all-empty list fills a cell. */
  lemma {:induction false} KeptNone(parts: seq<string>)
    requires forall k :: 0 <= k < |parts| ==> parts[k] == ""
    ensures Kept(parts) == []
  {
    if parts != [] {
      KeptNone(parts[..|parts| - 1]);
    }
  }

  /** A list of a grid contains no space. */
  lemma TokensNoSpace(grid: string)
    ensures forall k :: 0 <= k < |Tokens(grid)| ==> ' ' !in Tokens(grid)[k]
  {
    var parts := JavaSplit(grid);
    KeptMembers(parts);
    forall k | 0 <= k < |Tokens(grid)| ensures ' ' !in Tokens(grid)[k] {
      var t := Tokens(grid)[k];
      assert t in Kept(parts);
      var j :| 0 <= j < |parts| && parts[j] == t;
    }
  }

  lemma FieldsEmpty()
    ensures Fields("") == []
  {
    assert [""][..0] == [];
  }

  lemma FieldsSplit(x: string, y: string)
    ensures Fields(x + " " + y) == Fields(x) + Fields(y)
  {
    SplitAllAppend(x, y);
    KeptAppend(SplitAll(x), SplitAll(y));
  }

  /** Text that starts with a space adds its fields to those before it. */
  lemma FieldsLead(x: string, y: string)
    requires y != "" && y[0] == ' '
    ensures Fields(x + y) == Fields(x) + Fields(y)
  {
    var t := y[1..];
    assert x + y == x + " " + t;
    assert y == "" + " " + t;
    FieldsSplit(x, t);
    FieldsSplit("", t);
    FieldsEmpty();
  }

  lemma {:induction false} FieldsSpaces(n: nat, rest: string)
    ensures Fields(Spaces(n) + rest) == Fields(rest)
  {
    if n > 0 {
      assert Spaces(n) + rest == "" + " " + (Spaces(n - 1) + rest);
      FieldsSplit("", Spaces(n - 1) + rest);
      FieldsEmpty();
      FieldsSpaces(n - 1, rest);
    } else {
      assert Spaces(n) + rest == rest;
    }
  }

  /** A word without spaces is one field. */
  lemma FieldsWord(w: string)
    requires ' ' !in w
    ensures Fields(w) == if IsCandidateToken(w) then [w] else []
  {
    SplitAllNoSpace(w);
    assert [w][..0] == [];
  }

  /** The separators between cells add no field. */
  lemma FieldsGap(rest: string)
    ensures Fields("  " + rest) == Fields(rest)
  {
    assert Spaces(2) + rest == "  " + rest;
    FieldsSpaces(2, rest);
  }

  lemma FieldsBar(rest: string)
    ensures Fields(" | " + rest) == Fields(rest)
  {
    assert " | " + rest == "" + " " + ("|" + " " + rest);
    FieldsSplit("", "|" + " " + rest);
    FieldsSplit("|", rest);
    FieldsWord("|");
    FieldsEmpty();
  }

  lemma FieldsGapBar(rest: string)
    ensures Fields("  | " + rest) == Fields(rest)
  {
    assert "  | " + rest == "" + " " + (" | " + rest);
    FieldsSplit("", " | " + rest);
    FieldsEmpty();
    FieldsBar(rest);
  }

  /** A padded cell followed by a separator is the one field of its list. */
  lemma FieldsCell(tok: string, m: nat, sep: string, rest: string)
    requires IsCandidateToken(tok) && ' ' !in tok
    requires sep == "  " || sep == "  | " || sep == "  |"
    ensures Fields(Pad(tok, m) + (sep + rest)) == [tok] + Fields(sep + rest)
  {
    FieldsWord(tok);
    if |tok| < m {
      var s := Spaces(m - |tok|);
      assert Pad(tok, m) + (sep + rest) == tok + (s + (sep + rest));
      FieldsLead(tok, s + (sep + rest));
      FieldsSpaces(m - |tok|, sep + rest);
    } else {
      FieldsLead(tok, sep + rest);
    }
  }

  /** The lists `a`, `b`, `c` padded to `m` and grouped, then a separator. */
  lemma FieldsGroup(a: string, b: string, c: string, m: nat, sep: string, rest: string)
    requires IsCandidateToken(a) && ' ' !in a
    requires IsCandidateToken(b) && ' ' !in b
    requires IsCandidateToken(c) && ' ' !in c
    requires sep == "  | " || sep == "  |"
    ensures Fields(Group(Pad(a, m), Pad(b, m), Pad(c, m)) + (sep + rest)) == [a, b, c] + Fields(sep + rest)
  {
    var pa, pb, pc := Pad(a, m), Pad(b, m), Pad(c, m);
    var tail := pc + (sep + rest);
    var mid := pb + ("  " + tail);
    assert Group(pa, pb, pc) + (sep + rest) == pa + ("  " + mid);
    FieldsCell(c, m, sep, rest);
    FieldsGap(tail);
    FieldsCell(b, m, "  ", tail);
    FieldsGap(mid);
    FieldsCell(a, m, "  ", mid);
  }

  /** A row line is the nine lists it shows, in order. */
  lemma FieldsRow(toks: seq<string>, m: nat, index: nat, nl: string)
    requires index + 9 <= |toks| && ' ' !in nl
    requires forall k :: index <= k < index + 9 ==> IsCandidateToken(toks[k]) && ' ' !in toks[k]
    ensures Fields(PMLine(PadAll(toks, m), index, nl)) == toks[index..index + 9]
  {
    var cells := PadAll(toks, m);
    var g1 := Group(cells[index], cells[index + 1], cells[index + 2]);
    var g2 := Group(cells[index + 3], cells[index + 4], cells[index + 5]);
    var g3 := Group(cells[index + 6], cells[index + 7], cells[index + 8]);
    var s3 := "  |" + nl;
    var s2 := "  | " + (g3 + s3);
    var s1 := "  | " + (g2 + s2);
    PMLineShape(cells, index, nl);
    FieldsBar(g1 + s1);
    FieldsGroup(toks[index], toks[index + 1], toks[index + 2], m, "  | ", g2 + s2);
    FieldsGapBar(g2 + s2);
    FieldsGroup(toks[index + 3], toks[index + 4], toks[index + 5], m, "  | ", g3 + s3);
    FieldsGapBar(g3 + s3);
    FieldsGroup(toks[index + 6], toks[index + 7], toks[index + 8], m, "  |", nl);
    FieldsRowEnd(nl);
    var t := toks[index..index + 9];
    assert t == [t[0], t[1], t[2]] + [t[3], t[4], t[5]] + [t[6], t[7], t[8]];
  }

  /** A row line regrouped from the right, one group and separator at a time. */
  lemma PMLineShape(cells: seq<string>, index: nat, nl: string)
    requires index + 9 <= |cells|
    ensures PMLine(cells, index, nl) ==
      " | " + (Group(cells[index], cells[index + 1], cells[index + 2])
      + ("  | " + (Group(cells[index + 3], cells[index + 4], cells[index + 5])
      + ("  | " + (Group(cells[index + 6], cells[index + 7], cells[index + 8])
      + ("  |" + nl))))))
  {
  }

  /** The closing bar and the separator add no field. */
  lemma FieldsRowEnd(nl: string)
    requires ' ' !in nl
    ensures Fields("  |" + nl) == []
  {
    assert "  |" + nl == Spaces(2) + ("|" + nl);
    FieldsSpaces(2, "|" + nl);
    FieldsWord("|" + nl);
  }

  /** A frame line has no field that starts with a digit. */
  lemma FieldsFrame(m: nat, outer: bool, nl: string)
    requires ' ' !in nl
    ensures Fields(FrameLine(m, outer, nl)) == []
  {
    var run := Repeat('-', 3 * m + 7);
    var joint := if outer then "-" else "+";
    var rest := "*" + run + joint + run + joint + run + (if outer then "*" else "|") + nl;
    assert FrameLine(m, outer, nl) == "" + " " + rest;
    FieldsSplit("", rest);
    FieldsEmpty();
    FieldsWord(rest);
  }

  /** The lists a line shows: those of its row for a row line, none for a frame line. */
  function LineLists(toks: seq<string>, l: nat): seq<string>
    requires |toks| == 81 && l < 13
  {
    if IsRowLine(l) then toks[9 * RowOfLine(l)..9 * RowOfLine(l) + 9] else []
  }

  /** The lists of several lines, one after the other. */
  function Flatten(lists: seq<seq<string>>): seq<string>
  {
    if lists == [] then [] else lists[0] + Flatten(lists[1..])
  }

  /** Every line of the grid starts with a space. */
  lemma LineLeadsWithSpace(cells: seq<string>, m: nat, nl: string, l: nat)
    requires |cells| == 81 && l < 13
    ensures var line := PMLines(cells, m, nl)[l]; line != "" && line[0] == ' '
  {
    if IsRowLine(l) {
      RowLeadsWithSpace(cells, 9 * RowOfLine(l), nl);
    } else {
      FrameLeadsWithSpace(m, l == 0 || l == 12, nl);
    }
  }

  lemma RowLeadsWithSpace(cells: seq<string>, index: nat, nl: string)
    requires index + 9 <= |cells|
    ensures PMLine(cells, index, nl) != "" && PMLine(cells, index, nl)[0] == ' '
  {
    PMLineShape(cells, index, nl);
  }

  lemma FrameLeadsWithSpace(m: nat, outer: bool, nl: string)
    ensures FrameLine(m, outer, nl) != "" && FrameLine(m, outer, nl)[0] == ' '
  {
    var run := Repeat('-', 3 * m + 7);
    var joint := if outer then "-" else "+";
    assert FrameLine(m, outer, nl) == " " + ("*" + run + joint + run + joint + run + (if outer then "*" else "|") + nl);
  }

  /** The fields of line `l` are the lists it shows. */
  lemma LineFields(toks: seq<string>, m: nat, nl: string, l: nat)
    requires |toks| == 81 && l < 13 && ' ' !in nl
    requires forall j :: 0 <= j < 81 ==> IsCandidateToken(toks[j]) && ' ' !in toks[j]
    ensures Fields(PMLines(PadAll(toks, m), m, nl)[l]) == LineLists(toks, l)
  {
    if IsRowLine(l) {
      FieldsRow(toks, m, 9 * RowOfLine(l), nl);
    } else {
      FieldsFrame(m, l == 0 || l == 12, nl);
    }
  }

  /** Lines that each start with a space hold, together, the fields of each line in turn. */
  lemma {:induction false} FieldsOfLines(lines: seq<string>, lists: seq<seq<string>>)
    requires |lists| == |lines|
    requires forall l :: 0 <= l < |lines| ==> lines[l] != "" && lines[l][0] == ' '
    requires forall l :: 0 <= l < |lines| ==> Fields(lines[l]) == lists[l]
    ensures Fields(Concat(lines)) == Flatten(lists)
  {
    if lines == [] {
      FieldsEmpty();
    } else {
      var rest := lines[1..];
      FieldsOfLines(rest, lists[1..]);
      if rest == [] {
        assert Concat(lines) == lines[0] + "" == lines[0];
        assert lists[1..] == [];
        assert Flatten(lists) == lists[0] + [] == lists[0];
      } else {
        var tail := Concat(rest);
        assert tail == rest[0] + Concat(rest[1..]);
        FieldsLead(lines[0], tail);
      }
    }
  }

  /** The lists the thirteen lines show are the 81 lists, in order. */
  lemma FlattenLineLists(toks: seq<string>)
    requires |toks| == 81
    ensures Flatten(seq(13, l requires 0 <= l < 13 => LineLists(toks, l))) == toks
  {
    var ls := seq(13, l requires 0 <= l < 13 => LineLists(toks, l));
    var e: seq<string> := [];
    var b1 := [e, toks[0..9], toks[9..18], toks[18..27]];
    var b2 := [e, toks[27..36], toks[36..45], toks[45..54]];
    var b3 := [e, toks[54..63], toks[63..72], toks[72..81]];
    assert ls == b1 + b2 + b3 + [e];
    FlattenAppend(b1 + b2 + b3, [e]);
    FlattenAppend(b1 + b2, b3);
    FlattenAppend(b1, b2);
    FlattenBand(toks, 0);
    FlattenBand(toks, 27);
    FlattenBand(toks, 54);
    assert Flatten([e]) == [] by { assert [e][1..] == []; }
    assert toks == toks[0..27] + toks[27..54] + toks[54..81] + [];
  }

  /** Lists of lists flatten piecewise. */
  lemma {:induction false} FlattenAppend(a: seq<seq<string>>, b: seq<seq<string>>)
    ensures Flatten(a + b) == Flatten(a) + Flatten(b)
  {
    if a != [] {
      assert (a + b)[1..] == a[1..] + b;
      FlattenAppend(a[1..], b);
    } else {
      assert a + b == b;
    }
  }

  /** A frame line and the three row lines after it show 27 consecutive lists. */
  lemma FlattenBand(toks: seq<string>, i: nat)
    requires i + 27 <= |toks|
    ensures Flatten([[], toks[i..i + 9], toks[i + 9..i + 18], toks[i + 18..i + 27]]) == toks[i..i + 27]
  {
    var x, y, z := toks[i..i + 9], toks[i + 9..i + 18], toks[i + 18..i + 27];
    var b: seq<seq<string>> := [[], x, y, z];
    assert [z][1..] == [];
    assert Flatten([z]) == z + [] == z;
    assert [y, z][1..] == [z];
    assert Flatten([y, z]) == y + z;
    assert [x, y, z][1..] == [y, z];
    assert Flatten([x, y, z]) == x + (y + z);
    assert b[1..] == [x, y, z];
    assert Flatten(b) == [] + (x + (y + z));
    assert toks[i..i + 27] == x + (y + z);
  }

  /** The grid `getSSPMGrid` writes holds exactly the lists it was built from. */
  lemma PMGridFields(grid: string, nl: string)
    requires ' ' !in nl && PMGrid(grid, nl).Ok?
    ensures Tokens(PMGrid(grid, nl).value) == Tokens(grid)
  {
    var toks := Tokens(grid);
    var m := MaxLength(toks);
    var lines := PMLines(PadAll(toks, m), m, nl);
    TokensNoSpace(grid);
    KeptCandidates(JavaSplit(grid));
    var lists := seq(13, l requires 0 <= l < 13 => LineLists(toks, l));
    forall l | 0 <= l < 13
      ensures lines[l] != "" && lines[l][0] == ' ' && Fields(lines[l]) == lists[l]
    {
      LineLeadsWithSpace(PadAll(toks, m), m, nl, l);
      LineFields(toks, m, nl, l);
    }
    FieldsOfLines(lines, lists);
    FlattenLineLists(toks);
    TokensAreFields(PMGrid(grid, nl).value);
  }

  /** Formatting the output again reproduces it: the grid is a fixed point of
      `getSSPMGrid` whenever the line separator contains no space. */
  lemma PMGridIdempotent(grid: string, nl: string)
    requires ' ' !in nl && PMGrid(grid, nl).Ok?
    ensures PMGrid(PMGrid(grid, nl).value, nl) == PMGrid(grid, nl)
  {
    PMGridFields(grid, nl);
  }
}
