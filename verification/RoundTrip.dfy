/** The table printer, and reading a printed table back as section 4.10 of the GitHub
    Flavored Markdown Spec has it. */
module RoundTrip {
  import opened Domain
  import opened Text
  import opened Cdom
  import opened Recognize
  import opened Reconstruct
  import opened Segmentation
  import opened Layout
  import opened Postprocess
  import opened Export

  // ---------- the lines of a printed table ----------

  lemma {:induction false} NoCharAfterReplace(s: string, c: char, with: string, d: char)
    requires d !in with && (d == c || d !in s)
    ensures d !in ReplaceAll(s, c, with)
  {
    if s != [] {
      assert forall x :: x in s[1..] ==> x in s;
      NoCharAfterReplace(s[1..], c, with, d);
    }
  }

  lemma EscapedOneLine(s: string)
    ensures '\n' !in Escaped(s)
  {
    hide ReplaceAll;
    NoCharAfterReplace(ReplaceAll(s, '|', "\\|"), '\n', " ", '\n');
  }

  predicate OneLine(cells: seq<string>) {
    forall i :: 0 <= i < |cells| ==> '\n' !in cells[i]
  }

  lemma {:induction false} LineIsOneLine(cells: seq<string>)
    requires OneLine(cells)
    ensures '\n' !in Bars(cells) && '\n' !in Line(cells)
  {
    if cells != [] {
      LineIsOneLine(cells[1..]);
    }
  }

  lemma RowIsOneLine(row: Block, width: nat)
    ensures '\n' !in Line(Padded(RowCells(row), width))
  {
    hide Escaped, Line;
    forall i | 0 <= i < width
      ensures '\n' !in Padded(RowCells(row), width)[i]
    {
      if i < |row.children| {
        EscapedOneLine(TrimSpace(row.children[i].text));
      }
    }
    LineIsOneLine(Padded(RowCells(row), width));
  }

  lemma SplitEnd()
    ensures Split("\n", '\n') == ["", ""]
  {
    assert "\n"[1..] == [];
    assert Split([], '\n') == [[]];
  }

  /** A printed table is its lines, one row each with the rule after the first, and a
      blank line. */
  lemma PrintedLines(t: Block)
    requires BodyRows(t.children) != []
    ensures
      var body := BodyRows(t.children);
      var width := |body[0].children|;
      var lines := Split(PrintedTable(t), '\n');
      && |lines| == |body| + 3 && lines[|body| + 1] == "" && lines[|body| + 2] == ""
      && lines[1] == Line(Rule(width))
      && forall k :: 0 <= k < |body| ==> lines[if k == 0 then 0 else k + 1] == Line(Padded(RowCells(body[k]), width))
  {
    hide Line, RowCells, Padded, BodyRows, Lines, Split;
    var body := BodyRows(t.children);
    var width := |body[0].children|;
    var ls := TableLines(body);
    forall i | 0 <= i < |ls|
      ensures '\n' !in ls[i]
    {
      if i == 1 {
        LineIsOneLine(Rule(width));
      } else {
        RowIsOneLine(body[if i == 0 then 0 else i - 1], width);
      }
    }
    SplitLines(ls, "\n");
    SplitEnd();
  }

  // ---------- reading GitHub Flavored Markdown ----------

  /** The fields of a line between the pipes that no backslash precedes. */
  function Fields(s: string, escaped: bool): (r: seq<string>)
    ensures |r| >= 1
  {
    if s == [] then [[]]
    else if s[0] == '|' && !escaped then [[]] + Fields(s[1..], false)
    else
      var rest := Fields(s[1..], s[0] == '\\');
      [[s[0]] + rest[0]] + rest[1..]
  }

  /** A backslash before a pipe goes away. */
  function Unescaped(s: string): string {
    if s == [] then []
    else if s[0] == '\\' && |s| >= 2 && s[1] == '|' then "|" + Unescaped(s[2..])
    else [s[0]] + Unescaped(s[1..])
  }

  function ReadAll(fields: seq<string>): (r: seq<string>)
    ensures |r| == |fields| && forall i :: 0 <= i < |r| ==> r[i] == TrimSpace(Unescaped(fields[i]))
  {
    seq(|fields|, i requires 0 <= i < |fields| => TrimSpace(Unescaped(fields[i])))
  }

  /** The cells of a line; the first and the last field lie outside the table. */
  function Read(line: string): seq<string> { ReadAll(Fields(line, false)) }

  /** What a cell says: its text trimmed, newlines as spaces. */
  function Flat(s: string): string { ReplaceAll(TrimSpace(s), '\n', " ") }

  function FlatRow(row: Block): (r: seq<string>)
    ensures |r| == |row.children|
  {
    seq(|row.children|, c requires 0 <= c < |row.children| => Flat(row.children[c].text))
  }

  /** Every pipe has a backslash before it, and the last character is none. */
  predicate Sealed(s: string, escaped: bool) {
    if s == [] then !escaped
    else !(s[0] == '|' && !escaped) && Sealed(s[1..], s[0] == '\\')
  }

  lemma {:induction false} FieldsHead(a: string, escaped: bool, b: string)
    requires Sealed(a, escaped)
    ensures Fields(a + "|" + b, escaped) == [a] + Fields(b, false)
  {
    if a == [] {
      assert a + "|" + b == "|" + b;
    } else {
      FieldsHead(a[1..], a[0] == '\\', b);
      assert (a + "|" + b)[1..] == a[1..] + "|" + b;
      assert [a[0]] + a[1..] == a;
    }
  }

  function EscapedChar(c: char): string {
    if c == '|' then "\\|" else if c == '\n' then " " else [c]
  }

  lemma {:induction false} ReplaceAppend(a: string, b: string, c: char, with: string)
    ensures ReplaceAll(a + b, c, with) == ReplaceAll(a, c, with) + ReplaceAll(b, c, with)
  {
    if a == [] {
      assert a + b == b;
    } else {
      ReplaceAppend(a[1..], b, c, with);
      assert (a + b)[0] == a[0] && (a + b)[1..] == a[1..] + b;
      var x, y, z := (if a[0] == c then with else [a[0]]), ReplaceAll(a[1..], c, with), ReplaceAll(b, c, with);
      assert x + (y + z) == (x + y) + z;
    }
  }

  lemma EscapedStep(s: string)
    requires s != []
    ensures Escaped(s) == EscapedChar(s[0]) + Escaped(s[1..])
  {
    var h := if s[0] == '|' then "\\|" else [s[0]];
    ReplaceAppend(h, ReplaceAll(s[1..], '|', "\\|"), '\n', " ");
    assert h[1..] == if s[0] == '|' then "|" else [];
    assert ReplaceAll(h[1..], '\n', " ") == h[1..] by { ReplaceNone(h[1..], '\n', " "); }
  }

  lemma NothingEscaped()
    ensures Escaped([]) == []
  {}

  lemma {:induction false} EscapedSealed(s: string, escaped: bool)
    ensures Sealed(Escaped(s) + " ", escaped)
  {
    hide Escaped;
    if s == [] {
      NothingEscaped();
      assert (Escaped(s) + " ")[1..] == [];
    } else {
      EscapedStep(s);
      var e, rest := Escaped(s) + " ", Escaped(s[1..]) + " ";
      EscapedSealed(s[1..], false);
      EscapedSealed(s[1..], true);
      if s[0] == '|' {
        assert e[1..] == "|" + rest && e[1..][1..] == rest;
      } else {
        assert e[1..] == rest;
      }
    }
  }

  lemma {:induction false} EscapedReadBack(s: string)
    ensures Unescaped(Escaped(s) + " ") == ReplaceAll(s, '\n', " ") + " "
    ensures (Escaped(s) + " ")[0] != '|'
  {
    hide Escaped;
    if s == [] {
      NothingEscaped();
      assert (Escaped(s) + " ")[1..] == [];
    } else {
      EscapedStep(s);
      var e, rest := Escaped(s) + " ", Escaped(s[1..]) + " ";
      EscapedReadBack(s[1..]);
      if s[0] == '|' {
        assert e[2..] == rest;
      } else {
        assert e[1..] == rest && (|e| >= 2 ==> e[1] == rest[0]);
      }
    }
  }

  lemma UnescapedSpace(s: string)
    ensures Unescaped(" " + s) == " " + Unescaped(s)
  {
    assert (" " + s)[1..] == s;
  }

  lemma FlatTrimmed(s: string)
    ensures Trimmed(Flat(s))
  {
    var t := TrimSpace(s);
    FlatEnds(t);
  }

  lemma {:induction false} FlatEnds(t: string)
    ensures
      var f := ReplaceAll(t, '\n', " ");
      |f| == |t| && forall i :: 0 <= i < |t| ==> f[i] == if t[i] == '\n' then ' ' else t[i]
  {
    if t != [] {
      FlatEnds(t[1..]);
    }
  }

  /** One cell between its bars reads back as what it says. */
  lemma CellReadsBack(text: string)
    ensures Sealed(" " + Escaped(TrimSpace(text)) + " ", false)
    ensures TrimSpace(Unescaped(" " + Escaped(TrimSpace(text)) + " ")) == Flat(text)
  {
    hide Escaped, TrimSpace, ReplaceAll;
    var e := Escaped(TrimSpace(text)) + " ";
    assert " " + Escaped(TrimSpace(text)) + " " == " " + e;
    assert (" " + e)[1..] == e;
    EscapedSealed(TrimSpace(text), false);
    EscapedReadBack(TrimSpace(text));
    UnescapedSpace(e);
    FlatTrimmed(text);
    TrimUnique(" ", Flat(text), " ");
    assert " " + (Flat(text) + " ") == " " + Flat(text) + " ";
  }

  /** A printed cell and what it reads as. */
  ghost predicate ReadsAs(cell: string, flat: string) {
    Sealed(" " + cell + " ", false) && TrimSpace(Unescaped(" " + cell + " ")) == flat
  }

  lemma NoField()
    ensures Fields("", false) == [""] && ReadAll([""]) == [""]
  {
    assert TrimSpace(Unescaped("")) == "" by { assert AllSpace(""); }
  }

  lemma {:induction false} BarsReadBack(cells: seq<string>, flats: seq<string>)
    requires |cells| == |flats| && forall i :: 0 <= i < |cells| ==> ReadsAs(cells[i], flats[i])
    ensures ReadAll(Fields(Bars(cells), false)) == flats + [""]
  {
    hide Sealed, TrimSpace, Unescaped, Fields;
    if cells == [] {
      NoField();
      assert flats + [""] == [""];
    } else {
      BarsReadBack(cells[1..], flats[1..]);
      assert ReadsAs(cells[0], flats[0]);
      var f := " " + cells[0] + " ";
      FieldsHead(f, false, Bars(cells[1..]));
      assert Bars(cells) == f + "|" + Bars(cells[1..]);
      var rest := Fields(Bars(cells[1..]), false);
      assert ReadAll([f] + rest) == [flats[0]] + ReadAll(rest);
      assert [flats[0]] + (flats[1..] + [""]) == flats + [""];
    }
  }

  lemma LineReadsBack(cells: seq<string>, flats: seq<string>)
    requires |cells| == |flats| && forall i :: 0 <= i < |cells| ==> ReadsAs(cells[i], flats[i])
    ensures Read(Line(cells)) == [""] + flats + [""]
  {
    BarsReadBack(cells, flats);
    NoField();
    assert Fields(Line(cells), false) == [""] + Fields(Bars(cells), false) by {
      assert Line(cells)[1..] == Bars(cells);
    }
    hide Fields, TrimSpace;
    var rest := Fields(Bars(cells), false);
    assert ReadAll([""] + rest) == [ReadAll([""])[0]] + ReadAll(rest);
  }

  lemma RowReadsBack(row: Block, width: nat)
    ensures Read(Line(Padded(RowCells(row), width))) == [""] + Padded(FlatRow(row), width) + [""]
  {
    hide Read, Line, Escaped, TrimSpace, Flat, Sealed, Unescaped;
    var cells, flats := Padded(RowCells(row), width), Padded(FlatRow(row), width);
    forall i | 0 <= i < width
      ensures ReadsAs(cells[i], flats[i])
    {
      if i < |row.children| {
        CellReadsBack(row.children[i].text);
      } else {
        EmptyReadsBack();
      }
    }
    LineReadsBack(cells, flats);
  }

  lemma EmptyReadsBack()
    ensures ReadsAs("", "")
  {
    assert " " + "" + " " == "  " && "  "[1..] == " " && " "[1..] == "";
    assert Unescaped("  ") == "  ";
    assert AllSpace("  ");
  }

  lemma RuleReadsBack(width: nat)
    ensures Read(Line(Rule(width))) == [""] + Rule(width) + [""]
  {
    hide Read, Line;
    assert ReadsAs("---", "---") by {
      var s := " " + "---" + " ";
      assert s == " --- ";
      DashesSealed();
      DashesPlain();
      TrimUnique(" ", "---", " ");
    }
    LineReadsBack(Rule(width), Rule(width));
  }

  lemma DashesSealed()
    ensures Sealed(" --- ", false)
  {
    assert " --- "[1..] == "--- " && "--- "[1..] == "-- " && "-- "[1..] == "- " && "- "[1..] == " " && " "[1..] == "";
    assert Sealed("", false);
    assert Sealed(" ", false);
    assert Sealed("- ", false);
    assert Sealed("-- ", false);
    assert Sealed("--- ", false);
  }

  lemma DashesPlain()
    ensures Unescaped(" --- ") == " --- "
  {
    assert " --- "[1..] == "--- " && "--- "[1..] == "-- " && "-- "[1..] == "- " && "- "[1..] == " " && " "[1..] == "";
    assert Unescaped("- ") == "- ";
    assert Unescaped("-- ") == "-- ";
    assert Unescaped("--- ") == "--- ";
  }

  /** Escaping loses nothing: whatever the cells hold, each printed line reads back as
      the row's texts, padded or cut to the width of the first row. */
  lemma EscapingLossless(t: Block)
    requires BodyRows(t.children) != []
    ensures
      var body := BodyRows(t.children);
      var width := |body[0].children|;
      var lines := Split(PrintedTable(t), '\n');
      && |lines| == |body| + 3 && lines[|body| + 1] == "" && lines[|body| + 2] == ""
      && Read(lines[1]) == [""] + Rule(width) + [""]
      && forall k :: 0 <= k < |body| ==>
           Read(lines[if k == 0 then 0 else k + 1]) == [""] + Padded(FlatRow(body[k]), width) + [""]
  {
    hide BodyRows, Read, Line, Padded, FlatRow, RowCells, PrintedTable;
    var body := BodyRows(t.children);
    var width := |body[0].children|;
    PrintedLines(t);
    RuleReadsBack(width);
    forall k | 0 <= k < |body|
      ensures Read(Split(PrintedTable(t), '\n')[if k == 0 then 0 else k + 1])
        == [""] + Padded(FlatRow(body[k]), width) + [""]
    {
      RowReadsBack(body[k], width);
    }
  }

  // ---------- tables made by the layout stage ----------

  lemma {:induction false} AllBody(kids: seq<Block>)
    requires forall k :: 0 <= k < |kids| ==> kids[k].typ == TableRow && kids[k].children != []
    ensures BodyRows(kids) == kids
  {
    if kids != [] {
      AllBody(kids[1..]);
      assert [kids[0]] + kids[1..] == kids;
    }
  }

  /** Another table of the same shape, its texts trimmed or as they were. */
  ghost predicate SameTable(t: Block, u: Block) {
    && t.typ == u.typ && |t.children| == |u.children|
    && forall r :: 0 <= r < |t.children| ==>
         t.children[r].typ == u.children[r].typ && |t.children[r].children| == |u.children[r].children|
         && forall c :: 0 <= c < |t.children[r].children| ==>
             SameCell(t.children[r].children[c], u.children[r].children[c])
  }

  predicate SameCell(a: Block, b: Block) {
    a.typ == b.typ && a.children == b.children && TrimSpace(a.text) == TrimSpace(b.text)
  }

  lemma {:induction false} NumberedLeaves(bs: seq<Block>, order: int)
    requires forall c :: 0 <= c < |bs| ==> bs[c].children == []
    ensures forall c :: 0 <= c < |bs| ==> SameCell(bs[c], Numbered(bs, order).0[c])
    decreases |bs|
  {
    hide TrimSpace;
    if bs != [] {
      assert Numbered([], order + 1) == ([], order + 1);
      NumberedLeaves(bs[1..], order + 1);
    }
  }

  ghost predicate LeafRows(bs: seq<Block>) {
    forall r :: 0 <= r < |bs| ==> Leaves(bs[r].children)
  }

  predicate Leaves(bs: seq<Block>) {
    forall c :: 0 <= c < |bs| ==> bs[c].typ == TableCell && bs[c].children == []
  }

  ghost predicate SameRow(a: Block, b: Block) {
    a.typ == b.typ && |a.children| == |b.children|
    && forall c :: 0 <= c < |a.children| ==> SameCell(a.children[c], b.children[c])
  }

  lemma {:induction false} NumberedRows(bs: seq<Block>, order: int)
    requires LeafRows(bs)
    ensures forall r :: 0 <= r < |bs| ==> SameRow(bs[r], Numbered(bs, order).0[r])
    decreases |bs|
  {
    hide SameCell;
    if bs != [] {
      var (kids, o1) := Numbered(bs[0].children, order + 1);
      NumberedLeaves(bs[0].children, order + 1);
      NumberedRows(bs[1..], o1);
    }
  }

  lemma RectangularRows(t: Block)
    requires Rectangular(t)
    ensures LeafRows(t.children)
    ensures forall r :: 0 <= r < |t.children| ==> t.children[r].typ == TableRow && t.children[r].children != []
  {}

  lemma NumberedTable(t: Block, order: int)
    requires Rectangular(t)
    ensures |Numbered([t], order).0| == 1 && SameTable(t, Numbered([t], order).0[0])
  {
    hide SameCell;
    RectangularRows(t);
    NumberedRows(t.children, order + 1);
    hide Rectangular, LeafRows;
    var (kids, o1) := Numbered(t.children, order + 1);
    forall r | 0 <= r < |kids|
      ensures SameRow(t.children[r], kids[r])
    {}
  }

  lemma CleanedLeaf(b: Block)
    requires b.typ == TableCell && b.children == []
    ensures |Cleaned([b])| == 1 && SameCell(b, Cleaned([b])[0])
  {
    CleanedOne(b);
    CleanedNone();
    TrimIdempotent(b.text);
    hide TrimSpace;
  }

  lemma {:induction false} CleanedLeaves(bs: seq<Block>)
    requires Leaves(bs)
    ensures |Cleaned(bs)| == |bs| && forall c :: 0 <= c < |bs| ==> SameCell(bs[c], Cleaned(bs)[c])
    decreases |bs|
  {
    hide Cleaned, SameCell;
    CleanedNone();
    if bs != [] {
      CleanedLeaf(bs[0]);
      CleanedLeaves(bs[1..]);
      CleanedFrom(bs, 0);
    }
  }

  lemma CleanedRow(b: Block)
    requires b.typ == TableRow && b.children != [] && Leaves(b.children)
    ensures |Cleaned([b])| == 1 && SameRow(b, Cleaned([b])[0])
  {
    CleanedOne(b);
    CleanedLeaves(b.children);
    hide SameCell, TrimSpace, Cleaned;
  }

  lemma {:induction false} CleanedRows(bs: seq<Block>)
    requires forall r :: 0 <= r < |bs| ==> bs[r].typ == TableRow && bs[r].children != [] && Leaves(bs[r].children)
    ensures |Cleaned(bs)| == |bs| && forall r :: 0 <= r < |bs| ==> SameRow(bs[r], Cleaned(bs)[r])
    decreases |bs|
  {
    hide Cleaned, SameRow, Leaves;
    CleanedNone();
    if bs != [] {
      CleanedRow(bs[0]);
      CleanedRows(bs[1..]);
      CleanedFrom(bs, 0);
    }
  }

  lemma CleanedTable(t: Block)
    requires Rectangular(t)
    ensures |Cleaned([t])| == 1 && SameTable(t, Cleaned([t])[0])
  {
    hide SameCell, TrimSpace;
    RectangularRows(t);
    CleanedRows(t.children);
    CleanedOne(t);
    var kids := Cleaned(t.children);
    hide Rectangular, LeafRows, Cleaned;
    forall r | 0 <= r < |kids|
      ensures SameRow(t.children[r], kids[r])
    {}
  }

  lemma SameRectangular(t: Block, u: Block)
    requires Rectangular(t) && SameTable(t, u)
    ensures Rectangular(u)
  {
    hide TrimSpace;
    forall r, c | 0 <= r < |t.children| && 0 <= c < |t.children[r].children|
      ensures u.children[r].children[c].typ == TableCell && u.children[r].children[c].children == []
    {
      assert SameCell(t.children[r].children[c], u.children[r].children[c]);
    }
  }

  lemma SameTransitive(t: Block, u: Block, v: Block)
    requires SameTable(t, u) && SameTable(u, v)
    ensures SameTable(t, v)
  {
    hide TrimSpace;
    forall r, c | 0 <= r < |t.children| && 0 <= c < |t.children[r].children|
      ensures SameCell(t.children[r].children[c], v.children[r].children[c])
    {
      assert SameCell(t.children[r].children[c], u.children[r].children[c]);
      assert SameCell(u.children[r].children[c], v.children[r].children[c]);
    }
  }

  lemma SameFlat(t: Block, u: Block, r: nat)
    requires SameTable(t, u) && r < |t.children|
    ensures FlatRow(t.children[r]) == FlatRow(u.children[r])
  {
    hide TrimSpace, ReplaceAll;
    forall c | 0 <= c < |t.children[r].children|
      ensures FlatRow(t.children[r])[c] == FlatRow(u.children[r])[c]
    {
      assert SameCell(t.children[r].children[c], u.children[r].children[c]);
    }
  }

  lemma RectangularBody(t: Block)
    requires Rectangular(t)
    ensures BodyRows(t.children) == t.children && |t.children| >= 2
    ensures forall r :: 0 <= r < |t.children| ==> |FlatRow(t.children[r])| == |t.children[0].children|
  {
    hide Flat;
    AllBody(t.children);
  }

  lemma FullRow(cells: seq<string>, width: nat)
    requires |cells| == width
    ensures Padded(cells, width) == cells
  {}

  /** The table block of a segment, numbered and cleaned as the pipeline leaves it. */
  function Delivered(page: int, idx: nat, bs: seq<Block>, i: nat, order: int): seq<Block>
    requires i < |bs|
  {
    Cleaned(Numbered([Built(page, idx, bs, i, SegmentAt(bs, i))], order).0)
  }

  /** Tables made by the layout stage survive numbering and clean-up and print without
      padding or cutting: every line reads back as exactly the texts of its row. */
  lemma LayoutTablesPrintWhole(page: int, idx: nat, bs: seq<Block>, i: nat, order: int)
    requires i < |bs| && (SegmentAt(bs, i).CellSeg? || SegmentAt(bs, i).GeoSeg?)
    ensures
      var t := Built(page, idx, bs, i, SegmentAt(bs, i));
      var out := Delivered(page, idx, bs, i, order);
      && |out| == 1 && out[0].typ == Table && |t.children| >= 2
      && |Split(PrintedTable(out[0]), '\n')| == |t.children| + 3
      && forall k :: 0 <= k < |t.children| ==>
           Read(Split(PrintedTable(out[0]), '\n')[if k == 0 then 0 else k + 1]) == [""] + FlatRow(t.children[k]) + [""]
  {
    hide Built, SegmentAt, Numbered, Cleaned, Rectangular, SameTable, BodyRows, PrintedTable, Read, Split, TextsOf,
        FlatRow;
    LayoutTablesRectangular(page, idx, bs, i);
    var t := Built(page, idx, bs, i, SegmentAt(bs, i));
    NumberedTable(t, order);
    var n := Numbered([t], order).0;
    assert n == [n[0]];
    SameRectangular(t, n[0]);
    CleanedTable(n[0]);
    var u := Cleaned(n)[0];
    SameTransitive(t, n[0], u);
    SameRectangular(t, u);
    RectangularBody(u);
    EscapingLossless(u);
    SameSize(t, u);
    forall k | 0 <= k < |t.children|
      ensures Read(Split(PrintedTable(u), '\n')[if k == 0 then 0 else k + 1]) == [""] + FlatRow(t.children[k]) + [""]
    {
      SameFlat(t, u, k);
      FullRow(FlatRow(u.children[k]), |u.children[0].children|);
    }
    TableTyped(t, u);
  }

  lemma SameSize(t: Block, u: Block)
    requires SameTable(t, u)
    ensures |t.children| == |u.children|
  {}

  lemma TableTyped(t: Block, u: Block)
    requires Rectangular(t) && SameTable(t, u)
    ensures u.typ == Table
  {}
}
