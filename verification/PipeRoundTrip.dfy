/** A pipe table printed by the exporter and handed back to the layout stage. */
module PipeRoundTrip {
  import opened Domain
  import opened Text
  import opened Cdom
  import opened Recognize
  import opened Reconstruct
  import opened Segmentation
  import opened Layout
  import opened Postprocess
  import opened Export
  import opened RoundTrip

  // ---------- cells that come from one line ----------

  predicate CellOk(c: string) {
    Trimmed(c) && '|' !in c && '\n' !in c
  }

  predicate RowOk(row: seq<string>, width: nat) {
    |row| == width && !IsSeparator(row) && forall c :: 0 <= c < width ==> CellOk(row[c])
  }

  predicate RowsOk(rows: seq<seq<string>>, width: nat) {
    |rows| >= 2 && width >= 2 && forall k :: 0 <= k < |rows| ==> RowOk(rows[k], width)
  }

  lemma TrimmedChars(s: string, d: char)
    requires d !in s
    ensures d !in TrimSpace(s)
  {
    var pre, post := TrimSplits(s);
    assert forall c :: c in TrimSpace(s) ==> c in pre + TrimSpace(s) + post;
  }

  lemma {:induction false} SplitChars(s: string, sep: char, d: char)
    requires d !in s
    ensures forall i :: 0 <= i < |Split(s, sep)| ==> d !in Split(s, sep)[i]
  {
    if s != [] {
      assert forall c :: c in s[1..] ==> c in s;
      SplitChars(s[1..], sep, d);
    }
  }

  lemma {:induction false} PipesTrimmedChars(t: string, d: char)
    requires d !in t
    ensures d !in TrimPipesLeft(t) && d !in TrimPipesRight(t)
    decreases |t|
  {
    if t != [] {
      assert forall c :: c in t[1..] || c in t[..|t| - 1] ==> c in t;
      PipesTrimmedChars(t[1..], d);
      PipesTrimmedChars(t[..|t| - 1], d);
    }
  }

  lemma CellsOk(text: string)
    requires '\n' !in text
    ensures forall c :: 0 <= c < |PipeCells(text)| ==> CellOk(PipeCells(text)[c])
  {
    var t := TrimSpace(text);
    TrimmedChars(text, '\n');
    PipesTrimmedChars(t, '\n');
    PipesTrimmedChars(TrimPipesLeft(t), '\n');
    var parts := Split(TrimPipesRight(TrimPipesLeft(t)), '|');
    SplitChars(TrimPipesRight(TrimPipesLeft(t)), '|', '\n');
    forall c | 0 <= c < |parts|
      ensures CellOk(TrimSpace(parts[c]))
    {
      assert parts[c] in parts;
      TrimmedChars(parts[c], '\n');
      TrimmedChars(parts[c], '|');
    }
  }

  predicate OneLiners(bs: seq<Block>) {
    forall k :: 0 <= k < |bs| ==> '\n' !in bs[k].text
  }

  lemma {:induction false} RowsFromLines(bs: seq<Block>, width: nat)
    requires OneLiners(bs) && AllRows(bs, Pipes, width)
    ensures forall k :: 0 <= k < |Rows(bs, Pipes)| ==> RowOk(Rows(bs, Pipes)[k], width)
  {
    hide CellOk, PipeCells, IsSeparator;
    if bs != [] {
      RowsFromLines(bs[1..], width);
      CellsOk(bs[0].text);
    }
  }

  lemma RunRowsOk(bs: seq<Block>, i: nat)
    requires i < |bs| && TableRun(bs, i, Pipes) >= 2 && OneLiners(bs[i..i + TableRun(bs, i, Pipes)])
    ensures RowsOk(Rows(bs[i..i + TableRun(bs, i, Pipes)], Pipes), |PipeCells(bs[i].text)|)
  {
    hide Rows, RowOk, PipeCells, IsPlain, IsSeparator;
    var width := |PipeCells(bs[i].text)|;
    var n := TableRun(bs, i, Pipes);
    RowRunRows(bs, i, Pipes, width);
    assert AllRows(bs[i..i + n], Pipes, width);
    RowsFromLines(bs[i..i + n], width);
  }

  // ---------- one line, read back ----------

  function Spaced(cells: seq<string>): (r: seq<string>)
    ensures |r| == |cells| && forall i :: 0 <= i < |r| ==> r[i] == " " + cells[i] + " "
  {
    seq(|cells|, i requires 0 <= i < |cells| => " " + cells[i] + " ")
  }

  lemma {:induction false} BarsJoin(cells: seq<string>)
    requires cells != []
    ensures Bars(cells) == Join(Spaced(cells), '|') + "|"
  {
    var c := cells[0];
    if |cells| == 1 {
      assert Bars(cells[1..]) == [];
    } else {
      BarsJoin(cells[1..]);
      assert Spaced(cells)[1..] == Spaced(cells[1..]);
      var rest := Join(Spaced(cells[1..]), '|');
      assert " " + c + " |" + (rest + "|") == (" " + c + " ") + ['|'] + rest + "|";
    }
  }

  lemma {:induction false} JoinEnds(cells: seq<string>)
    requires cells != []
    ensures var j := Join(Spaced(cells), '|'); j != [] && j[0] == ' ' && j[|j| - 1] == ' '
  {
    if |cells| > 1 {
      JoinEnds(cells[1..]);
      assert Spaced(cells)[1..] == Spaced(cells[1..]);
    }
  }

  /** A printed line is between pipes, and stripping them leaves the joined cells. */
  lemma LineStripped(cells: seq<string>)
    requires cells != []
    ensures Trimmed(Line(cells)) && '|' in Line(cells) && Line(cells)[0] == '|'
    ensures TrimPipesRight(TrimPipesLeft(Line(cells))) == Join(Spaced(cells), '|')
  {
    hide Join, Bars;
    BarsJoin(cells);
    JoinEnds(cells);
    var j := Join(Spaced(cells), '|');
    var l := Line(cells);
    assert l == "|" + (j + "|") && l[1..] == j + "|" && (j + "|")[..|j + "|"| - 1] == j;
    assert TrimPipesLeft(l) == j + "|";
    assert TrimPipesRight(j) == j;
  }

  lemma LineIsTrimmed(cells: seq<string>)
    requires cells != []
    ensures TrimSpace(Line(cells)) == Line(cells)
  {
    hide Line, TrimSpace, Trimmed;
    LineStripped(cells);
    TrimUnique([], Line(cells), []);
    assert [] + Line(cells) + [] == Line(cells);
  }

  lemma TrimAllSpaced(cells: seq<string>)
    requires forall i :: 0 <= i < |cells| ==> Trimmed(cells[i])
    ensures TrimAll(Spaced(cells)) == cells
  {
    hide TrimSpace, Trimmed;
    forall i | 0 <= i < |cells|
      ensures TrimAll(Spaced(cells))[i] == cells[i]
    {
      assert AllSpace(" ");
      TrimUnique(" ", cells[i], " ");
    }
  }

  lemma SpacedClean(cells: seq<string>)
    requires forall i :: 0 <= i < |cells| ==> CellOk(cells[i])
    ensures forall i :: 0 <= i < |cells| ==> '|' !in Spaced(cells)[i] && Trimmed(cells[i])
  {
    forall i | 0 <= i < |cells|
      ensures '|' !in Spaced(cells)[i] && Trimmed(cells[i])
    {
      assert CellOk(cells[i]);
    }
  }

  /** A printed line read by the layout stage gives back its cells. */
  lemma LineCells(cells: seq<string>)
    requires |cells| >= 2 && forall i :: 0 <= i < |cells| ==> CellOk(cells[i])
    ensures PipeCells(Line(cells)) == cells
  {
    hide TrimSpace, Line, Join, Split, TrimAll, TrimPipesLeft, TrimPipesRight, Trimmed, CellOk;
    LineIsTrimmed(cells);
    LineStripped(cells);
    SpacedClean(cells);
    SplitJoin(Spaced(cells), '|');
    TrimAllSpaced(cells);
  }

  lemma RuleCells(width: nat)
    requires width >= 2
    ensures PipeCells(Line(Rule(width))) == Rule(width) && IsSeparator(Rule(width))
  {
    hide PipeCells, Line;
    LineCells(Rule(width));
    TrimUnique([], "---", []);
    assert [] + "---" + [] == "---";
  }

  // ---------- the printed lines of a table of text ----------

  lemma PlainCell(c: string)
    requires CellOk(c)
    ensures Escaped(TrimSpace(c)) == c
  {
    TrimUnique([], c, []);
    assert [] + c + [] == c;
    ReplaceNone(c, '|', "\\|");
    ReplaceNone(c, '\n', " ");
  }

  lemma TextRowCells(page: int, idx: nat, r: nat, row: seq<string>, width: nat)
    requires RowOk(row, width)
    ensures Padded(RowCells(TextRow(page, idx, r, row)), width) == row
  {
    hide CellOk, IsSeparator, Escaped, TrimSpace, RowId, CellId;
    var b := TextRow(page, idx, r, row);
    forall c | 0 <= c < width
      ensures RowCells(b)[c] == row[c]
    {
      PlainCell(row[c]);
    }
  }

  lemma TextTableLines(page: int, idx: nat, rows: seq<seq<string>>, width: nat)
    requires RowsOk(rows, width)
    ensures
      var lines := Split(PrintedTable(TextTable(page, idx, rows)), '\n');
      && |lines| == |rows| + 3 && lines[|rows| + 1] == "" && lines[|rows| + 2] == ""
      && lines[1] == Line(Rule(width)) && lines[0] == Line(rows[0])
      && forall k :: 1 <= k < |rows| ==> lines[k + 1] == Line(rows[k])
  {
    hide RowOk, RowId, CellId, Line, Padded, RowCells, PrintedTable;
    var t := TextTable(page, idx, rows);
    forall k | 0 <= k < |rows|
      ensures t.children[k].typ == TableRow && t.children[k].children != []
        && Padded(RowCells(t.children[k]), width) == rows[k]
    {
      assert t.children[k] == TextRow(page, idx, k + 1, rows[k]);
      assert |rows[k]| == width by { RowWide(rows[k], width); }
      TextRowCells(page, idx, k + 1, rows[k], width);
    }
    AllBody(t.children);
    RowWide(rows[0], width);
    assert |t.children[0].children| == width;
    PrintedLines(t);
  }

  lemma RowWide(row: seq<string>, width: nat)
    requires RowOk(row, width)
    ensures |row| == width
  {}

  // ---------- the lines as blocks ----------

  /** Paragraphs with these texts; where they stand on the page does not matter. */
  predicate Paragraphs(bs: seq<Block>, lines: seq<string>) {
    |bs| == |lines| && forall k :: 0 <= k < |bs| ==>
        bs[k].typ == Paragraph && bs[k].children == [] && bs[k].text == lines[k]
  }

  lemma {:induction false} RowsOf(bs: seq<Block>, rows: seq<seq<string>>)
    requires |bs| == |rows| && forall k :: 0 <= k < |bs| ==> PipeCells(bs[k].text) == rows[k] && !IsSeparator(rows[k])
    ensures Rows(bs, Pipes) == rows
    decreases |bs|
  {
    hide PipeCells, IsSeparator;
    if bs != [] {
      RowsOf(bs[1..], rows[1..]);
      assert [rows[0]] + rows[1..] == rows;
    }
  }

  lemma RowLineCells(row: seq<string>, width: nat)
    requires RowOk(row, width) && width >= 2
    ensures PipeCells(Line(row)) == row && |row| == width && !IsSeparator(row)
  {
    LineCells(row);
  }

  lemma BlankCells()
    ensures PipeCells("") == [] && SpaceCells("") == [] && !LooksLikeItem("")
  {
    assert AllSpace("");
  }

  lemma LineNoItem(cells: seq<string>)
    requires cells != []
    ensures ListBody(true, Line(cells)) == None && ListBody(false, Line(cells)) == None
  {
    LineIsTrimmed(cells);
    LineStripped(cells);
  }

  /** What the printed lines are to the recognisers. */
  ghost predicate Printout(bs: seq<Block>, rows: seq<seq<string>>, width: nat) {
    && |bs| == |rows| + 3 && rows != []
    && (forall k :: 0 <= k < |bs| ==> IsPlain(bs[k]))
    && PipeCells(bs[0].text) == rows[0]
    && PipeCells(bs[1].text) == Rule(width)
    && (forall k :: 1 <= k < |rows| ==> PipeCells(bs[k + 1].text) == rows[k])
    && bs[|rows| + 1].text == "" && bs[|rows| + 2].text == ""
    && ListBody(true, bs[0].text) == None && ListBody(false, bs[0].text) == None
  }

  lemma PrintoutOf(page: int, idx: nat, rows: seq<seq<string>>, width: nat, bs: seq<Block>)
    requires RowsOk(rows, width) && Paragraphs(bs, Split(PrintedTable(TextTable(page, idx, rows)), '\n'))
    ensures Printout(bs, rows, width)
  {
    hide Line, PipeCells, RowOk, Split, PrintedTable, TextTable, ListBody;
    TextTableLines(page, idx, rows, width);
    forall k | 0 <= k < |rows|
      ensures PipeCells(Line(rows[k])) == rows[k] && rows[k] != []
    {
      RowLineCells(rows[k], width);
    }
    RuleCells(width);
    LineNoItem(rows[0]);
  }

  lemma PrintoutRun(bs: seq<Block>, rows: seq<seq<string>>, width: nat)
    requires RowsOk(rows, width) && Printout(bs, rows, width)
    ensures RowRun(bs, 0, Pipes, width) == |rows| + 1
  {
    hide PipeCells, IsPlain, IsSeparator, ListBody, CellOk;
    var n := |rows| + 1;
    forall k | 0 <= k < n
      ensures IsRow(Pipes, bs[k], width)
    {
      if k >= 2 {
        assert PipeCells(bs[k - 1 + 1].text) == rows[k - 1];
        assert RowOk(rows[k - 1], width);
      } else {
        assert RowOk(rows[0], width);
      }
    }
    RowRunLongest(bs, 0, Pipes, width, n);
    RowRunRows(bs, 0, Pipes, width);
    BlankCells();
    assert !IsRow(Pipes, bs[n], width);
  }

  lemma PrintoutRows(bs: seq<Block>, rows: seq<seq<string>>, width: nat)
    requires RowsOk(rows, width) && Printout(bs, rows, width)
    ensures Rows(bs[..|rows| + 1], Pipes) == rows
  {
    hide PipeCells, IsPlain, IsSeparator, ListBody, CellOk;
    var first, rule, rest := bs[..1], bs[1..2], bs[2..|rows| + 1];
    assert RowOk(rows[0], width);
    RowsOf(first, rows[..1]);
    assert Rows(rule, Pipes) == [] by {
      RuleCells(width);
      assert rule[1..] == [] && Skipped(Pipes, rule[0]);
      NoRows(Pipes);
    }
    forall k | 0 <= k < |rest|
      ensures PipeCells(rest[k].text) == rows[1..][k] && !IsSeparator(rows[1..][k])
    {
      assert rest[k] == bs[(k + 1) + 1];
      assert RowOk(rows[k + 1], width);
    }
    RowsOf(rest, rows[1..]);
    RowsAppend(first, rule, Pipes);
    RowsAppend(first + rule, rest, Pipes);
    assert first + rule + rest == bs[..|rows| + 1];
    assert rows[..1] + [] + rows[1..] == rows;
  }

  /** collectPipeTableRun on the printed lines: the same rows, the rule skipped, every
      line consumed but the blank ones at the end. */
  lemma PrintedTableReadBack(page: int, idx: nat, rows: seq<seq<string>>, width: nat, bs: seq<Block>)
    requires RowsOk(rows, width) && Paragraphs(bs, Split(PrintedTable(TextTable(page, idx, rows)), '\n'))
    ensures |bs| == |rows| + 3 && TableRun(bs, 0, Pipes) == |rows| + 1
    ensures Rows(bs[..|rows| + 1], Pipes) == rows
    ensures SegmentAt(bs, 0) == CellSeg(Pipes, |rows| + 1)
    ensures bs[|rows| + 1].text == "" && bs[|rows| + 2].text == "" && IsPlain(bs[|rows| + 1]) && IsPlain(bs[|rows| + 2])
  {
    hide PipeCells, Split, PrintedTable, TextTable, ListBody, Rows, RowRun, RowOk, GeoRun, SpaceCells;
    PrintoutOf(page, idx, rows, width, bs);
    PrintoutRun(bs, rows, width);
    PrintoutRows(bs, rows, width);
    RowWide(rows[0], width);
    assert bs[0..|rows| + 1] == bs[..|rows| + 1];
  }

  // ---------- the whole page ----------

  lemma BlankSegment(bs: seq<Block>, i: nat)
    requires i < |bs| && |bs| - i <= 2 && IsPlain(bs[i]) && bs[i].text == ""
    ensures SegmentAt(bs, i) == Copy
  {
    hide PipeCells, SpaceCells, BulletBody, OrderedBody, Rows, Centers, Compatible, SameY;
    BlankCells();
    assert ListBody(true, "") == None && ListBody(false, "") == None by {
      BlankCells();
      assert TrimSpace("") == "";
    }
    NoRows(Pipes);
    NoRows(Spaces);
    assert bs[i..i + 0] == [];
    assert TableRun(bs, i, Pipes) == 0 && TableRun(bs, i, Spaces) == 0;
    ShortGeoRun(bs, i, []);
  }

  lemma ShortGeoRun(bs: seq<Block>, i: nat, ref: seq<real>)
    requires i <= |bs| && |bs| - i <= 2
    ensures |GeoRun(bs, i, ref)| <= 1
  {
    hide Centers, Compatible;
    var lens := GeoRun(bs, i, ref);
    SumAtLeast(lens);
  }

  lemma BlankCleaned(b: Block)
    requires b.typ == Paragraph && b.children == [] && b.text == ""
    ensures Cleaned([b]) == []
  {
    CleanedOne(b);
    assert TrimSpace("") == "" by { assert AllSpace(""); }
    assert Cleaned([]) == [];
  }

  lemma {:induction false} CleanedAppend(a: seq<Block>, b: seq<Block>)
    ensures Cleaned(a + b) == Cleaned(a) + Cleaned(b)
  {
    hide Cleaned;
    CleanedNone();
    if a == [] {
      assert a + b == b;
    } else {
      CleanedAppend(a[1..], b);
      CleanedFrom(a, 0);
      CleanedFrom(a + b, 0);
      assert (a + b)[0] == a[0] && (a + b)[1..] == a[1..] + b;
    }
  }

  lemma {:induction false} TextCellsTidy(cells: seq<Block>)
    requires forall c :: 0 <= c < |cells| ==>
      cells[c].typ == TableCell && cells[c].children == [] && Trimmed(cells[c].text)
    ensures Tidy(cells)
  {
    hide Trimmed;
    if cells != [] {
      TextCellsTidy(cells[1..]);
    }
  }

  lemma {:induction false} TextRowsTidy(rows: seq<Block>)
    requires forall r :: 0 <= r < |rows| ==>
               rows[r].typ == TableRow && rows[r].text == "" && rows[r].children != [] && Tidy(rows[r].children)
    ensures Tidy(rows)
  {
    if rows != [] {
      TextRowsTidy(rows[1..]);
    }
  }

  /** Clean-up leaves a table of text as it is. */
  lemma TextTableTidy(page: int, idx: nat, rows: seq<seq<string>>, width: nat)
    requires RowsOk(rows, width)
    ensures Cleaned([TextTable(page, idx, rows)]) == [TextTable(page, idx, rows)]
  {
    hide RowId, CellId, TableId, Trimmed, Tidy, Cleaned;
    var t := TextTable(page, idx, rows);
    forall r | 0 <= r < |rows|
      ensures t.children[r].children != [] && Tidy(t.children[r].children)
    {
      assert t.children[r] == TextRow(page, idx, r + 1, rows[r]);
      assert RowOk(rows[r], width);
      assert forall c :: 0 <= c < width ==> CellOk(rows[r][c]);
      TextCellsTidy(t.children[r].children);
    }
    TextRowsTidy(t.children);
    TableTidy(t);
    TidyUnchanged([t]);
  }

  lemma TableTidy(t: Block)
    requires t.typ == Table && t.text == "" && t.children != [] && Tidy(t.children)
    ensures Tidy([t])
  {
    assert [t][1..] == [] && Tidy([]);
  }

  /** Parse, print, parse: a table that the layout stage finds in pipe text without
      newlines is printed so that the layout stage finds exactly the same table again,
      and nothing else but two blank lines, which clean-up takes away. */
  lemma PipeTableRoundTrip(page: int, idx: nat, bs: seq<Block>, i: nat, page': int, lines: seq<Block>)
    requires i < |bs| && TableRun(bs, i, Pipes) >= 2 && OneLiners(bs[i..i + TableRun(bs, i, Pipes)])
    requires
      var t := TextTable(page, idx, Rows(bs[i..i + TableRun(bs, i, Pipes)], Pipes));
      Paragraphs(lines, Split(PrintedTable(t), '\n'))
    ensures
      var rows := Rows(bs[i..i + TableRun(bs, i, Pipes)], Pipes);
      && TableRun(lines, 0, Pipes) == |rows| + 1 == |lines| - 2
      && Rows(lines[..|rows| + 1], Pipes) == rows
      && Reconstructed(page', lines) == [TextTable(page', 1, rows), lines[|rows| + 1], lines[|rows| + 2]]
      && Cleaned(Reconstructed(page', lines)) == [TextTable(page', 1, rows)]
  {
    hide Rows, TextTable, TableRun, PrintedTable, Split, RowsOk, Cleaned, SegmentAt;
    var rows := Rows(bs[i..i + TableRun(bs, i, Pipes)], Pipes);
    var width := |PipeCells(bs[i].text)|;
    hide PipeCells;
    RunRowsOk(bs, i);
    PrintedTableReadBack(page, idx, rows, width, lines);
    var n := |rows| + 1;
    ReparsedPage(page', lines, n);
    assert lines[0..n] == lines[..n];
    var table, x, y := TextTable(page', 1, rows), lines[n], lines[n + 1];
    TextTableTidy(page', 1, rows, width);
    BlankCleaned(x);
    BlankCleaned(y);
    CleanedAppend([table], [x, y]);
    CleanedAppend([x], [y]);
    assert [table] + [x, y] == [table, x, y] && [x] + [y] == [x, y];
    assert [table] + ([] + []) == [table];
  }

  lemma ReparsedPage(page: int, bs: seq<Block>, n: nat)
    requires |bs| == n + 2 && n > 0 && SegmentAt(bs, 0) == CellSeg(Pipes, n)
    requires IsPlain(bs[n]) && bs[n].text == "" && IsPlain(bs[n + 1]) && bs[n + 1].text == ""
    ensures Reconstructed(page, bs) == [TextTable(page, 1, Rows(bs[0..n], Pipes)), bs[n], bs[n + 1]]
  {
    hide SegmentAt, TextTable, Rows, IsPlain;
    BlankSegment(bs, n);
    BlankSegment(bs, n + 1);
    assert Rebuilt(page, bs, n + 2, 4) == [];
    assert Rebuilt(page, bs, n + 1, 3) == [bs[n + 1]];
    assert Rebuilt(page, bs, n, 2) == [bs[n]] + [bs[n + 1]];
  }
}
