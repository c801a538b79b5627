/** The markdown exporter. The functions say what is printed; the methods write it
    into a buffer. */
module Export {
  import opened Domain
  import opened Text
  import opened Cdom
  import opened Layout
  import opened Seqs
  import opened Preservation

  /** bytes.Buffer, holding text. */
  class Buffer {
    var text: string

    constructor ()
      ensures text == ""
    {
      text := "";
    }

    method Write(s: string)
      modifies this
      ensures text == old(text) + s
    {
      text := text + s;
    }
  }

  // ---------- tables ----------

  /** escapeMDCell. */
  function Escaped(s: string): string {
    ReplaceAll(ReplaceAll(s, '|', "\\|"), '\n', " ")
  }

  function Padded(cells: seq<string>, width: nat): (r: seq<string>)
    ensures |r| == width
  {
    seq(width, i requires 0 <= i < width => if i < |cells| then cells[i] else "")
  }

  function Bars(cells: seq<string>): string {
    if cells == [] then [] else " " + cells[0] + " |" + Bars(cells[1..])
  }

  function Line(cells: seq<string>): string { "|" + Bars(cells) }

  function Rule(width: nat): (r: seq<string>)
    ensures |r| == width && forall i :: 0 <= i < width ==> r[i] == "---"
  {
    seq(width, _ => "---")
  }

  function RowCells(row: Block): (r: seq<string>)
    ensures |r| == |row.children|
  {
    seq(|row.children|, c requires 0 <= c < |row.children| => Escaped(TrimSpace(row.children[c].text)))
  }

  /** The children of a table that are printed: rows with at least one cell. */
  function BodyRows(kids: seq<Block>): (r: seq<Block>)
    ensures forall k :: 0 <= k < |r| ==> r[k].typ == TableRow && r[k].children != []
  {
    if kids == [] then []
    else (if kids[0].typ == TableRow && kids[0].children != [] then [kids[0]] else []) + BodyRows(kids[1..])
  }

  function RowLines(rows: seq<Block>, width: nat): (r: seq<string>)
    ensures |r| == |rows| && forall k :: 0 <= k < |r| ==> r[k] == Line(Padded(RowCells(rows[k]), width))
  {
    seq(|rows|, k requires 0 <= k < |rows| => Line(Padded(RowCells(rows[k]), width)))
  }

  function TableLines(body: seq<Block>): (r: seq<string>)
    requires body != []
  {
    var width := |body[0].children|;
    RowLines(body[..1], width) + [Line(Rule(width))] + RowLines(body[1..], width)
  }

  /** writeTable. */
  function PrintedTable(t: Block): string {
    var body := BodyRows(t.children);
    if body == [] then [] else Lines(TableLines(body)) + "\n"
  }

  lemma BarsFirst(c: string, cells: seq<string>)
    ensures Bars([c] + cells) == " " + c + " |" + Bars(cells)
  {
    assert ([c] + cells)[1..] == cells;
  }

  lemma {:induction false} BarsAppend(a: seq<string>, b: seq<string>)
    ensures Bars(a + b) == Bars(a) + Bars(b)
  {
    hide Bars;
    if a == [] {
      NoBars();
      assert a + b == b;
    } else {
      BarsAppend(a[1..], b);
      BarsFirst(a[0], a[1..]);
      BarsFirst(a[0], a[1..] + b);
      assert a == [a[0]] + a[1..] && a + b == [a[0]] + (a[1..] + b);
      var x, y, z := " " + a[0] + " |", Bars(a[1..]), Bars(b);
      assert x + (y + z) == (x + y) + z;
    }
  }

  lemma BarsOne(c: string)
    ensures Bars([c]) == " " + c + " |"
  {
    assert [c][1..] == [] && Bars([]) == [];
  }

  method WriteRow(b: Buffer, cols: seq<string>, width: nat)
    modifies b
    ensures b.text == old(b.text) + Line(Padded(cols, width)) + "\n"
  {
    hide Bars;
    b.Write("|");
    assert Bars([]) == [] by { NoBars(); }
    for i := 0 to width
      invariant b.text == old(b.text) + ("|" + Bars(Padded(cols, width)[..i]))
    {
      var v := "";
      if i < |cols| {
        v := cols[i];
      }
      BarsAppend(Padded(cols, width)[..i], [v]);
      BarsOne(v);
      assert Padded(cols, width)[..i + 1] == Padded(cols, width)[..i] + [v];
      b.Write(" ");
      b.Write(v);
      b.Write(" |");
    }
    assert Padded(cols, width)[..width] == Padded(cols, width);
    b.Write("\n");
  }

  lemma NoBars()
    ensures Bars([]) == []
  {}

  method WriteRule(b: Buffer, width: nat)
    modifies b
    ensures b.text == old(b.text) + Line(Rule(width)) + "\n"
  {
    hide Bars;
    b.Write("|");
    NoBars();
    for i := 0 to width
      invariant b.text == old(b.text) + ("|" + Bars(Rule(width)[..i]))
    {
      BarsAppend(Rule(width)[..i], ["---"]);
      BarsOne("---");
      assert Rule(width)[..i + 1] == Rule(width)[..i] + ["---"];
      b.Write(" --- |");
    }
    assert Rule(width)[..width] == Rule(width);
    b.Write("\n");
  }

  lemma LinesOne(l: string)
    ensures Lines([l]) == l + "\n"
  {
    assert [l][1..] == [] && Lines([]) == [];
  }

  /** The rows collected from the first k children of a table. */
  function Collected(body: seq<Block>): (r: seq<seq<string>>)
    ensures |r| == |body| && forall k :: 0 <= k < |r| ==> r[k] == RowCells(body[k])
  {
    seq(|body|, k requires 0 <= k < |body| => RowCells(body[k]))
  }

  method CollectCells(row: Block) returns (cells: seq<string>)
    ensures cells == RowCells(row)
  {
    hide Escaped, TrimSpace;
    cells := [];
    for c := 0 to |row.children|
      invariant |cells| == c && forall j :: 0 <= j < c ==> cells[j] == RowCells(row)[j]
    {
      cells := cells + [Escaped(TrimSpace(row.children[c].text))];
    }
  }

  lemma BodyFrom(kids: seq<Block>, k: nat)
    requires k <= |kids|
    ensures k == |kids| ==> BodyRows(kids[k..]) == []
    ensures
      k < |kids| ==>
        BodyRows(kids[k..])
          == if kids[k].typ == TableRow && kids[k].children != [] then [kids[k]] + BodyRows(kids[k + 1..])
             else BodyRows(kids[k + 1..])
  {
    if k < |kids| {
      assert kids[k..][0] == kids[k] && kids[k..][1..] == kids[k + 1..];
    }
  }

  lemma NothingCollected()
    ensures Collected([]) == []
  {}

  lemma CollectedSnoc(body: seq<Block>, row: Block)
    ensures Collected(body + [row]) == Collected(body) + [RowCells(row)]
  {
    hide RowCells;
  }

  method CollectRows(table: Block) returns (rows: seq<seq<string>>)
    ensures rows == Collected(BodyRows(table.children))
  {
    hide RowCells, Collected, BodyRows;
    rows := [];
    var kids := table.children;
    ghost var body: seq<Block> := [];
    assert kids[0..] == kids && Collected([]) == [] by { NothingCollected(); }
    for k := 0 to |kids|
      invariant rows == Collected(body) && body + BodyRows(kids[k..]) == BodyRows(kids)
    {
      BodyFrom(kids, k);
      ghost var rest := BodyRows(kids[k + 1..]);
      if kids[k].typ != TableRow {
        continue;
      }
      var row := kids[k];
      var cells := CollectCells(row);
      if |cells| > 0 {
        assert body + ([row] + rest) == (body + [row]) + rest;
        CollectedSnoc(body, row);
        rows := rows + [cells];
        body := body + [row];
      }
    }
    BodyFrom(kids, |kids|);
    assert body + [] == body;
  }

  method WriteTable(b: Buffer, table: Block)
    modifies b
    ensures b.text == old(b.text) + PrintedTable(table)
  {
    hide RowCells, Line, Lines, Padded, Rule, BodyRows;
    ghost var body := BodyRows(table.children);
    var rows := CollectRows(table);
    if |rows| == 0 {
      return;
    }
    var width := |rows[0]|;
    WriteRow(b, rows[0], width);
    WriteRule(b, width);
    ghost var top := [Line(Padded(RowCells(body[0]), width)), Line(Rule(width))];
    ghost var tail := RowLines(body[1..], width);
    LinesOne(top[0]);
    LinesOne(top[1]);
    LinesAppend([top[0]], [top[1]]);
    assert top == [top[0]] + [top[1]];
    assert top + tail[..0] == top;
    for k := 1 to |rows|
      invariant b.text == old(b.text) + Lines(top + tail[..k - 1])
    {
      WriteRow(b, rows[k], width);
      assert tail[..k] == tail[..k - 1] + [tail[k - 1]];
      LinesOne(tail[k - 1]);
      LinesAppend(top + tail[..k - 1], [tail[k - 1]]);
      assert (top + tail[..k - 1]) + [tail[k - 1]] == top + tail[..k];
    }
    b.Write("\n");
    assert tail[..|tail|] == tail;
    assert RowLines(body[..1], width) == [top[0]];
    assert top + tail == TableLines(body);
  }

  // ---------- blocks ----------

  function Repeat(s: string, n: nat): string {
    if n == 0 then [] else s + Repeat(s, n - 1)
  }

  /** What a block prints before its children. */
  function PrintedHead(b: Block, depth: nat): string {
    var t := TrimSpace(b.text);
    match b.typ
    case Heading => Repeat("#", if depth == 0 then 1 else if depth + 1 > 6 then 6 else depth + 1) + " " + t + "\n\n"
    case Quote => PrintedQuote(Split(b.text, '\n')) + "\n"
    case Code => "```\n" + b.text + (if b.text != [] && b.text[|b.text| - 1] == '\n' then "" else "\n") + "```\n\n"
    case ListItem =>
      Repeat("  ", depth) + (if "ordered" in b.attrs && b.attrs["ordered"] == Flag(true) then "1. " else "- ") + t
          + "\n"
    case Table => PrintedTable(b)
    case Image => "![" + WordAt(b, "alt") + "](asset:" + WordAt(b, "asset_id") + ")\n\n"
    case PageBreak => "\n---\n\n"
    case Formula => "$$\n" + t + "\n$$\n\n"
    case List => ""
    case _ => if t != "" then t + "\n\n" else ""
  }

  function WordAt(b: Block, name: string): string {
    if name in b.attrs && b.attrs[name].Word? then b.attrs[name].text else ""
  }

  function PrintedQuote(lines: seq<string>): string {
    if lines == [] then [] else "> " + lines[0] + "\n" + PrintedQuote(lines[1..])
  }

  /** writeBlock, over consecutive blocks of one depth. */
  function Printed(bs: seq<Block>, depth: nat): string {
    if bs == [] then []
    else
      PrintedHead(bs[0], depth) + (if bs[0].typ == Table then [] else Printed(bs[0].children, depth + 1))
      + Printed(bs[1..], depth)
  }

  method WriteQuote(b: Buffer, lines: seq<string>)
    modifies b
    ensures b.text == old(b.text) + PrintedQuote(lines)
  {
    assert lines[0..] == lines;
    for k := 0 to |lines|
      invariant b.text + PrintedQuote(lines[k..]) == old(b.text) + PrintedQuote(lines)
    {
      assert lines[k..][0] == lines[k] && lines[k..][1..] == lines[k + 1..];
      ghost var before, rest := b.text, PrintedQuote(lines[k + 1..]);
      b.Write("> ");
      b.Write(lines[k]);
      b.Write("\n");
      assert b.text + rest == before + ("> " + lines[k] + "\n" + rest);
    }
  }

  /** What is written for a block itself, the children of a list apart. */
  method WriteHead(b: Buffer, blk: Block, depth: nat)
    modifies b
    ensures b.text == old(b.text) + PrintedHead(blk, depth)
  {
    hide PrintedTable, PrintedQuote, Repeat, TrimSpace, Split;
    match blk.typ
    case Heading => WriteHeading(b, blk, depth);
    case Quote =>
      WriteQuote(b, Split(blk.text, '\n'));
      b.Write("\n");
    case Code => WriteCode(b, blk.text);
    case ListItem => WriteItem(b, blk, depth);
    case Table => WriteTable(b, blk);
    case Image => b.Write("![" + WordAt(blk, "alt") + "](asset:" + WordAt(blk, "asset_id") + ")\n\n");
    case PageBreak => b.Write("\n---\n\n");
    case Formula => b.Write("$$\n" + TrimSpace(blk.text) + "\n$$\n\n");
    case List =>
    case _ =>
      if TrimSpace(blk.text) != "" {
        b.Write(TrimSpace(blk.text));
        b.Write("\n\n");
      }
  }

  method WriteHeading(b: Buffer, blk: Block, depth: nat)
    requires blk.typ == Heading
    modifies b
    ensures b.text == old(b.text) + PrintedHead(blk, depth)
  {
    hide Repeat, TrimSpace;
    var level := 1;
    if depth > 0 {
      level := depth + 1;
    }
    if level > 6 {
      level := 6;
    }
    b.Write(Repeat("#", level));
    b.Write(" ");
    b.Write(TrimSpace(blk.text));
    b.Write("\n\n");
  }

  method WriteCode(b: Buffer, text: string)
    modifies b
    ensures b.text == old(b.text)
      + ("```\n" + text + (if text != [] && text[|text| - 1] == '\n' then "" else "\n") + "```\n\n")
  {
    b.Write("```\n");
    b.Write(text);
    if !(text != [] && text[|text| - 1] == '\n') {
      b.Write("\n");
    }
    b.Write("```\n\n");
  }

  method WriteItem(b: Buffer, blk: Block, depth: nat)
    requires blk.typ == ListItem
    modifies b
    ensures b.text == old(b.text) + PrintedHead(blk, depth)
  {
    hide Repeat, TrimSpace;
    b.Write(Repeat("  ", depth));
    var marker := "- ";
    if "ordered" in blk.attrs && blk.attrs["ordered"] == Flag(true) {
      marker := "1. ";
    }
    b.Write(marker);
    b.Write(TrimSpace(blk.text));
    b.Write("\n");
  }

  lemma PrintedFrom(bs: seq<Block>, i: nat, depth: nat)
    requires i <= |bs|
    ensures i == 0 ==> bs[i..] == bs
    ensures i < |bs| ==> Printed(bs[i..], depth) == Printed([bs[i]], depth) + Printed(bs[i + 1..], depth)
    ensures Printed(bs[|bs|..], depth) == []
  {
    hide PrintedHead;
    if i < |bs| {
      assert bs[i..][0] == bs[i] && bs[i..][1..] == bs[i + 1..];
      PrintedOne(bs[i], depth);
    }
  }

  lemma PrintedOne(b: Block, depth: nat)
    ensures Printed([b], depth)
      == PrintedHead(b, depth) + (if b.typ == Table then [] else Printed(b.children, depth + 1))
  {
    hide PrintedHead;
    assert [b][1..] == [] && Printed([], depth) == [];
  }

  method WriteBlock(b: Buffer, blk: Block, depth: nat)
    modifies b
    ensures b.text == old(b.text) + Printed([blk], depth)
    decreases Size(blk.children), 1
  {
    hide PrintedHead, Printed;
    PrintedOne(blk, depth);
    if blk.typ == List {
      assert PrintedHead(blk, depth) == "" by { ListHead(blk, depth); }
      WriteBlocks(b, blk.children, depth + 1);
    } else {
      WriteHead(b, blk, depth);
      if blk.typ != Table {
        WriteBlocks(b, blk.children, depth + 1);
      }
    }
  }

  lemma ListHead(b: Block, depth: nat)
    requires b.typ == List
    ensures PrintedHead(b, depth) == ""
  {}

  method WriteBlocks(b: Buffer, bs: seq<Block>, depth: nat)
    modifies b
    ensures b.text == old(b.text) + Printed(bs, depth)
    decreases Size(bs), 0
  {
    hide PrintedHead, Printed;
    PrintedFrom(bs, 0, depth);
    for i := 0 to |bs|
      invariant b.text + Printed(bs[i..], depth) == old(b.text) + Printed(bs, depth)
    {
      ChildSmaller(bs, i);
      PrintedFrom(bs, i, depth);
      ghost var before, one, rest := b.text, Printed([bs[i]], depth), Printed(bs[i + 1..], depth);
      WriteBlock(b, bs[i], depth);
      assert (before + one) + rest == before + (one + rest);
    }
    PrintedFrom(bs, |bs|, depth);
  }

  // ---------- the document ----------

  datatype Exported = Body(text: string) | Refused(why: Invalid)

  function PrintedPages(ps: seq<Page>, sort: seq<Block> -> seq<Block>): string {
    if ps == [] then []
    else
      Printed(sort(ps[0].blocks), 0) + (if |ps| > 1 then "\n---\n\n" else "") + PrintedPages(ps[1..], sort)
  }

  class MarkdownExporter {
    /** The library's stable sort by reading order. */
    const sort: seq<Block> -> seq<Block>

    constructor (sort: seq<Block> -> seq<Block>)
      ensures this.sort == sort
    {
      this.sort := sort;
    }

    /** One turn of the loop over the pages; `rest` is what is still to come. */
    method WritePage(b: Buffer, page: Page, more: bool, ghost rest: string)
      modifies b
      ensures b.text + rest == old(b.text) + (Printed(sort(page.blocks), 0) + (if more then "\n---\n\n" else "") + rest)
    {
      hide Printed;
      ghost var before, body := b.text, Printed(sort(page.blocks), 0);
      WriteBlocks(b, sort(page.blocks), 0);
      if more {
        b.Write("\n---\n\n");
        assert b.text + rest == before + (body + "\n---\n\n" + rest);
      } else {
        assert b.text + rest == before + (body + "" + rest);
      }
    }

    method Export(d: Doc) returns (r: Exported)
      ensures Validate(d).Some? ==> r == Refused(Validate(d).value)
      ensures Validate(d).None? ==> d.pages.Some? && r == Body(PrintedPages(d.pages.value, sort))
    {
      hide Printed, ValidatePages;
      var err := Validate(d);
      if err.Some? {
        return Refused(err.value);
      }
      var b := new Buffer();
      var pages := d.pages.value;
      assert pages[0..] == pages;
      for i := 0 to |pages|
        invariant b.text + PrintedPages(pages[i..], sort) == PrintedPages(pages, sort)
      {
        assert pages[i..][0] == pages[i] && pages[i..][1..] == pages[i + 1..];
        WritePage(b, pages[i], i < |pages| - 1, PrintedPages(pages[i + 1..], sort));
      }
      assert b.text + [] == b.text;
      r := Body(b.text);
    }
  }

  // ---------- the export follows the stored order ----------

  function InOrder(ps: seq<Page>): string {
    if ps == [] then []
    else Printed(ps[0].blocks, 0) + (if |ps| > 1 then "\n---\n\n" else "") + InOrder(ps[1..])
  }

  lemma {:induction false} SortChangesNothing(ps: seq<Page>, sort: seq<Block> -> seq<Block>)
    requires forall i :: 0 <= i < |ps| ==> sort(ps[i].blocks) == ps[i].blocks
    ensures PrintedPages(ps, sort) == InOrder(ps)
  {
    hide Printed;
    if ps != [] {
      SortChangesNothing(ps[1..], sort);
    }
  }

  /** A normalized document is exported page by page, every page in pre-order. */
  lemma ExportFollowsReadingOrder(d: Doc, arrange: seq<Block> -> seq<Block>, isLetter: char -> bool,
                                  sort: seq<Block> -> seq<Block>)
    requires Validate(d) == None
    requires forall s: seq<Block> :: multiset(arrange(s)) == multiset(s)
    requires forall s: seq<Block> :: SortedBy(BY_ORDER, s, sort(s))
    ensures
      var n := Normalized(d, arrange, isLetter);
      Validate(n) == None && n.pages.Some? && PrintedPages(n.pages.value, sort) == InOrder(n.pages.value)
  {
    NormalizationCannotFail(d, arrange, isLetter);
    var n := Normalized(d, arrange, isLetter);
    assert d.pages.Some? && n.pages.Some?;
    forall i | 0 <= i < |n.pages.value|
      ensures sort(n.pages.value[i].blocks) == n.pages.value[i].blocks
    {
      ExporterSortIdentity(d, arrange, isLetter, i, sort(n.pages.value[i].blocks));
    }
    hide Normalized;
    SortChangesNothing(n.pages.value, sort);
  }
}
