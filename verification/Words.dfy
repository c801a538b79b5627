/** The words of a document: what clean-up keeps of them, and what the export holds. */
module Words {
  import opened Domain
  import opened Text
  import opened Cdom
  import opened Layout
  import opened Seqs
  import opened Postprocess
  import opened Preservation
  import opened Export
  import opened ReadBack

  /** The visible characters of a forest, in pre-order. */
  function Said(bs: seq<Block>): string {
    if bs == [] then [] else Visible(bs[0].text) + Said(bs[0].children) + Said(bs[1..])
  }

  lemma SaidFirst(b: Block, rest: seq<Block>)
    ensures Said([b] + rest) == Visible(b.text) + Said(b.children) + Said(rest)
    ensures Said([]) == []
  {
    hide Visible;
    assert ([b] + rest)[1..] == rest;
  }

  // ---------- clean-up ----------

  /** Containers carry no text of their own. */
  predicate ContainersBlank(bs: seq<Block>) {
    bs == [] ||
    (&& (bs[0].typ in {List, Table, TableRow} ==> Visible(bs[0].text) == "")
     && ContainersBlank(bs[0].children) && ContainersBlank(bs[1..]))
  }

  lemma NothingVisible(b: Block)
    requires Empty(b.(text := TrimSpace(b.text)))
    requires b.typ in {List, Table, TableRow} ==> Visible(b.text) == ""
    ensures Visible(b.text) == "" && b.children == []
  {
    VisibleTrim(b.text);
    hide TrimSpace;
  }

  /** Clean-up takes away no visible character, except the text of lists, tables and rows that
      end up without children. */
  lemma {:induction false} CleanKeepsWords(bs: seq<Block>)
    requires ContainersBlank(bs)
    ensures Said(Cleaned(bs)) == Said(bs)
    decreases bs
  {
    hide Visible, TrimSpace, Empty;
    if bs != [] {
      CleanKeepsWords(bs[0].children);
      CleanKeepsWords(bs[1..]);
      var b := bs[0].(children := Cleaned(bs[0].children));
      var c := b.(text := TrimSpace(b.text));
      VisibleTrim(b.text);
      SaidFirst(c, Cleaned(bs[1..]));
      SaidFirst(bs[0], bs[1..]);
      assert bs == [bs[0]] + bs[1..] && [] + Cleaned(bs[1..]) == Cleaned(bs[1..]);
      if Empty(c) {
        NothingVisible(b);
        NoneSaid();
        assert [] + [] + Said(Cleaned(bs[1..])) == Said(Cleaned(bs[1..]));
      }
    }
  }

  lemma NoneSaid()
    ensures Said([]) == []
  {}

  /** What is left is as it was but for its trimmed text and its own children. */
  lemma {:induction false} CleanKeepsFields(bs: seq<Block>)
    ensures
      forall b :: b in Cleaned(bs) ==>
        exists s :: s in bs && b == s.(text := TrimSpace(s.text), children := Cleaned(s.children))
    decreases |bs|
  {
    hide TrimSpace, Empty;
    if bs != [] {
      CleanKeepsFields(bs[1..]);
      var c := bs[0].(text := TrimSpace(bs[0].text), children := Cleaned(bs[0].children));
      forall b | b in Cleaned(bs)
        ensures exists s :: s in bs && b == s.(text := TrimSpace(s.text), children := Cleaned(s.children))
      {
        if b in Cleaned(bs[1..]) {
          var s :| s in bs[1..] && b == s.(text := TrimSpace(s.text), children := Cleaned(s.children));
          assert s in bs;
        } else {
          assert b == c && bs[0] in bs;
        }
      }
    }
  }

  /** Clean-up drops exactly the text blocks that have neither a visible character nor a child
      left, and the lists, tables and rows without a child left. */
  lemma PrunedIff(b: Block)
    ensures
      Cleaned([b]) == [] <==>
        && Cleaned(b.children) == []
        && (b.typ in {List, Table, TableRow}
            || (b.typ in {Paragraph, Unknown, Heading, Quote, Code, Formula, ListItem} && TrimSpace(b.text) == ""))
  {
    hide TrimSpace;
    assert [b][1..] == [];
  }

  /** Layout and clean-up leave the head of a document as it is, but note who did them. */
  lemma HeadKept(d: Doc, arrange: seq<Block> -> seq<Block>, isLetter: char -> bool)
    ensures
      var n := Normalized(d, arrange, isLetter);
      && n == d.(pages := n.pages, processing := n.processing) && (n.pages == None <==> d.pages == None)
      && n.processing
        == d.processing + map["layout_provider" := "geometric-layout", "layout_provider_version" := "1.2.0",
                              "postprocess_provider" := "cdom-postprocess", "postprocess_provider_version" := "1.0.0"]
  {
    hide AnalyzedPages, CleanedPages;
  }

  // ---------- what the export holds ----------

  function CellWords(cells: seq<Block>, width: nat): string
    decreases |cells|
  {
    if cells == [] || width == 0 then [] else Visible(cells[0].text) + CellWords(cells[1..], width - 1)
  }

  function RowWords(rows: seq<Block>, width: nat): string {
    if rows == [] then [] else CellWords(rows[0].children, width) + RowWords(rows[1..], width)
  }

  /** The words of a table: those of its cells, row by row, as far as the first row is wide. */
  function TableWords(t: Block): string {
    var body := BodyRows(t.children);
    if body == [] then [] else RowWords(body, |body[0].children|)
  }

  /** The words that are to be printed, in pre-order: of images, page breaks and lists none of
      their own, of tables those of the cells. */
  function ToPrint(bs: seq<Block>): string {
    if bs == [] then []
    else
      (if bs[0].typ == Table then TableWords(bs[0])
       else
         (if bs[0].typ in {Image, PageBreak, List} then "" else Visible(bs[0].text)) + ToPrint(bs[0].children))
      + ToPrint(bs[1..])
  }

  /** These characters stand in the text, in this order. */
  ghost predicate Holds(text: string, words: string) { Sub(words, Visible(text)) }

  lemma HoldsJoins(t1: string, w1: string, t2: string, w2: string)
    requires Holds(t1, w1) && Holds(t2, w2)
    ensures Holds(t1 + t2, w1 + w2)
  {
    VisibleAppend(t1, t2);
    SubAppend(w1, Visible(t1), w2, Visible(t2));
  }

  lemma HoldsItself(t: string)
    ensures Holds(t, Visible(t)) && Holds(TrimSpace(t), Visible(t))
  {
    VisibleTrim(t);
    SubSelf(Visible(t));
  }

  lemma HoldsNothing(t: string)
    ensures Holds(t, "")
  {
    SubNothing(Visible(t));
  }

  /** Decorations before and after take nothing away. */
  lemma HoldsBetween(pre: string, t: string, post: string, words: string)
    requires Holds(t, words)
    ensures Holds(pre + t + post, words)
  {
    hide Holds;
    HoldsNothing(pre);
    HoldsNothing(post);
    HoldsJoins(pre, "", t, words);
    HoldsJoins(pre + t, "" + words, post, "");
    assert "" + words + "" == words;
  }

  function LineWords(lines: seq<string>): string {
    if lines == [] then [] else Visible(lines[0]) + LineWords(lines[1..])
  }

  lemma {:induction false} QuoteHolds(lines: seq<string>)
    ensures Holds(PrintedQuote(lines), LineWords(lines))
    decreases |lines|
  {
    hide Holds, Visible;
    if lines == [] {
      HoldsNothing("");
    } else {
      QuoteHolds(lines[1..]);
      HoldsItself(lines[0]);
      HoldsBetween("> ", lines[0], "\n", Visible(lines[0]));
      HoldsJoins("> " + lines[0] + "\n", Visible(lines[0]), PrintedQuote(lines[1..]), LineWords(lines[1..]));
    }
  }

  lemma LineWordsFirst(l: string, ls: seq<string>)
    ensures LineWords([l] + ls) == Visible(l) + LineWords(ls)
    ensures LineWords([]) == []
  {
    hide Visible;
    assert ([l] + ls)[1..] == ls;
  }

  lemma {:induction false} SplitWords(s: string)
    ensures LineWords(Split(s, '\n')) == Visible(s)
    decreases |s|
  {
    hide Visible, LineWords, Split;
    if s == [] {
      assert Split(s, '\n') == [[]] by { SplitNone("", '\n'); }
      LineWordsFirst("", []);
      assert [""] + [] == [""];
      VisibleFirst(' ', []);
    } else {
      SplitStep(s);
      SplitWords(s[1..]);
      var r := Split(s[1..], '\n');
      VisibleFirst(s[0], s[1..]);
      assert s == [s[0]] + s[1..];
      if s[0] == '\n' {
        LineWordsFirst("", r);
        VisibleFirst(' ', []);
        assert VisibleChar('\n') == "";
        assert [] + LineWords(r) == LineWords(r);
      } else {
        assert r == [r[0]] + r[1..];
        LineWordsFirst(r[0], r[1..]);
        LineWordsFirst([s[0]] + r[0], r[1..]);
        VisibleFirst(s[0], r[0]);
        var a, b, c := VisibleChar(s[0]), Visible(r[0]), LineWords(r[1..]);
        assert (a + b) + c == a + (b + c);
      }
    }
  }

  // ---------- tables ----------

  lemma {:induction false} EscapedHolds(s: string)
    ensures Holds(Escaped(s), Visible(s))
    decreases |s|
  {
    hide Holds, Visible, Escaped;
    if s == [] {
      assert Visible(s) == "" by { VisibleFirst(' ', []); }
      HoldsNothing(Escaped(s));
    } else {
      EscapedHolds(s[1..]);
      EscapedFirst(s[0], s[1..]);
      assert s == [s[0]] + s[1..];
      VisibleFirst(s[0], s[1..]);
      CharHolds(s[0]);
      HoldsJoins(EscapedChar(s[0]), VisibleChar(s[0]), Escaped(s[1..]), Visible(s[1..]));
    }
  }

  function EscapedChar(c: char): string { if c == '|' then "\\|" else if c == '\n' then " " else [c] }

  lemma EscapedFirst(c: char, s: string)
    ensures Escaped([c] + s) == EscapedChar(c) + Escaped(s)
  {
    var t := ReplaceAll(s, '|', "\\|");
    assert ([c] + s)[1..] == s;
    var h := if c == '|' then "\\|" else [c];
    assert ReplaceAll([c] + s, '|', "\\|") == h + t;
    if c == '|' {
      assert h + t == ['\\'] + (['|'] + t) && (['\\'] + (['|'] + t))[1..] == ['|'] + t && (['|'] + t)[1..] == t;
      assert ReplaceAll(h + t, '\n', " ") == ['\\'] + (['|'] + ReplaceAll(t, '\n', " "));
      assert ['\\'] + (['|'] + ReplaceAll(t, '\n', " ")) == "\\|" + ReplaceAll(t, '\n', " ");
    } else {
      assert ([c] + t)[1..] == t;
    }
  }

  lemma CharHolds(c: char)
    ensures Holds(EscapedChar(c), VisibleChar(c))
  {
    if c == '|' {
      HoldsItself("|");
      HoldsBetween("\\", "|", "", Visible("|"));
      assert "\\" + "|" + "" == "\\|";
      assert Visible("|") == "|" by { VisibleFirst('|', []); assert ['|'] + [] == "|"; }
    } else if c == '\n' {
      HoldsNothing(" ");
      assert VisibleChar(c) == "";
    } else {
      HoldsItself([c]);
      VisibleFirst(c, []);
      assert [c] + [] == [c] && VisibleChar(c) + [] == VisibleChar(c);
    }
  }

  lemma CellHolds(text: string)
    ensures Holds(Escaped(TrimSpace(text)), Visible(text))
  {
    EscapedHolds(TrimSpace(text));
    VisibleTrim(text);
  }

  /** The bars of a row hold the words of its cells, as far as it is printed. */
  lemma {:induction false} BarsHold(texts: seq<string>, cells: seq<Block>, width: nat)
    requires |texts| == |cells| && forall i :: 0 <= i < |cells| ==> Holds(texts[i], Visible(cells[i].text))
    ensures Holds(Bars(Padded(texts, width)), CellWords(cells, width))
    decreases |cells|
  {
    hide Holds, Visible, Bars;
    if cells == [] || width == 0 {
      HoldsNothing(Bars(Padded(texts, width)));
    } else {
      var rest := Padded(texts[1..], width - 1);
      BarsHold(texts[1..], cells[1..], width - 1);
      assert Padded(texts, width) == [texts[0]] + rest;
      BarsFirst(texts[0], rest);
      HoldsBetween(" ", texts[0], " |", Visible(cells[0].text));
      HoldsJoins(" " + texts[0] + " |", Visible(cells[0].text), Bars(rest), CellWords(cells[1..], width - 1));
    }
  }

  lemma RowHolds(row: Block, width: nat)
    ensures Holds(Line(Padded(RowCells(row), width)) + "\n", CellWords(row.children, width))
  {
    hide Holds, Visible, Bars, Escaped, TrimSpace, CellWords;
    forall i | 0 <= i < |row.children|
      ensures Holds(RowCells(row)[i], Visible(row.children[i].text))
    {
      CellHolds(row.children[i].text);
    }
    BarsHold(RowCells(row), row.children, width);
    HoldsBetween("|", Bars(Padded(RowCells(row), width)), "\n", CellWords(row.children, width));
  }

  lemma {:induction false} RowsHold(rows: seq<Block>, width: nat)
    ensures Holds(Lines(RowLines(rows, width)), RowWords(rows, width))
    decreases |rows|
  {
    hide Holds, Line, RowCells, CellWords, Lines;
    if rows == [] {
      HoldsNothing(Lines(RowLines(rows, width)));
    } else {
      RowsHold(rows[1..], width);
      RowHolds(rows[0], width);
      var line := Line(Padded(RowCells(rows[0]), width));
      assert RowLines(rows, width) == [line] + RowLines(rows[1..], width);
      LinesFirst(line, RowLines(rows[1..], width));
      HoldsJoins(line + "\n", CellWords(rows[0].children, width), Lines(RowLines(rows[1..], width)),
            RowWords(rows[1..], width));
    }
  }

  lemma TableHolds(t: Block)
    ensures Holds(PrintedTable(t), TableWords(t))
  {
    hide Holds, RowLines, Lines, Line, CellWords;
    var body := BodyRows(t.children);
    if body == [] {
      HoldsNothing("");
    } else {
      var width := |body[0].children|;
      var top, rule, tail := RowLines(body[..1], width), [Line(Rule(width))], RowLines(body[1..], width);
      RowsHold(body[..1], width);
      RowsHold(body[1..], width);
      LinesAppend(top + rule, tail);
      LinesAppend(top, rule);
      HoldsNothing(Lines(rule));
      HoldsJoins(Lines(top), RowWords(body[..1], width), Lines(rule), "");
      HoldsJoins(Lines(top) + Lines(rule), RowWords(body[..1], width) + "", Lines(tail), RowWords(body[1..], width));
      OneRowFirst(body, width);
      HoldsBetween("", Lines(TableLines(body)), "\n", TableWords(t));
      assert "" + Lines(TableLines(body)) + "\n" == Lines(TableLines(body)) + "\n";
    }
  }

  lemma OneRowFirst(rows: seq<Block>, width: nat)
    requires rows != []
    ensures RowWords(rows[..1], width) + "" + RowWords(rows[1..], width) == RowWords(rows, width)
  {
    hide CellWords;
    assert rows[..1][1..] == [] && RowWords([], width) == "";
  }

  // ---------- blocks and pages ----------

  /** What a block prints holds its own words. */
  lemma HeadHolds(b: Block, depth: nat)
    requires b.typ != Table
    ensures Holds(PrintedHead(b, depth), if b.typ in {Image, PageBreak, List} then "" else Visible(b.text))
  {
    var t := TrimSpace(b.text);
    HoldsItself(b.text);
    hide Holds, Visible, TrimSpace, Repeat, PrintedQuote, Split;
    match b.typ
    case Heading =>
      var n := if depth == 0 then 1 else if depth + 1 > 6 then 6 else depth + 1;
      HoldsBetween(Repeat("#", n) + " ", t, "\n\n", Visible(b.text));
    case Quote =>
      QuoteHolds(Split(b.text, '\n'));
      SplitWords(b.text);
      HoldsBetween("", PrintedQuote(Split(b.text, '\n')), "\n", Visible(b.text));
      assert "" + PrintedQuote(Split(b.text, '\n')) == PrintedQuote(Split(b.text, '\n'));
    case Code =>
      var end := (if b.text != [] && b.text[|b.text| - 1] == '\n' then "" else "\n") + "```\n\n";
      HoldsBetween("```\n", b.text, end, Visible(b.text));
      assert PrintedHead(b, depth) == "```\n" + b.text + end;
    case ListItem =>
      var marker := if "ordered" in b.attrs && b.attrs["ordered"] == Flag(true) then "1. " else "- ";
      HoldsBetween(Repeat("  ", depth) + marker, t, "\n", Visible(b.text));
    case Image => HoldsNothing(PrintedHead(b, depth));
    case PageBreak => HoldsNothing(PrintedHead(b, depth));
    case List => HoldsNothing(PrintedHead(b, depth));
    case Formula => HoldsBetween("$$\n", t, "\n$$\n\n", Visible(b.text));
    case Table =>
    case _ =>
      HoldsBetween("", t, "\n\n", Visible(b.text));
      assert "" + t + "\n\n" == t + "\n\n";
      if t == "" {
        assert Visible(b.text) == "" by { VisibleTrim(b.text); VisibleFirst(' ', []); }
        HoldsNothing("");
      }
  }

  /** Whatever is printed of a forest holds the words to print, in pre-order. */
  lemma {:induction false} PrintedHolds(bs: seq<Block>, depth: nat)
    ensures Holds(Printed(bs, depth), ToPrint(bs))
    decreases bs
  {
    hide Holds, PrintedHead, Visible, TableWords;
    if bs == [] {
      HoldsNothing("");
    } else {
      var b, rest := bs[0], bs[1..];
      PrintedHolds(rest, depth);
      if b.typ == Table {
        TableHolds(b);
        assert PrintedHead(b, depth) == PrintedTable(b) by { TableHead(b, depth); }
        HoldsJoins(PrintedHead(b, depth), TableWords(b), Printed(rest, depth), ToPrint(rest));
        assert PrintedHead(b, depth) + [] == PrintedHead(b, depth);
      } else {
        HeadHolds(b, depth);
        PrintedHolds(b.children, depth + 1);
        var own := if b.typ in {Image, PageBreak, List} then "" else Visible(b.text);
        HoldsJoins(PrintedHead(b, depth), own, Printed(b.children, depth + 1), ToPrint(b.children));
        HoldsJoins(PrintedHead(b, depth) + Printed(b.children, depth + 1), own + ToPrint(b.children),
                   Printed(rest, depth), ToPrint(rest));
      }
    }
  }

  lemma TableHead(b: Block, depth: nat)
    requires b.typ == Table
    ensures PrintedHead(b, depth) == PrintedTable(b)
  {}

  function PagesToPrint(ps: seq<Page>): string {
    if ps == [] then [] else ToPrint(ps[0].blocks) + PagesToPrint(ps[1..])
  }

  lemma {:induction false} PagesHold(ps: seq<Page>)
    ensures Holds(InOrder(ps), PagesToPrint(ps))
    decreases |ps|
  {
    hide Holds, Printed, ToPrint;
    if ps == [] {
      HoldsNothing("");
    } else {
      PagesHold(ps[1..]);
      PrintedHolds(ps[0].blocks, 0);
      var gap := if |ps| > 1 then "\n---\n\n" else "";
      HoldsNothing(gap);
      HoldsJoins(Printed(ps[0].blocks, 0), ToPrint(ps[0].blocks), gap, "");
      assert ToPrint(ps[0].blocks) + "" == ToPrint(ps[0].blocks);
      HoldsJoins(Printed(ps[0].blocks, 0) + gap, ToPrint(ps[0].blocks), InOrder(ps[1..]), PagesToPrint(ps[1..]));
    }
  }

  /** The export of a normalized document holds the words of all its printed blocks, page by
      page in pre-order. */
  lemma ExportHoldsWords(d: Doc, arrange: seq<Block> -> seq<Block>, isLetter: char -> bool,
                         sort: seq<Block> -> seq<Block>)
    requires Validate(d) == None
    requires forall s: seq<Block> :: multiset(arrange(s)) == multiset(s)
    requires forall s: seq<Block> :: SortedBy(BY_ORDER, s, sort(s))
    ensures
      var n := Normalized(d, arrange, isLetter);
      n.pages.Some? && Holds(PrintedPages(n.pages.value, sort), PagesToPrint(n.pages.value))
  {
    hide Normalized, PrintedPages, Holds, Validate;
    ExportFollowsReadingOrder(d, arrange, isLetter, sort);
    PagesHold(Normalized(d, arrange, isLetter).pages.value);
  }
}
