/** Reading back what the exporter prints for blocks of every type but tables, and how blocks
    and pages are put together. */
module ReadBack {
  import opened Text
  import opened Cdom
  import opened Export
  import opened RoundTrip

  lemma SplitStep(s: string)
    requires s != []
    ensures s[0] == '\n' ==> Split(s, '\n') == [[]] + Split(s[1..], '\n')
    ensures s[0] != '\n' ==> var r := Split(s[1..], '\n'); Split(s, '\n') == [[s[0]] + r[0]] + r[1..]
  {}

  lemma {:induction false} SplitAcross(x: string, y: string)
    ensures Split(x + "\n" + y, '\n') == Split(x, '\n') + Split(y, '\n')
  {
    hide Split;
    var t := x + "\n" + y;
    SplitStep(t);
    if x == [] {
      assert t[1..] == y;
      SplitNone("", '\n');
    } else {
      SplitStep(x);
      SplitAcross(x[1..], y);
      assert t[0] == x[0] && t[1..] == x[1..] + "\n" + y;
      var a, b := Split(x[1..], '\n'), Split(y, '\n');
      if x[0] == '\n' {
        assert [[]] + (a + b) == ([[]] + a) + b;
      } else {
        assert (a + b)[0] == a[0] && (a + b)[1..] == a[1..] + b;
        var h := [[x[0]] + a[0]];
        assert h + (a[1..] + b) == (h + a[1..]) + b;
      }
    }
  }

  /** Two newlines at the end are two empty lines. */
  lemma SplitBlankEnd(x: string)
    ensures Split(x + "\n\n", '\n') == Split(x, '\n') + ["", ""]
  {
    SplitAcross(x, "\n");
    SplitEnd();
    hide Split;
    assert x + "\n" + "\n" == x + "\n\n";
  }

  // ---------- headings ----------

  /** How many hashes a line starts with. */
  function Hashes(s: string): (n: nat)
    ensures n <= |s|
  {
    if s != [] && s[0] == '#' then 1 + Hashes(s[1..]) else 0
  }

  lemma {:induction false} RepeatHashes(n: nat, rest: string)
    requires rest == [] || rest[0] != '#'
    ensures |Repeat("#", n)| == n && '\n' !in Repeat("#", n) && Hashes(Repeat("#", n) + rest) == n
  {
    if n == 0 {
      assert Repeat("#", n) + rest == rest;
    } else {
      RepeatHashes(n - 1, rest);
      assert (Repeat("#", n) + rest)[1..] == Repeat("#", n - 1) + rest;
    }
  }

  /** A heading is one line of as many hashes as its depth says, never more than six, a
      space and the trimmed text. */
  lemma HeadingReadsBack(b: Block, depth: nat)
    requires b.typ == Heading && b.children == [] && '\n' !in TrimSpace(b.text)
    ensures
      var lines := Split(Printed([b], depth), '\n');
      && |lines| == 3 && lines[1] == lines[2] == ""
      && Hashes(lines[0]) == (if depth < 6 then (if depth == 0 then 1 else depth + 1) else 6)
      && lines[0][Hashes(lines[0])..] == " " + TrimSpace(b.text)
  {
    hide Printed, TrimSpace, Split, Hashes, Repeat;
    var n := if depth == 0 then 1 else if depth + 1 > 6 then 6 else depth + 1;
    var rest := " " + TrimSpace(b.text);
    RepeatHashes(n, rest);
    HeadingPrinted(b, depth, n);
    var line := Repeat("#", n) + rest;
    SplitBlankEnd(line);
    SplitNone(line, '\n');
  }

  lemma HeadingPrinted(b: Block, depth: nat, n: nat)
    requires b.typ == Heading && b.children == []
    requires n == if depth == 0 then 1 else if depth + 1 > 6 then 6 else depth + 1
    ensures Printed([b], depth) == Repeat("#", n) + (" " + TrimSpace(b.text)) + "\n\n"
  {
    hide Printed, TrimSpace, Repeat;
    PrintedOne(b, depth);
    NothingPrinted(depth + 1);
    var h, t := Repeat("#", n), TrimSpace(b.text);
    assert h + " " + t + "\n\n" + [] == h + (" " + t) + "\n\n";
  }

  lemma NothingPrinted(depth: nat)
    ensures Printed([], depth) == []
  {}

  // ---------- quotes ----------

  function Marked(lines: seq<string>): (r: seq<string>)
    ensures |r| == |lines| && forall i :: 0 <= i < |r| ==> r[i] == "> " + lines[i]
  {
    seq(|lines|, i requires 0 <= i < |lines| => "> " + lines[i])
  }

  /** What is left of lines without their markers. */
  function Unmarked(lines: seq<string>): (r: seq<string>)
    requires forall i :: 0 <= i < |lines| ==> |lines[i]| >= 2
    ensures |r| == |lines| && forall i :: 0 <= i < |r| ==> r[i] == lines[i][2..]
  {
    seq(|lines|, i requires 0 <= i < |lines| => lines[i][2..])
  }

  lemma {:induction false} QuoteIsLines(lines: seq<string>)
    ensures PrintedQuote(lines) == Lines(Marked(lines))
  {
    if lines != [] {
      QuoteIsLines(lines[1..]);
      assert Marked(lines)[1..] == Marked(lines[1..]);
    }
  }

  /** Every line of a quote is marked, and without the marks they are the quoted text. */
  lemma QuoteReadsBack(b: Block, depth: nat)
    requires b.typ == Quote && b.children == []
    ensures
      var lines := Split(Printed([b], depth), '\n');
      && |lines| >= 3 && lines[|lines| - 2] == lines[|lines| - 1] == ""
      && (forall i :: 0 <= i < |lines| - 2 ==> "> " <= lines[i])
      && Join(Unmarked(lines[..|lines| - 2]), '\n') == b.text
  {
    hide Printed, Lines, Split;
    PrintedOne(b, depth);
    NothingPrinted(depth + 1);
    var src := Split(b.text, '\n');
    var marked := Marked(src);
    QuoteIsLines(src);
    forall i | 0 <= i < |marked|
      ensures '\n' !in marked[i]
    {
      assert src[i] in src;
    }
    assert Printed([b], depth) == Lines(marked) + "\n" by {
      assert (Lines(marked) + "\n") + [] == Lines(marked) + "\n";
    }
    SplitLines(marked, "\n");
    SplitEnd();
    var lines := Split(Printed([b], depth), '\n');
    assert lines == marked + ["", ""];
    assert lines[..|lines| - 2] == marked;
    assert Unmarked(marked) == src;
    JoinSplit(b.text, '\n');
  }

  // ---------- code ----------

  /** The text between the fences ends its last line. */
  function Closed(text: string): string {
    if text != [] && text[|text| - 1] == '\n' then text[..|text| - 1] else text
  }

  /** A code block is a fence, the lines of the text, a fence and a blank line. */
  lemma CodeReadsBack(b: Block, depth: nat)
    requires b.typ == Code && b.children == []
    ensures
      var lines := Split(Printed([b], depth), '\n');
      && |lines| >= 5 && lines[0] == "```" && lines[|lines| - 3] == "```"
          && lines[|lines| - 2] == lines[|lines| - 1] == ""
      && Join(lines[1..|lines| - 3], '\n') == Closed(b.text)
  {
    hide Printed, Split, Join, Closed;
    CodePrinted(b, depth);
    var t := Closed(b.text);
    var tail := "```" + "\n\n";
    SplitAcross("```", t + "\n" + tail);
    SplitAcross(t, tail);
    SplitBlankEnd("```");
    SplitNone("```", '\n');
    var inner := Split(t, '\n');
    var lines := Split(Printed([b], depth), '\n');
    assert lines == ["```"] + (inner + (["```"] + ["", ""]));
    assert lines[1..|lines| - 3] == inner;
    JoinSplit(t, '\n');
  }

  lemma CodePrinted(b: Block, depth: nat)
    requires b.typ == Code && b.children == []
    ensures Printed([b], depth) == "```" + "\n" + (Closed(b.text) + "\n" + ("```" + "\n\n"))
  {
    hide Printed;
    PrintedOne(b, depth);
    NothingPrinted(depth + 1);
    CodeHead(b, depth);
    ClosedEnds(b.text);
    hide PrintedHead, Closed;
    Regrouped(Closed(b.text) + "\n");
    assert PrintedHead(b, depth) + [] == PrintedHead(b, depth);
  }

  lemma ClosedEnds(t: string)
    ensures t + (if t != [] && t[|t| - 1] == '\n' then "" else "\n") == Closed(t) + "\n"
  {}

  lemma Regrouped(x: string)
    ensures "```\n" + x + "```\n\n" == "```" + "\n" + (x + ("```" + "\n\n"))
  {}

  lemma CodeHead(b: Block, depth: nat)
    requires b.typ == Code
    ensures
      PrintedHead(b, depth)
        == "```\n" + (b.text + (if b.text != [] && b.text[|b.text| - 1] == '\n' then "" else "\n")) + "```\n\n"
  {}

  // ---------- paragraphs and the rest ----------

  /** Types without a form of their own are printed as paragraphs. */
  predicate PrintedPlain(t: BlockType) {
    !(t in {Heading, Quote, Code, ListItem, Table, Image, PageBreak, Formula, List})
  }

  /** A paragraph, or a block of a type without a form of its own, is the lines of its trimmed
      text and two empty ones; a blank one is nothing at all. */
  lemma ParagraphReadsBack(b: Block, depth: nat)
    requires PrintedPlain(b.typ) && b.children == []
    ensures TrimSpace(b.text) != "" ==> Split(Printed([b], depth), '\n') == Split(TrimSpace(b.text), '\n') + ["", ""]
    ensures TrimSpace(b.text) != "" ==> Join(Split(TrimSpace(b.text), '\n'), '\n') == TrimSpace(b.text)
    ensures TrimSpace(b.text) == "" ==> Printed([b], depth) == ""
  {
    var t := TrimSpace(b.text);
    assert PrintedHead(b, depth) == if t != "" then t + "\n\n" else "";
    PrintedOne(b, depth);
    NothingPrinted(depth + 1);
    hide Printed, PrintedHead, Split, TrimSpace;
    assert PrintedHead(b, depth) + [] == PrintedHead(b, depth);
    if t != "" {
      SplitBlankEnd(t);
      JoinSplit(t, '\n');
    }
  }

  /** A formula is its trimmed text between two lines of dollar signs. */
  lemma FormulaReadsBack(b: Block, depth: nat)
    requires b.typ == Formula && b.children == []
    ensures Split(Printed([b], depth), '\n') == ["$$"] + Split(TrimSpace(b.text), '\n') + ["$$", "", ""]
  {
    hide PrintedHead, Printed, Split, TrimSpace;
    var t := TrimSpace(b.text);
    FormulaPrinted(b, depth);
    var end := "$$" + "\n\n";
    SplitAcross("$$", t + "\n" + end);
    SplitAcross(t, end);
    SplitBlankEnd("$$");
    SplitNone("$$", '\n');
    var s := Split(t, '\n');
    assert ["$$"] + (s + (["$$"] + ["", ""])) == ["$$"] + s + ["$$", "", ""];
  }

  lemma FormulaPrinted(b: Block, depth: nat)
    requires b.typ == Formula && b.children == []
    ensures Printed([b], depth) == "$$" + "\n" + (TrimSpace(b.text) + "\n" + ("$$" + "\n\n"))
  {
    hide Printed, TrimSpace;
    var t := TrimSpace(b.text);
    PrintedOne(b, depth);
    NothingPrinted(depth + 1);
    var h := "$$\n" + t + "\n$$\n\n";
    assert h + [] == h;
    assert h == "$$" + "\n" + (t + "\n" + ("$$" + "\n\n"));
  }

  /** The attribute as it is printed: nothing unless it is a text. */
  function TextAt(b: Block, name: string): (t: string)
    ensures name in b.attrs && b.attrs[name].Word? ==> t == b.attrs[name].text
    ensures name !in b.attrs || !b.attrs[name].Word? ==> t == ""
  {
    WordAt(b, name)
  }

  /** An image is its alternative text in brackets and its asset in round ones. */
  lemma ImageReadsBack(b: Block, depth: nat)
    requires b.typ == Image && b.children == []
    ensures Printed([b], depth) == "![" + TextAt(b, "alt") + "](asset:" + TextAt(b, "asset_id") + ")\n\n"
  {
    assert PrintedHead(b, depth) == "![" + TextAt(b, "alt") + "](asset:" + TextAt(b, "asset_id") + ")\n\n";
    PrintedOne(b, depth);
    NothingPrinted(depth + 1);
    hide Printed, PrintedHead;
    assert PrintedHead(b, depth) + [] == PrintedHead(b, depth);
  }

  /** A page break is a rule between empty lines. */
  lemma BreakReadsBack(b: Block, depth: nat)
    requires b.typ == PageBreak && b.children == []
    ensures Split(Printed([b], depth), '\n') == ["", "---", "", ""]
  {
    assert PrintedHead(b, depth) == "\n---\n\n";
    PrintedOne(b, depth);
    NothingPrinted(depth + 1);
    hide Printed, PrintedHead, Split;
    assert PrintedHead(b, depth) + [] == PrintedHead(b, depth);
    assert "\n---\n\n" == "" + "\n" + ("---" + "\n\n");
    SplitAcross("", "---" + "\n\n");
    SplitBlankEnd("---");
    SplitNone("", '\n');
    SplitNone("---", '\n');
  }

  /** An item is one line: two spaces for every level, its marker and its trimmed text. */
  lemma ItemReadsBack(b: Block, depth: nat)
    requires b.typ == ListItem && b.children == [] && '\n' !in TrimSpace(b.text)
    ensures
      var marker := if "ordered" in b.attrs && b.attrs["ordered"] == Flag(true) then "1. " else "- ";
      exists pad: string ::
        |pad| == 2 * depth && (forall i :: 0 <= i < |pad| ==> pad[i] == ' ')
        && Split(Printed([b], depth), '\n') == [pad + marker + TrimSpace(b.text), ""]
  {
    var marker := if "ordered" in b.attrs && b.attrs["ordered"] == Flag(true) then "1. " else "- ";
    var pad, t := Repeat("  ", depth), TrimSpace(b.text);
    assert PrintedHead(b, depth) == pad + marker + t + "\n";
    PadSpaces(depth);
    PrintedOne(b, depth);
    NothingPrinted(depth + 1);
    hide Printed, PrintedHead, Split, TrimSpace, Repeat;
    var line := pad + marker + t;
    assert line + "\n" + [] == line + "\n" + "";
    SplitAcross(line, "");
    SplitNone(line, '\n');
    SplitNone("", '\n');
    assert [line] + [""] == [line, ""];
  }

  lemma {:induction false} PadSpaces(n: nat)
    ensures |Repeat("  ", n)| == 2 * n && forall i :: 0 <= i < |Repeat("  ", n)| ==> Repeat("  ", n)[i] == ' '
  {
    if n > 0 {
      PadSpaces(n - 1);
    }
  }

  // ---------- blocks and pages put together ----------

  /** Blocks are printed one after the other, and so are a block and its children, these one level
      deeper; the children of a table are its rows. */
  lemma {:induction false} PrintedJoins(a: seq<Block>, b: seq<Block>, depth: nat)
    ensures Printed(a + b, depth) == Printed(a, depth) + Printed(b, depth)
    decreases |a|
  {
    hide Printed;
    if a == [] {
      assert a + b == b;
      NothingPrinted(depth);
    } else {
      PrintedJoins(a[1..], b, depth);
      PrintedFrom(a, 0, depth);
      PrintedFrom(a + b, 0, depth);
      assert (a + b)[1..] == a[1..] + b;
      var x, y, z := Printed([a[0]], depth), Printed(a[1..], depth), Printed(b, depth);
      assert x + (y + z) == (x + y) + z;
    }
  }

  lemma PrintedNested(b: Block, depth: nat)
    requires b.typ != Table
    ensures Printed([b], depth) == Printed([b.(children := [])], depth) + Printed(b.children, depth + 1)
  {
    hide Printed, TrimSpace;
    var leaf := b.(children := []);
    PrintedOne(b, depth);
    PrintedOne(leaf, depth);
    NothingPrinted(depth + 1);
    assert PrintedHead(leaf, depth) == PrintedHead(b, depth);
    hide PrintedHead;
    assert PrintedHead(b, depth) + [] == PrintedHead(b, depth);
  }

  const RULE: string := "\n---\n\n"

  /** Between two pages stands a rule between empty lines. */
  lemma {:induction false} PagesApart(a: seq<Page>, b: seq<Page>)
    requires a != [] && b != []
    ensures InOrder(a + b) == InOrder(a) + "\n---\n\n" + InOrder(b)
    decreases |a|
  {
    hide Printed, InOrder;
    PageFirst(a[0], a[1..]);
    PageFirst(a[0], a[1..] + b);
    assert a == [a[0]] + a[1..] && a + b == [a[0]] + (a[1..] + b);
    var x, y, z := Printed(a[0].blocks, 0), InOrder(a[1..]), InOrder(b);
    if |a| == 1 {
      NoPages();
      assert a[1..] + b == b && x + "" + "" == x;
    } else {
      PagesApart(a[1..], b);
      RegroupPages(x, y, z);
    }
  }

  lemma RegroupPages(x: string, y: string, z: string)
    ensures x + RULE + (y + RULE + z) == (x + RULE + y) + RULE + z
  {}

  lemma OnePage(p: Page)
    ensures InOrder([p]) == Printed(p.blocks, 0)
  {
    hide Printed;
    PageFirst(p, []);
    assert Printed(p.blocks, 0) + "" + "" == Printed(p.blocks, 0);
  }

  lemma NoPages()
    ensures InOrder([]) == ""
  {}

  lemma PageFirst(p: Page, rest: seq<Page>)
    ensures InOrder([p] + rest) == Printed(p.blocks, 0) + (if rest != [] then "\n---\n\n" else "") + InOrder(rest)
  {
    hide Printed;
    assert ([p] + rest)[1..] == rest;
  }
}
