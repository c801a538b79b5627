/** The geometric layout provider: order, headings, lists and tables, numbering. */
module Layout {
  import opened Domain
  import opened Text
  import opened Cdom
  import opened Recognize
  import opened Reconstruct
  import opened Seqs

  // ---------- headings ----------

  function Utf8Len(t: string): nat {
    if t == [] then 0
    else
      (if t[0] < '\U{0080}' then 1 else if t[0] < '\U{0800}' then 2 else if t[0] < '\U{10000}' then 3 else 4)
      + Utf8Len(t[1..])
  }

  /** looksLikeHeading: short, no list item, no pipe, no sentence mark but one final
      full stop, and at least one letter. */
  predicate LooksLikeHeading(text: string, isLetter: char -> bool) {
    var t := TrimSpace(text);
    && t != [] && Utf8Len(t) <= 80
    && !LooksLikeItem(t)
    && '|' !in t && '?' !in t && '!' !in t && '.' !in t[..|t| - 1]
    && exists i :: 0 <= i < |t| && isLetter(t[i])
  }

  function CountOf(s: string, c: char): nat {
    if s == [] then 0 else (if s[0] == c then 1 else 0) + CountOf(s[1..], c)
  }

  lemma {:induction false} CountPositive(s: string, c: char)
    ensures CountOf(s, c) == 0 <==> c !in s
  {
    if s != [] {
      CountPositive(s[1..], c);
      assert s == [s[0]] + s[1..];
    }
  }

  lemma {:induction false} CountLast(s: string, c: char)
    requires s != []
    ensures CountOf(s, c) == CountOf(s[..|s| - 1], c) + if s[|s| - 1] == c then 1 else 0
  {
    if |s| > 1 {
      CountLast(s[1..], c);
      assert s[..|s| - 1][1..] == s[1..][..|s| - 2];
    }
  }

  /** The only full stop of a text is at its end exactly when there is none before the end. */
  lemma OneFinalStop(t: string)
    requires t != []
    ensures (CountOf(t, '.') == 1 && t[|t| - 1] == '.') <==> (t[|t| - 1] == '.' && '.' !in t[..|t| - 1])
  {
    CountLast(t, '.');
    CountPositive(t[..|t| - 1], '.');
  }

  /** looksLikeHeading, as it goes over the text. */
  method HeadingText(text: string, isLetter: char -> bool) returns (r: bool)
    ensures r == LooksLikeHeading(text, isLetter)
  {
    hide TrimSpace, LooksLikeItem, CountOf, Utf8Len;
    var t := TrimSpace(text);
    if t == "" || Utf8Len(t) > 80 {
      return false;
    }
    if LooksLikeItem(t) {
      return false;
    }
    if '|' in t {
      return false;
    }
    OneFinalStop(t);
    for k := 0 to |t|
      invariant forall i :: 0 <= i < k ==> t[i] != '?' && t[i] != '!'
      invariant forall i :: 0 <= i < k && t[i] == '.' ==> CountOf(t, '.') == 1 && t[|t| - 1] == '.'
    {
      if t[k] == '.' || t[k] == '?' || t[k] == '!' {
        if t[k] == '.' && CountOf(t, '.') == 1 && t[|t| - 1] == '.' {
          continue;
        }
        StopInside(t, k);
        return false;
      }
    }
    var letters := 0;
    for k := 0 to |t|
      invariant letters > 0 <==> exists i :: 0 <= i < k && isLetter(t[i])
    {
      if isLetter(t[k]) {
        letters := letters + 1;
      }
    }
    r := letters != 0;
  }

  lemma StopInside(t: string, k: nat)
    requires k < |t|
    ensures t[k] == '.' && !(CountOf(t, '.') == 1 && t[|t| - 1] == '.') ==> '.' in t[..|t| - 1]
    ensures t[k] in t
  {
    OneFinalStop(t);
    assert k < |t| - 1 ==> t[..|t| - 1][k] == t[k];
  }

  function Typed(b: Block, isLetter: char -> bool): Block {
    if b.typ == Paragraph && LooksLikeHeading(b.text, isLetter) then b.(typ := Heading) else b
  }

  function TypedAll(bs: seq<Block>, isLetter: char -> bool): (r: seq<Block>)
    ensures |r| == |bs| && forall k :: 0 <= k < |bs| ==> r[k] == Typed(bs[k], isLetter)
  {
    seq(|bs|, k requires 0 <= k < |bs| => Typed(bs[k], isLetter))
  }

  // ---------- numbering ----------

  /** Numbers a forest in pre-order, continuing after `order`. */
  function Numbered(bs: seq<Block>, order: int): (r: (seq<Block>, int))
    ensures |r.0| == |bs|
  {
    if bs == [] then ([], order)
    else
      var (kids, o1) := Numbered(bs[0].children, order + 1);
      var (rest, o2) := Numbered(bs[1..], o1);
      ([bs[0].(order := order + 1, children := kids)] + rest, o2)
  }

  function Orders(bs: seq<Block>): seq<int> {
    if bs == [] then [] else [bs[0].order] + Orders(bs[0].children) + Orders(bs[1..])
  }

  function From(lo: int, n: nat): (s: seq<int>)
    ensures |s| == n && forall i :: 0 <= i < n ==> s[i] == lo + i
  {
    seq(n, i => lo + i)
  }

  function Size(bs: seq<Block>): nat {
    if bs == [] then 0 else 1 + Size(bs[0].children) + Size(bs[1..])
  }

  lemma {:induction false} ChildSmaller(bs: seq<Block>, i: nat)
    requires i < |bs|
    ensures Size(bs[i].children) < Size(bs)
  {
    if i > 0 {
      ChildSmaller(bs[1..], i - 1);
    }
  }

  lemma NumberedFirst(b: Block, rest: seq<Block>, order: int)
    ensures
      var (kids, o1) := Numbered(b.children, order + 1);
      var (more, o2) := Numbered(rest, o1);
      Numbered([b] + rest, order) == ([b.(order := order + 1, children := kids)] + more, o2)
  {
    assert ([b] + rest)[1..] == rest;
  }

  lemma OrdersFirst(b: Block, rest: seq<Block>)
    ensures Orders([b] + rest) == [b.order] + Orders(b.children) + Orders(rest)
  {
    assert ([b] + rest)[1..] == rest;
  }

  lemma FromJoins(lo: int, m: nat, n: nat)
    ensures From(lo, m) + From(lo + m, n) == From(lo, m + n)
    ensures From(lo, 1) == [lo]
  {}

  /** The numbers given are consecutive, in pre-order, one for every block. */
  lemma {:induction false} NumberedConsecutively(bs: seq<Block>, order: int)
    ensures Numbered(bs, order).1 == order + Size(bs)
    ensures Orders(Numbered(bs, order).0) == From(order + 1, Size(bs))
    decreases bs
  {
    hide Orders, Numbered, From;
    if bs == [] {
      NumberedNone(order);
    } else {
      var (kids, o1) := Numbered(bs[0].children, order + 1);
      var (rest, o2) := Numbered(bs[1..], o1);
      NumberedConsecutively(bs[0].children, order + 1);
      NumberedConsecutively(bs[1..], o1);
      assert bs == [bs[0]] + bs[1..];
      NumberedFirst(bs[0], bs[1..], order);
      OrdersFirst(bs[0].(order := order + 1, children := kids), rest);
      FromJoins(order + 1, 1, Size(bs[0].children));
      FromJoins(order + 1, 1 + Size(bs[0].children), Size(bs[1..]));
    }
  }

  lemma NumberedNone(order: int)
    ensures Numbered([], order) == ([], order) && Orders([]) == From(order + 1, 0)
  {}

  // ---------- the provider ----------

  function AnalyzedPage(p: Page, arrange: seq<Block> -> seq<Block>, isLetter: char -> bool, order: int): (Page, int) {
    var (blocks, last) := Numbered(Reconstructed(p.number, TypedAll(arrange(p.blocks), isLetter)), order);
    (p.(blocks := blocks), last)
  }

  function AnalyzedPages(ps: seq<Page>, arrange: seq<Block> -> seq<Block>, isLetter: char -> bool,
                         order: int): (r: (seq<Page>, int))
    ensures |r.0| == |ps|
  {
    if ps == [] then ([], order)
    else
      var (p, o1) := AnalyzedPage(ps[0], arrange, isLetter, order);
      var (rest, o2) := AnalyzedPages(ps[1..], arrange, isLetter, o1);
      ([p] + rest, o2)
  }

  const PROVENANCE := map["layout_provider" := "geometric-layout", "layout_provider_version" := "1.2.0"]

  function Analyzed(d: Doc, arrange: seq<Block> -> seq<Block>, isLetter: char -> bool): Doc {
    d.(pages := if d.pages == None then None else Some(AnalyzedPages(d.pages.value, arrange, isLetter, 0).0),
       processing := d.processing + PROVENANCE)
  }

  lemma NotedTwice(m: map<string, string>)
    ensures m["layout_provider" := "geometric-layout"]["layout_provider_version" := "1.2.0"] == m + PROVENANCE
  {}

  class GeometricProvider {
    /** What the library's stable sort makes of a page with the tolerant comparison
        of the source. */
    const arrange: seq<Block> -> seq<Block>
    const isLetter: char -> bool

    constructor (arrange: seq<Block> -> seq<Block>, isLetter: char -> bool)
      ensures this.arrange == arrange && this.isLetter == isLetter
    {
      this.arrange := arrange;
      this.isLetter := isLetter;
    }

    method AssignChildReadingOrder(blk: Block, order: int) returns (b: Block, last: int)
      ensures (b, last) == (blk.(children := Numbered(blk.children, order).0), Numbered(blk.children, order).1)
      decreases Size(blk.children)
    {
      var kids: seq<Block> := [];
      last := order;
      ghost var all := Numbered(blk.children, order);
      assert blk.children[0..] == blk.children && [] + all.0 == all.0;
      for i := 0 to |blk.children|
        invariant |kids| == i
        invariant all == (kids + Numbered(blk.children[i..], last).0, Numbered(blk.children[i..], last).1)
      {
        ghost var rest := Numbered(blk.children[i..], last);
        assert blk.children[i..][0] == blk.children[i] && blk.children[i..][1..] == blk.children[i + 1..];
        ChildSmaller(blk.children, i);
        var c := blk.children[i].(order := last + 1);
        c, last := AssignChildReadingOrder(c, last + 1);
        assert rest.0 == [c] + Numbered(blk.children[i + 1..], last).0;
        assert kids + ([c] + Numbered(blk.children[i + 1..], last).0)
            == (kids + [c]) + Numbered(blk.children[i + 1..], last).0;
        kids := kids + [c];
      }
      assert kids + [] == kids;
      b := blk.(children := kids);
    }

    method NumberBlocks(bs: seq<Block>, order: int) returns (out: seq<Block>, last: int)
      ensures (out, last) == Numbered(bs, order)
    {
      out, last := [], order;
      ghost var all := Numbered(bs, order);
      assert bs[0..] == bs && [] + all.0 == all.0;
      for j := 0 to |bs|
        invariant |out| == j
        invariant all == (out + Numbered(bs[j..], last).0, Numbered(bs[j..], last).1)
      {
        ghost var rest := Numbered(bs[j..], last);
        assert bs[j..][0] == bs[j] && bs[j..][1..] == bs[j + 1..];
        last := last + 1;
        var b := bs[j].(order := last);
        b, last := AssignChildReadingOrder(b, last);
        assert rest.0 == [b] + Numbered(bs[j + 1..], last).0;
        assert out + ([b] + Numbered(bs[j + 1..], last).0) == (out + [b]) + Numbered(bs[j + 1..], last).0;
        out := out + [b];
      }
      assert out + [] == out;
    }

    method TypeHeadings(bs: seq<Block>) returns (out: seq<Block>)
      ensures out == TypedAll(bs, isLetter)
    {
      hide LooksLikeHeading;
      out := bs;
      for j := 0 to |bs|
        invariant |out| == |bs|
        invariant forall k :: 0 <= k < |bs| ==> out[k] == if k < j then Typed(bs[k], isLetter) else bs[k]
      {
        if out[j].typ == Paragraph {
          var heading := HeadingText(out[j].text, isLetter);
          if heading {
            out := out[j := out[j].(typ := Heading)];
          }
        }
      }
    }

    /** One turn of the loop over the pages. */
    method AnalyzePage(page: Page, order: int) returns (p: Page, last: int)
      ensures (p, last) == AnalyzedPage(page, arrange, isLetter, order)
    {
      hide Reconstructed, Numbered, TypedAll;
      var blocks := arrange(page.blocks);
      blocks := TypeHeadings(blocks);
      blocks := ReconstructListsAndTables(page.number, blocks);
      blocks, last := NumberBlocks(blocks, order);
      p := page.(blocks := blocks);
    }

    method Analyze(d: Draft)
      modifies d
      ensures d.doc == Analyzed(old(d.doc), arrange, isLetter)
    {
      hide AnalyzedPage, AnalyzedPages;
      if d.doc.pages.Some? {
        var out := AnalyzePages(d.doc.pages.value);
        d.doc := d.doc.(pages := Some(out));
      }
      NotedTwice(d.doc.processing);
      var noted := d.doc.processing["layout_provider" := "geometric-layout"]["layout_provider_version" := "1.2.0"];
      d.doc := d.doc.(processing := noted);
    }

    /** The loop of Analyze over the pages. */
    method AnalyzePages(pages: seq<Page>) returns (out: seq<Page>)
      ensures out == AnalyzedPages(pages, arrange, isLetter, 0).0
    {
      hide AnalyzedPage, AnalyzedPages;
      out := [];
      var order := 0;
      ghost var all := AnalyzedPages(pages, arrange, isLetter, 0).0;
      assert pages[0..] == pages && [] + all == all;
      for i := 0 to |pages|
        invariant |out| == i
        invariant all == out + AnalyzedPages(pages[i..], arrange, isLetter, order).0
      {
        AnalyzedStep(pages, i, order, out);
        var p;
        p, order := AnalyzePage(pages[i], order);
        out := out + [p];
      }
      assert pages[|pages|..] == [];
      AnalyzedNone(order);
      assert out + [] == out;
    }

    lemma AnalyzedNone(order: int)
      ensures AnalyzedPages([], arrange, isLetter, order).0 == []
    {}

    /** One turn of that loop. */
    lemma AnalyzedStep(pages: seq<Page>, i: nat, order: int, out: seq<Page>)
      requires i < |pages|
      ensures
        var (p, o1) := AnalyzedPage(pages[i], arrange, isLetter, order);
        out + AnalyzedPages(pages[i..], arrange, isLetter, order).0
          == (out + [p]) + AnalyzedPages(pages[i + 1..], arrange, isLetter, o1).0
    {
      hide AnalyzedPage;
      var (p, o1) := AnalyzedPage(pages[i], arrange, isLetter, order);
      var rest := AnalyzedPages(pages[i + 1..], arrange, isLetter, o1).0;
      assert pages[i..][0] == pages[i] && pages[i..][1..] == pages[i + 1..];
      assert AnalyzedPages(pages[i..], arrange, isLetter, order).0 == [p] + rest;
      assert out + ([p] + rest) == (out + [p]) + rest;
    }
  }
}
