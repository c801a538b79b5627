/** From glyphs to the pages of a document: which glyphs make one block, where a space stands,
    and what every block of a page says and is. */
module PageWords {
  import opened Text
  import opened Cdom
  import opened Extract
  import opened Pages

  // ---------- the blocks of a line ----------

  function SizeOf(g: Glyph): real { if g.font <= 0.0 then 10.0 else g.font }

  /** A gap that ends a block, and one that makes a space. */
  predicate WideGap(gap: real, g: Glyph) { gap > 18.0 && gap > 2.5 * SizeOf(g) }

  predicate WordGap(gap: real, g: Glyph) { gap > 0.3 * SizeOf(g) }

  /** How far right the glyphs from a to b reach. */
  function Reach(items: seq<Glyph>, a: nat, b: nat): real
    requires a < b <= |items|
  {
    var last := items[b - 1].x + items[b - 1].w;
    if b == a + 1 || last > Reach(items, a, b - 1) then last else Reach(items, a, b - 1)
  }

  function LeftEnd(items: seq<Glyph>, a: nat, b: nat): real
    requires a < b <= |items|
  {
    if b == a + 1 || items[b - 1].x < LeftEnd(items, a, b - 1) then items[b - 1].x else LeftEnd(items, a, b - 1)
  }

  function LargestFont(items: seq<Glyph>, a: nat, b: nat): real
    requires a < b <= |items|
  {
    if b == a + 1 || SizeOf(items[b - 1]) > LargestFont(items, a, b - 1) then SizeOf(items[b - 1])
    else LargestFont(items, a, b - 1)
  }

  /** Their texts, with a space before each that a gap separates from all those before it. */
  function Spelled(items: seq<Glyph>, a: nat, b: nat): string
    requires a < b <= |items|
  {
    if b == a + 1 then items[a].s
    else
      Spelled(items, a, b - 1)
      + (if WordGap(items[b - 1].x - Reach(items, a, b - 1), items[b - 1]) then " " else "") + items[b - 1].s
  }

  function Stretch(items: seq<Glyph>, a: nat, b: nat): Segment
    requires a < b <= |items|
  {
    Segment(Spelled(items, a, b), LeftEnd(items, a, b), Reach(items, a, b), LargestFont(items, a, b))
  }

  /** The glyphs from a to b belong together: none stands too far right of those before it. */
  predicate OneBlock(items: seq<Glyph>, a: nat, b: nat)
    requires a < b <= |items|
  {
    forall i :: a < i < b ==> !WideGap(items[i].x - Reach(items, a, i), items[i])
  }

  /** e cuts the line into these segments: each is the glyphs between two cuts, which belong
      together, and at every cut there is a wide gap. */
  ghost predicate CutsInto(items: seq<Glyph>, a: nat, e: seq<nat>, segs: seq<Segment>) {
    && |e| == |segs| + 1 && segs != [] && e[0] == a && e[|segs|] == |items|
    && forall j :: 0 <= j < |segs| ==> Piece(items, e[j], e[j + 1], segs[j], j + 1 < |segs|)
  }

  predicate Piece(items: seq<Glyph>, a: nat, b: nat, s: Segment, more: bool) {
    && a < b <= |items| && s == Stretch(items, a, b) && OneBlock(items, a, b)
    && (more ==> b < |items| && WideGap(items[b].x - Reach(items, a, b), items[b]))
  }

  lemma {:induction false} CutsFrom(items: seq<Glyph>, a: nat, k: nat) returns (e: seq<nat>)
    requires a < k <= |items| && OneBlock(items, a, k)
    ensures CutsInto(items, a, e, Cuts(items[k..], Stretch(items, a, k)))
    decreases |items| - k
  {
    hide Stretch, OneBlock, WideGap, Cuts, ColGap, Extend, Begin, CutsInto;
    CutsStep(items, k, Stretch(items, a, k));
    if k == |items| {
      e := [a, k];
      LastPiece(items, a);
    } else {
      var g := items[k];
      WideIsColGap(g.x - Reach(items, a, k), g);
      ReachOf(items, a, k);
      if WideGap(g.x - Reach(items, a, k), g) {
        BeginsStretch(items, k);
        var rest := CutsFrom(items, k, k + 1);
        e := [a] + rest;
        CutBefore(items, a, k, rest, Cuts(items[k + 1..], Stretch(items, k, k + 1)));
      } else {
        ExtendsStretch(items, a, k);
        StillOne(items, a, k);
        e := CutsFrom(items, a, k + 1);
      }
    }
  }

  lemma CutsStep(items: seq<Glyph>, k: nat, cur: Segment)
    requires k <= |items|
    ensures k == |items| ==> Cuts(items[k..], cur) == [cur]
    ensures
      k < |items| ==>
        Cuts(items[k..], cur)
          == if items[k].x - cur.maxX > ColGap(items[k]) then [cur] + Cuts(items[k + 1..], Begin(items[k]))
             else Cuts(items[k + 1..], Extend(cur, items[k]))
  {
    if k < |items| {
      assert items[k..][0] == items[k] && items[k..][1..] == items[k + 1..];
    }
  }

  lemma LastPiece(items: seq<Glyph>, a: nat)
    requires a < |items| && OneBlock(items, a, |items|)
    ensures CutsInto(items, a, [a, |items|], [Stretch(items, a, |items|)])
  {
    hide Stretch, OneBlock;
    assert Piece(items, a, |items|, Stretch(items, a, |items|), false);
  }

  lemma ReachOf(items: seq<Glyph>, a: nat, k: nat)
    requires a < k < |items|
    ensures Stretch(items, a, k).maxX == Reach(items, a, k) && OneBlock(items, k, k + 1)
  {}

  lemma StillOne(items: seq<Glyph>, a: nat, k: nat)
    requires a < k < |items| && OneBlock(items, a, k) && !WideGap(items[k].x - Reach(items, a, k), items[k])
    ensures OneBlock(items, a, k + 1)
  {
    hide WideGap, Reach;
  }

  lemma WideIsColGap(gap: real, g: Glyph)
    ensures WideGap(gap, g) <==> gap > ColGap(g)
    ensures WordGap(gap, g) <==> gap > FontOf(g) * 0.3
  {}

  lemma BeginsStretch(items: seq<Glyph>, k: nat)
    requires k < |items|
    ensures Stretch(items, k, k + 1) == Begin(items[k])
  {}

  lemma ExtendsStretch(items: seq<Glyph>, a: nat, k: nat)
    requires a < k < |items|
    ensures Stretch(items, a, k + 1) == Extend(Stretch(items, a, k), items[k])
  {
    WideIsColGap(items[k].x - Reach(items, a, k), items[k]);
    hide WordGap;
  }

  lemma CutBefore(items: seq<Glyph>, a: nat, k: nat, rest: seq<nat>, segs: seq<Segment>)
    requires a < k < |items| && OneBlock(items, a, k) && WideGap(items[k].x - Reach(items, a, k), items[k])
    requires CutsInto(items, k, rest, segs)
    ensures CutsInto(items, a, [a] + rest, [Stretch(items, a, k)] + segs)
  {
    hide Stretch, OneBlock, WideGap;
    var e, all := [a] + rest, [Stretch(items, a, k)] + segs;
    forall j | 0 <= j < |all|
      ensures Piece(items, e[j], e[j + 1], all[j], j + 1 < |all|)
    {
      if j > 0 {
        assert Piece(items, rest[j - 1], rest[j], segs[j - 1], j < |segs|);
      }
    }
  }

  /** Two neighbouring glyphs of a line are in one block exactly when the second does not stand
      too far right of all that the block has before it; a space stands between them exactly
      when the gap is that of a word. */
  lemma LineSpelled(items: seq<Glyph>) returns (e: seq<nat>)
    requires items != []
    ensures CutsInto(items, 0, e, SegmentsOf(items))
  {
    BeginsStretch(items, 0);
    e := CutsFrom(items, 0, 1);
  }

  /** The block of a segment: its trimmed text, where it stands and how large it is. */
  predicate BlockFor(b: TextBlock, s: Segment, y: real) {
    && b.text == TrimSpace(s.text) && b.x == s.minX && b.x + b.w == s.maxX && b.y == y
    && b.font == s.font && b.h == s.font && b.confidence == 0.98
  }

  /** Which segments become blocks: those that are not blank, in their order. */
  ghost predicate BlocksFor(bs: seq<TextBlock>, segs: seq<Segment>, y: real)
    decreases |segs|
  {
    if segs == [] then bs == []
    else if TrimSpace(segs[0].text) == "" then BlocksFor(bs, segs[1..], y)
    else bs != [] && BlockFor(bs[0], segs[0], y) && BlocksFor(bs[1..], segs[1..], y)
  }

  lemma {:induction false} FlushedFor(segs: seq<Segment>, y: real)
    requires forall j :: 0 <= j < |segs| ==> segs[j].font > 0.0
    ensures BlocksFor(Flushed(segs, y), segs, y)
    decreases |segs|
  {
    hide TrimSpace;
    if segs != [] {
      FlushedFor(segs[1..], y);
      assert [] + Flushed(segs[1..], y) == Flushed(segs[1..], y);
      assert ([BlockOf(segs[0], y)] + Flushed(segs[1..], y))[1..] == Flushed(segs[1..], y);
    }
  }

  lemma {:induction false} FontPositive(items: seq<Glyph>, a: nat, b: nat)
    requires a < b <= |items|
    ensures LargestFont(items, a, b) > 0.0
  {
    if b > a + 1 {
      FontPositive(items, a, b - 1);
    }
  }

  /** The blocks of a line are the stretches between its wide gaps, the blank ones dropped. */
  lemma LineBlocksSpelled(l: GlyphLine, sort: seq<Glyph> -> seq<Glyph>) returns (e: seq<nat>)
    requires sort(l.items) != []
    ensures
      var segs := SegmentsOf(sort(l.items));
      CutsInto(sort(l.items), 0, e, segs) && BlocksFor(LineBlocks(l, sort), segs, l.y)
  {
    var items := sort(l.items);
    e := LineSpelled(items);
    var segs := SegmentsOf(items);
    forall j | 0 <= j < |segs|
      ensures segs[j].font > 0.0
    {
      assert Piece(items, e[j], e[j + 1], segs[j], j + 1 < |segs|);
      FontPositive(items, e[j], e[j + 1]);
    }
    FlushedFor(segs, l.y);
  }

  // ---------- an extracted page ----------

  /** All texts of a page in one. */
  function WholeText(bs: seq<TextBlock>): string {
    if bs == [] then [] else bs[0].text + WholeText(bs[1..])
  }

  lemma {:induction false} CountsCharacters(bs: seq<TextBlock>)
    ensures CharCount(bs) == |WholeText(bs)|
    decreases |bs|
  {
    if bs != [] {
      CountsCharacters(bs[1..]);
    }
  }

  lemma {:induction false} WholeTextHas(bs: seq<TextBlock>, c: char)
    ensures c in WholeText(bs) <==> exists i :: 0 <= i < |bs| && c in bs[i].text
    decreases |bs|
  {
    if bs != [] {
      WholeTextHas(bs[1..], c);
      if c in bs[0].text {
        assert c in bs[0].text;
      } else if exists i :: 0 <= i < |bs| && c in bs[i].text {
        var i :| 0 <= i < |bs| && c in bs[i].text;
        assert bs[1..][i - 1] == bs[i];
      }
      if c in WholeText(bs[1..]) {
        var i :| 0 <= i < |bs[1..]| && c in bs[1..][i].text;
        assert bs[i + 1] == bs[1..][i];
      }
    }
  }

  /** A page as it is extracted: its number, its size or that of US letter when it has no area,
      the count of its characters, and its language by the characters it has. */
  lemma ExtractedPage(n: int, w: real, h: real, texts: seq<Glyph>, sort: seq<Glyph> -> seq<Glyph>)
    ensures
      var p := PageOfGlyphs(n, w, h, texts, sort);
      var all := WholeText(p.blocks);
      && p.number == n && p.blocks == AllBlocks(LinesOf(texts), sort) && p.charCount == |all|
      && (if w > 0.0 && h > 0.0 then p.width == w && p.height == h else p.width == 612.0 && p.height == 792.0)
      && (p.language == "vi" <==> exists c :: c in all && c >= '\U{0100}')
      && (p.language == "und" <==> p.blocks == [])
      && (p.language == "en" <==> p.blocks != [] && forall c :: c in all ==> c < '\U{0100}')
  {
    hide AllBlocks, LinesOf, WholeText, GuessLanguage;
    var bs := AllBlocks(LinesOf(texts), sort);
    CountsCharacters(bs);
    LanguageByCharacters(bs);
  }

  /** Some character is beyond U+00FF. */
  predicate Beyond(bs: seq<TextBlock>) {
    exists i :: 0 <= i < |bs| && exists k :: 0 <= k < |bs[i].text| && bs[i].text[k] >= '\U{0100}'
  }

  lemma BeyondIf(bs: seq<TextBlock>, c: char)
    requires c in WholeText(bs) && c >= '\U{0100}'
    ensures Beyond(bs)
  {
    WholeTextHas(bs, c);
    hide WholeText;
    var i :| 0 <= i < |bs| && c in bs[i].text;
    var k :| 0 <= k < |bs[i].text| && bs[i].text[k] == c;
  }

  lemma BeyondHas(bs: seq<TextBlock>) returns (c: char)
    requires Beyond(bs)
    ensures c in WholeText(bs) && c >= '\U{0100}'
  {
    var i :| 0 <= i < |bs| && exists k :: 0 <= k < |bs[i].text| && bs[i].text[k] >= '\U{0100}';
    var k :| 0 <= k < |bs[i].text| && bs[i].text[k] >= '\U{0100}';
    c := bs[i].text[k];
    hide Beyond;
    WholeTextHas(bs, c);
    hide WholeText;
    assert c in bs[i].text;
  }

  lemma GuessIs(bs: seq<TextBlock>)
    ensures GuessLanguage(bs) == if Beyond(bs) then "vi" else if bs == [] then "und" else "en"
    ensures Beyond(bs) ==> bs != []
  {}

  lemma LanguageByCharacters(bs: seq<TextBlock>)
    ensures
      var all := WholeText(bs);
      && (GuessLanguage(bs) == "vi" <==> exists c :: c in all && c >= '\U{0100}')
      && (GuessLanguage(bs) == "und" <==> bs == [])
      && (GuessLanguage(bs) == "en" <==> bs != [] && forall c :: c in all ==> c < '\U{0100}')
  {
    GuessIs(bs);
    hide WholeText, GuessLanguage, Beyond;
    if Beyond(bs) {
      var c := BeyondHas(bs);
    }
    forall c | c in WholeText(bs) && c >= '\U{0100}'
      ensures Beyond(bs)
    {
      BeyondIf(bs, c);
    }
  }

  // ---------- the pages of a document ----------

  /** A page that is not read by OCR has the extracted blocks: their texts in order, the page's
      language and their confidence, headings from font size 16 on, boxes that grow downwards. */
  lemma DigitalPageSays(ps: seq<PageText>, i: nat, mixed: bool, byPage: map<int, OcrResult>)
    requires i < |ps| && (mixed ==> Covered(ps, byPage)) && (!mixed || ps[i].charCount >= 40)
    ensures
      var p, q := ps[i], PagesOf(ps, mixed, byPage)[i];
      && q.number == p.number && q.width == p.width && q.height == p.height && q.rotation == 0
      && q.language == p.language && |q.blocks| == |p.blocks|
      && forall k :: 0 <= k < |p.blocks| ==>
           var b, t := q.blocks[k], p.blocks[k];
           && b.text == t.text && b.language == p.language && b.confidence == t.confidence
           && b.typ == (if t.font >= 16.0 then Heading else Paragraph) && b.children == [] && b.attrs == map[]
           && b.bbox == BBox(t.x, p.height - t.y - t.h, t.x + t.w, p.height - t.y)
           && b.order == q.blocks[0].order + k
  {
    hide BlockName;
  }

  /** A page that is read by OCR has one block: what OCR returned, within margins of 72. */
  lemma OcrPageSays(ps: seq<PageText>, i: nat, byPage: map<int, OcrResult>)
    requires i < |ps| && Covered(ps, byPage) && ps[i].charCount < 40
    ensures
      var p, q, r := ps[i], PagesOf(ps, true, byPage)[i], byPage[ps[i].number];
      && q.number == p.number && q.width == p.width && q.height == p.height && q.rotation == 0
      && q.language == r.language && |q.blocks| == 1
      && OcrSays(q.blocks[0], p.width, p.height, r)
  {
    hide OcrName;
  }

  predicate OcrSays(b: Block, width: real, height: real, r: OcrResult) {
    && b.text == r.text && b.language == r.language && b.confidence == r.confidence
    && b.typ == Paragraph && b.children == [] && b.attrs == map[]
    && b.bbox == BBox(72.0, 72.0, width - 72.0, height - 72.0)
  }

  /** So has every page of a scanned document, pages beyond those extracted as US letter. */
  lemma ScannedPageSays(ps: seq<PageText>, n: nat, byPage: map<int, OcrResult>, i: nat)
    requires i < n && forall k :: 1 <= k <= n ==> k in byPage
    ensures
      var q, r := ScannedPages(ps, n, byPage)[i], byPage[i + 1];
      && q.number == i + 1 && q.language == r.language && q.rotation == 0 && |q.blocks| == 1
      && (q.width, q.height) == (if i < |ps| then (ps[i].width, ps[i].height) else (612.0, 792.0))
      && OcrSays(q.blocks[0], q.width, q.height, r) && q.blocks[0].order == i + 1
  {
    hide OcrName;
  }

  // ---------- glyphs to page ----------

  function LinesSaid(lines: seq<GlyphLine>, sort: seq<Glyph> -> seq<Glyph>): string {
    if lines == [] then [] else Said(sort(lines[0].items)) + LinesSaid(lines[1..], sort)
  }

  function PageSaid(bs: seq<Block>): string {
    if bs == [] then [] else Visible(bs[0].text) + PageSaid(bs[1..])
  }

  lemma {:induction false} AllBlocksSay(lines: seq<GlyphLine>, sort: seq<Glyph> -> seq<Glyph>)
    ensures BlocksSay(AllBlocks(lines, sort)) == LinesSaid(lines, sort)
    decreases |lines|
  {
    hide LineBlocks, Said, BlocksSay;
    if lines == [] {
      NoBlocksSay();
    } else {
      AllBlocksSay(lines[1..], sort);
      LineSaysAll(lines[0], sort);
      BlocksSayAppend(LineBlocks(lines[0], sort), AllBlocks(lines[1..], sort));
    }
  }

  lemma NoBlocksSay()
    ensures BlocksSay([]) == []
  {}

  lemma BlocksSayFirst(b: TextBlock, rest: seq<TextBlock>)
    ensures BlocksSay([b] + rest) == Visible(b.text) + BlocksSay(rest)
  {
    hide Visible;
    assert ([b] + rest)[1..] == rest;
  }

  lemma {:induction false} BlocksSayAppend(a: seq<TextBlock>, b: seq<TextBlock>)
    ensures BlocksSay(a + b) == BlocksSay(a) + BlocksSay(b)
    decreases |a|
  {
    hide BlocksSay, Visible;
    if a == [] {
      NoBlocksSay();
      assert a + b == b;
    } else {
      BlocksSayAppend(a[1..], b);
      BlocksSayFirst(a[0], a[1..]);
      BlocksSayFirst(a[0], a[1..] + b);
      assert a == [a[0]] + a[1..] && a + b == [a[0]] + (a[1..] + b);
      var x, y, z := Visible(a[0].text), BlocksSay(a[1..]), BlocksSay(b);
      assert x + (y + z) == (x + y) + z;
    }
  }

  lemma {:induction false} SameTexts(bs: seq<Block>, ts: seq<TextBlock>)
    requires |bs| == |ts| && forall k :: 0 <= k < |bs| ==> bs[k].text == ts[k].text
    ensures PageSaid(bs) == BlocksSay(ts)
    decreases |bs|
  {
    hide Visible;
    if bs != [] {
      SameTexts(bs[1..], ts[1..]);
    }
  }

  /** A digital page says what its glyphs say: the visible characters of its lines, each from
      left to right. */
  lemma PageSaysItsGlyphs(ps: seq<PageText>, i: nat, mixed: bool, byPage: map<int, OcrResult>,
                          n: int, w: real, h: real, texts: seq<Glyph>, sort: seq<Glyph> -> seq<Glyph>)
    requires i < |ps| && (mixed ==> Covered(ps, byPage)) && (!mixed || ps[i].charCount >= 40)
    requires ps[i] == PageOfGlyphs(n, w, h, texts, sort)
    ensures PageSaid(PagesOf(ps, mixed, byPage)[i].blocks) == LinesSaid(LinesOf(texts), sort)
  {
    hide PagesOf, LinesOf, AllBlocks, PageSaid, LinesSaid, BlocksSay;
    DigitalPageSays(ps, i, mixed, byPage);
    ExtractedPage(n, w, h, texts, sort);
    AllBlocksSay(LinesOf(texts), sort);
    SameTexts(PagesOf(ps, mixed, byPage)[i].blocks, ps[i].blocks);
  }
}
