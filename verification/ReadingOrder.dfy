/** What the layout stage's comparison of two blocks orders, and what it makes of a page
    whose blocks come from extracted lines. */
module ReadingOrder {
  import opened Text
  import opened Cdom
  import opened Recognize
  import opened Extract
  import opened Pages

  // ---------- the comparison ----------

  /** The comparison handed to the library's sort. */
  predicate Before(a: Block, b: Block) {
    if Abs(a.bbox.y2 - b.bbox.y2) > 2.0 then a.bbox.y2 > b.bbox.y2 else a.bbox.x1 < b.bbox.x1
  }

  predicate SameBand(a: Block, b: Block) { Abs(a.bbox.y2 - b.bbox.y2) <= 2.0 }

  /** Being within the tolerance is transitive, so that the page falls into bands. */
  ghost predicate Banded(bs: seq<Block>) {
    forall a, b, c :: a in bs && b in bs && c in bs && SameBand(a, b) && SameBand(b, c) ==> SameBand(a, c)
  }

  /** r is s rearranged, and no two neighbours are the wrong way round. */
  ghost predicate Arranged(s: seq<Block>, r: seq<Block>) {
    multiset(r) == multiset(s) && forall i :: 0 <= i < |r| - 1 ==> !Before(r[i + 1], r[i])
  }

  /** Left to right in a band, and of two bands the one with the larger y2 first. */
  predicate InOrder(a: Block, b: Block) {
    if SameBand(a, b) then a.bbox.x1 <= b.bbox.x1 else a.bbox.y2 > b.bbox.y2
  }

  lemma InOrderChains(a: Block, b: Block, c: Block)
    requires InOrder(a, b) && InOrder(b, c) && (SameBand(a, b) && SameBand(b, c) ==> SameBand(a, c))
    requires SameBand(b, a) && SameBand(a, c) ==> SameBand(b, c)
    requires SameBand(a, c) && SameBand(c, b) ==> SameBand(a, b)
    ensures InOrder(a, c)
  {}

  lemma {:induction false} FromNeighbours(r: seq<Block>, i: nat, j: nat)
    requires Banded(r) && i < j < |r| && forall k :: 0 <= k < |r| - 1 ==> InOrder(r[k], r[k + 1])
    ensures InOrder(r[i], r[j])
    decreases j - i
  {
    hide InOrder, SameBand;
    assert InOrder(r[j - 1], r[j]);
    if i < j - 1 {
      FromNeighbours(r, i, j - 1);
      InOrderChains(r[i], r[j - 1], r[j]);
    }
  }

  /** However the sort proceeds, on a page of bands neighbours in order mean that every pair
      is: bands by falling y2, each left to right. */
  lemma BandsSorted(s: seq<Block>, r: seq<Block>)
    requires Banded(s) && Arranged(s, r)
    ensures forall i, j :: 0 <= i < j < |r| ==> InOrder(r[i], r[j])
  {
    hide SameBand;
    forall b | b in r
      ensures b in s
    {
      assert b in multiset(r);
    }
    assert Banded(r);
    forall k | 0 <= k < |r| - 1
      ensures InOrder(r[k], r[k + 1])
    {
      NotBefore(r[k], r[k + 1]);
    }
    forall i, j | 0 <= i < j < |r|
      ensures InOrder(r[i], r[j])
    {
      FromNeighbours(r, i, j);
    }
  }

  lemma NotBefore(a: Block, b: Block)
    ensures InOrder(a, b) <==> !Before(b, a)
  {}

  /** A band is not broken up by blocks of other bands. */
  lemma BandsStayTogether(s: seq<Block>, r: seq<Block>, i: nat, j: nat, k: nat)
    requires Banded(s) && Arranged(s, r) && i < j < k < |r| && SameBand(r[i], r[k])
    ensures SameBand(r[i], r[j])
  {
    BandsSorted(s, r);
    assert InOrder(r[i], r[j]) && InOrder(r[j], r[k]);
    assert r[i] in s && r[j] in s && r[k] in s by {
      assert r[i] in multiset(r) && r[j] in multiset(r) && r[k] in multiset(r);
    }
  }

  // ---------- when there is an arrangement ----------

  /** No pair is the wrong way round. */
  predicate Ordered(r: seq<Block>) {
    forall i, j :: 0 <= i < j < |r| ==> !Before(r[j], r[i])
  }

  /** Each is to stand before the one ahead of it, and the last is the first. */
  predicate Circle(c: seq<Block>) {
    |c| > 1 && c[0] == c[|c| - 1] && forall i :: 0 <= i < |c| - 1 ==> Before(c[i + 1], c[i])
  }

  ghost predicate Among(c: seq<Block>, s: seq<Block>) { forall b :: b in c ==> b in s }

  ghost predicate NoCircle(s: seq<Block>) { forall c :: Among(c, s) ==> !Circle(c) }

  lemma {:induction false} Pigeons(p: seq<nat>, m: nat) returns (a: nat, b: nat)
    requires |p| > m && forall k :: 0 <= k < |p| ==> p[k] < m
    ensures a < b < |p| && p[a] == p[b]
    decreases m
  {
    if exists k :: 0 <= k < |p| - 1 && p[k] == p[|p| - 1] {
      a :| 0 <= a < |p| - 1 && p[a] == p[|p| - 1];
      b := |p| - 1;
    } else {
      // the last hole is taken by the last pigeon; the others move up
      var last := p[|p| - 1];
      var q := seq(|p| - 1, k requires 0 <= k < |p| - 1 => if p[k] > last then p[k] - 1 else p[k]);
      a, b := Pigeons(q, m - 1);
    }
  }

  predicate Preceded(s: seq<Block>, i: nat)
    requires i < |s|
  {
    exists j :: 0 <= j < |s| && Before(s[j], s[i])
  }

  /** Where everything has something that must stand before it, one can walk back for ever. */
  lemma {:induction false} Walk(s: seq<Block>, n: nat) returns (p: seq<nat>)
    requires s != [] && forall i :: 0 <= i < |s| ==> Preceded(s, i)
    ensures |p| == n + 1 && forall k :: 0 <= k <= n ==> p[k] < |s|
    ensures forall k :: 0 <= k < n ==> Before(s[p[k + 1]], s[p[k]])
    decreases n
  {
    if n == 0 {
      p := [0];
    } else {
      p := Walk(s, n - 1);
      assert Preceded(s, p[n - 1]);
      var j :| 0 <= j < |s| && Before(s[j], s[p[n - 1]]);
      p := p + [j];
    }
  }

  lemma WalkCloses(s: seq<Block>, p: seq<nat>, a: nat, b: nat) returns (c: seq<Block>)
    requires a < b < |p| && p[a] == p[b] && forall k :: 0 <= k < |p| ==> p[k] < |s|
    requires forall k :: 0 <= k < |p| - 1 ==> Before(s[p[k + 1]], s[p[k]])
    ensures Among(c, s) && Circle(c)
  {
    hide Before;
    c := seq(b - a + 1, k requires 0 <= k < b - a + 1 => s[p[a + k]]);
    forall i | 0 <= i < |c| - 1
      ensures Before(c[i + 1], c[i])
    {
      assert Before(s[p[a + i + 1]], s[p[a + i]]);
    }
  }

  lemma First(s: seq<Block>) returns (i: nat)
    requires s != [] && NoCircle(s)
    ensures i < |s| && forall j :: 0 <= j < |s| ==> !Before(s[j], s[i])
  {
    hide Before, Circle;
    if forall i :: 0 <= i < |s| ==> Preceded(s, i) {
      var p := Walk(s, |s|);
      var a, b := Pigeons(p, |s|);
      var c := WalkCloses(s, p, a, b);
      assert false;
    } else {
      i :| 0 <= i < |s| && !Preceded(s, i);
    }
  }

  lemma {:induction false} Arrange(s: seq<Block>) returns (r: seq<Block>)
    requires NoCircle(s)
    ensures multiset(r) == multiset(s) && Ordered(r)
    decreases |s|
  {
    hide Before, Circle;
    if s == [] {
      r := [];
    } else {
      var i := First(s);
      var rest := s[..i] + s[i + 1..];
      assert s == s[..i] + [s[i]] + s[i + 1..];
      assert forall b :: b in rest ==> b in s;
      r := Arrange(rest);
      FirstStays(s, i, rest, r);
      r := [s[i]] + r;
    }
  }

  lemma FirstStays(s: seq<Block>, i: nat, rest: seq<Block>, r: seq<Block>)
    requires i < |s| && rest == s[..i] + s[i + 1..] && multiset(r) == multiset(rest) && Ordered(r)
    requires forall j :: 0 <= j < |s| ==> !Before(s[j], s[i])
    ensures Ordered([s[i]] + r) && multiset([s[i]] + r) == multiset(s)
  {
    hide Before;
    assert s == s[..i] + [s[i]] + s[i + 1..];
    forall k | 0 <= k < |r|
      ensures !Before(r[k], s[i])
    {
      assert r[k] in multiset(r);
      assert r[k] in rest && r[k] in s;
    }
  }

  function IndexOf(r: seq<Block>, b: Block): (i: nat)
    requires b in r
    ensures i < |r| && r[i] == b
  {
    if r[0] == b then 0 else 1 + IndexOf(r[1..], b)
  }

  lemma PlacedBefore(r: seq<Block>, a: Block, b: Block)
    requires Ordered(r) && a in r && b in r && Before(a, b)
    ensures IndexOf(r, a) < IndexOf(r, b)
  {
    var i, j := IndexOf(r, a), IndexOf(r, b);
    assert !Before(a, a);
  }

  lemma {:induction false} CircleWalksBack(r: seq<Block>, c: seq<Block>, i: nat)
    requires Ordered(r) && Among(c, r) && Circle(c) && 0 < i < |c|
    ensures IndexOf(r, c[i]) < IndexOf(r, c[0])
    decreases i
  {
    hide Before, Ordered, IndexOf;
    assert Before(c[i], c[i - 1]);
    PlacedBefore(r, c[i], c[i - 1]);
    if i > 1 {
      CircleWalksBack(r, c, i - 1);
    }
  }

  /** A page can be arranged with every pair the right way round exactly when the comparison
      goes in no circle on it. */
  lemma ArrangedIffNoCircle(s: seq<Block>)
    ensures (exists r :: multiset(r) == multiset(s) && Ordered(r)) <==> NoCircle(s)
  {
    hide Before, Ordered, Circle;
    if NoCircle(s) {
      var r := Arrange(s);
    }
    if exists r :: multiset(r) == multiset(s) && Ordered(r) {
      var r :| multiset(r) == multiset(s) && Ordered(r);
      forall c | Among(c, s)
        ensures !Circle(c)
      {
        forall b | b in c
          ensures b in r
        {
          assert b in multiset(s);
        }
        assert Among(c, r);
        if Circle(c) {
          CircleLength(c);
          CircleWalksBack(r, c, |c| - 1);
        }
      }
    }
  }

  lemma CircleLength(c: seq<Block>)
    requires Circle(c)
    ensures |c| > 1 && c[0] == c[|c| - 1]
  {}

  lemma BeforeChains(a: Block, b: Block, c: Block)
    requires Before(a, b) && Before(b, c) && (SameBand(a, b) && SameBand(b, c) ==> SameBand(a, c))
    requires SameBand(b, a) && SameBand(a, c) ==> SameBand(b, c)
    requires SameBand(a, c) && SameBand(c, b) ==> SameBand(a, b)
    ensures Before(a, c)
  {}

  lemma {:induction false} BandsLeadBack(s: seq<Block>, c: seq<Block>, i: nat)
    requires Banded(s) && Among(c, s) && Circle(c) && 0 < i < |c|
    ensures Before(c[i], c[0])
    decreases i
  {
    hide Before, SameBand;
    assert Before(c[i], c[i - 1]);
    if i > 1 {
      BandsLeadBack(s, c, i - 1);
      BeforeChains(c[i], c[i - 1], c[0]);
    }
  }

  /** On a page of bands it goes in none. */
  lemma BandsHaveNoCircle(s: seq<Block>)
    requires Banded(s)
    ensures NoCircle(s)
  {
    hide Circle, SameBand, Banded;
    forall c | Among(c, s)
      ensures !Circle(c)
    {
      if Circle(c) {
        CircleLength(c);
        BandsLeadBack(s, c, |c| - 1);
      }
    }
  }

  function Spot(x1: real, y2: real): Block {
    Block("b", Paragraph, BBox(x1, y2, x1, y2), 0, 1.0, "", "x", [], map[])
  }

  /** There are pages that it goes in a circle on: three blocks each within the tolerance of
      the next, but not the first of the last. */
  lemma CircleHappens()
    ensures !NoCircle([Spot(0.0, 0.0), Spot(1.0, 1.5), Spot(2.0, 3.0)])
  {
    var p, q, t := Spot(0.0, 0.0), Spot(1.0, 1.5), Spot(2.0, 3.0);
    assert Before(p, q) && Before(q, t) && Before(t, p);
    var c := [p, t, q, p];
    assert Circle(c) && Among(c, [p, q, t]);
  }

  // ---------- pages of extracted lines ----------

  lemma {:induction false} BlockLine(lines: seq<GlyphLine>, sort: seq<Glyph> -> seq<Glyph>, k: nat) returns (i: nat)
    requires SortsByX(sort) && k < |AllBlocks(lines, sort)|
    ensures i < |lines| && AllBlocks(lines, sort)[k].y == lines[i].y
    decreases |lines|
  {
    hide SortsByX, LineBlocks;
    LineBlocksApart(lines[0], sort);
    var first := LineBlocks(lines[0], sort);
    if k < |first| {
      i := 0;
    } else {
      i := BlockLine(lines[1..], sort, k - |first|);
      i := i + 1;
    }
  }

  lemma LineHeights(texts: seq<Glyph>, sort: seq<Glyph> -> seq<Glyph>, k: nat, l: nat)
    requires SortsByX(sort) && k < |AllBlocks(LinesOf(texts), sort)| && l < |AllBlocks(LinesOf(texts), sort)|
    ensures
      var bs := AllBlocks(LinesOf(texts), sort);
      bs[k].y == bs[l].y || Abs(bs[k].y - bs[l].y) > 2.0
  {
    EveryGlyphOnOneLine(texts);
    var lines := LinesOf(texts);
    hide SortsByX, LinesOf, AllBlocks;
    var i := BlockLine(lines, sort, k);
    var j := BlockLine(lines, sort, l);
    if i != j {
      AbsSwap(lines[i].y, lines[j].y);
    }
    hide Abs, Extract.Near;
  }

  /** Blocks of an extracted page within the tolerance are of one line: at one height. */
  lemma OneHeightPerBand(p: PageText, texts: seq<Glyph>, sort: seq<Glyph> -> seq<Glyph>, base: int, a: Block, b: Block)
    requires SortsByX(sort) && p.blocks == AllBlocks(LinesOf(texts), sort)
    requires a in CdomBlocks(p, base) && b in CdomBlocks(p, base)
    ensures SameBand(a, b) <==> a.bbox.y2 == b.bbox.y2
  {
    hide SortsByX, LinesOf, AllBlocks, CdomBlock, Abs, SameBand;
    var k :| 0 <= k < |p.blocks| && CdomBlocks(p, base)[k] == a;
    var l :| 0 <= l < |p.blocks| && CdomBlocks(p, base)[l] == b;
    LineHeights(texts, sort, k, l);
    HeightsCompared(p, base, k, l);
  }

  lemma HeightsCompared(p: PageText, base: int, k: nat, l: nat)
    requires k < |p.blocks| && l < |p.blocks|
    requires p.blocks[k].y == p.blocks[l].y || Abs(p.blocks[k].y - p.blocks[l].y) > 2.0
    ensures
      var a, b := CdomBlocks(p, base)[k], CdomBlocks(p, base)[l];
      SameBand(a, b) <==> a.bbox.y2 == b.bbox.y2
  {
    Flipped(p.height, p.blocks[k].y, p.blocks[l].y);
    hide Abs;
  }

  lemma Flipped(h: real, a: real, b: real)
    ensures Abs(h - a - (h - b)) == Abs(a - b) && Abs(a - a) == 0.0
    ensures h - a == h - b <==> a == b
  {}

  lemma ExtractedBanded(p: PageText, texts: seq<Glyph>, sort: seq<Glyph> -> seq<Glyph>, base: int)
    requires SortsByX(sort) && p.blocks == AllBlocks(LinesOf(texts), sort)
    ensures Banded(CdomBlocks(p, base))
  {
    hide SameBand, SortsByX, LinesOf, AllBlocks;
    var bs := CdomBlocks(p, base);
    forall a, b, c | a in bs && b in bs && c in bs && SameBand(a, b) && SameBand(b, c)
      ensures SameBand(a, c)
    {
      OneHeightPerBand(p, texts, sort, base, a, b);
      OneHeightPerBand(p, texts, sort, base, b, c);
      OneHeightPerBand(p, texts, sort, base, a, c);
    }
  }

  /** The lower of two blocks, or of one line the left one. */
  predicate LowerOrLeft(a: Block, b: Block) {
    a.bbox.y2 > b.bbox.y2 || (a.bbox.y2 == b.bbox.y2 && a.bbox.x1 <= b.bbox.x1)
  }

  /** An extracted page is read from its lowest line up, each line from left to right:
      document boxes grow downwards, and the larger y2 comes first. */
  lemma ExtractedReadBottomUp(n: int, w: real, h: real, texts: seq<Glyph>, sort: seq<Glyph> -> seq<Glyph>, base: int,
                              r: seq<Block>)
    requires SortsByX(sort) && Arranged(CdomBlocks(PageOfGlyphs(n, w, h, texts, sort), base), r)
    ensures forall i, j :: 0 <= i < j < |r| ==> LowerOrLeft(r[i], r[j])
  {
    hide SortsByX, LinesOf, AllBlocks, Arranged, Banded;
    var p := PageOfGlyphs(n, w, h, texts, sort);
    var bs := CdomBlocks(p, base);
    ExtractedBanded(p, texts, sort, base);
    BandsSorted(bs, r);
    FromPage(bs, r);
    forall i, j | 0 <= i < j < |r|
      ensures LowerOrLeft(r[i], r[j])
    {
      OneHeightPerBand(p, texts, sort, base, r[i], r[j]);
    }
  }

  lemma FromPage(s: seq<Block>, r: seq<Block>)
    requires Arranged(s, r)
    ensures forall k :: 0 <= k < |r| ==> r[k] in s
  {
    forall k | 0 <= k < |r|
      ensures r[k] in s
    {
      assert r[k] in multiset(r);
    }
  }

  // ---------- the order before layout ----------

  /** Glyph heights grow upwards: a page's glyphs from the top down. */
  predicate TopDown(texts: seq<Glyph>) {
    forall i, j :: 0 <= i < j < |texts| ==> texts[i].y >= texts[j].y
  }

  ghost predicate Falling(lines: seq<GlyphLine>, to: real) {
    && (forall i :: 0 <= i < |lines| ==> lines[i].y >= to)
    && forall i, j :: 0 <= i < j < |lines| ==> lines[i].y > lines[j].y
  }

  lemma {:induction false} LinesFall(texts: seq<Glyph>)
    requires TopDown(texts) && texts != []
    ensures Falling(LinesOf(texts), texts[|texts| - 1].y)
    decreases |texts|
  {
    var init, t := texts[..|texts| - 1], texts[|texts| - 1];
    if init != [] {
      LinesFall(init);
      assert init[|init| - 1] == texts[|texts| - 2];
    }
    PlaceFalls(LinesOf(init), t);
  }

  lemma PlaceFalls(lines: seq<GlyphLine>, t: Glyph)
    requires Falling(lines, t.y)
    ensures Falling(Place(lines, t), t.y)
  {
    var i := FirstFit(lines, t);
    hide FirstFit;
    if i < |lines| {
      assert forall k :: 0 <= k < |lines| ==> Place(lines, t)[k].y == lines[k].y;
    }
  }

  lemma {:induction false} BlocksFall(lines: seq<GlyphLine>, sort: seq<Glyph> -> seq<Glyph>, i: nat, j: nat)
    requires SortsByX(sort) && i < j < |AllBlocks(lines, sort)|
    requires forall i, j :: 0 <= i < j < |lines| ==> lines[i].y > lines[j].y
    ensures AllBlocks(lines, sort)[i].y >= AllBlocks(lines, sort)[j].y
    decreases |lines|
  {
    hide SortsByX, LineBlocks;
    LineBlocksApart(lines[0], sort);
    var first := LineBlocks(lines[0], sort);
    if i >= |first| {
      BlocksFall(lines[1..], sort, i - |first|, j - |first|);
    } else if j >= |first| {
      var k := BlockLine(lines[1..], sort, j - |first|);
    }
  }

  /** Extraction lists the lines of a page from the top down. */
  lemma ExtractedTopDown(n: int, w: real, h: real, texts: seq<Glyph>, sort: seq<Glyph> -> seq<Glyph>, base: int)
    requires SortsByX(sort) && TopDown(texts)
    ensures
      var bs := CdomBlocks(PageOfGlyphs(n, w, h, texts, sort), base);
      forall i, j :: 0 <= i < j < |bs| ==> bs[i].bbox.y2 <= bs[j].bbox.y2
  {
    hide SortsByX, AllBlocks, LinesOf, TopDown;
    var p := PageOfGlyphs(n, w, h, texts, sort);
    if texts == [] {
      NothingExtracted(sort);
    } else {
      LinesFall(texts);
    }
    forall i, j | 0 <= i < j < |p.blocks|
      ensures p.blocks[i].y >= p.blocks[j].y
    {
      BlocksFall(LinesOf(texts), sort, i, j);
    }
  }

  lemma NothingExtracted(sort: seq<Glyph> -> seq<Glyph>)
    ensures LinesOf([]) == [] && AllBlocks([], sort) == []
  {}

  /** The layout stage turns that over: of two blocks on different lines, the one extracted
      later comes first. */
  lemma LayoutTurnsPageOver(n: int, w: real, h: real, texts: seq<Glyph>, sort: seq<Glyph> -> seq<Glyph>, base: int,
                            r: seq<Block>,
                            i: nat, j: nat, k: nat, l: nat)
    requires SortsByX(sort) && TopDown(texts) && Arranged(CdomBlocks(PageOfGlyphs(n, w, h, texts, sort), base), r)
    requires
      var bs := CdomBlocks(PageOfGlyphs(n, w, h, texts, sort), base);
      i < j < |bs| && bs[i].bbox.y2 != bs[j].bbox.y2 && k < |r| && l < |r| && r[k] == bs[i] && r[l] == bs[j]
    ensures l < k
  {
    hide SortsByX, Arranged, TopDown, PageOfGlyphs;
    ExtractedTopDown(n, w, h, texts, sort, base);
    ExtractedReadBottomUp(n, w, h, texts, sort, base, r);
  }
}
