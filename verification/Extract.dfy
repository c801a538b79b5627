/** Glyphs to lines, lines to segments, segments to blocks. */
module Extract {
  import opened Domain
  import opened Text
  import opened Recognize

  datatype Glyph = Glyph(x: real, y: real, w: real, font: real, s: string)

  datatype GlyphLine = GlyphLine(y: real, items: seq<Glyph>)

  datatype TextBlock = TextBlock(text: string, x: real, y: real, w: real, h: real, font: real, confidence: real)

  // ---------- first fit ----------

  /** The first line within the tolerance, or the number of lines. */
  function FirstFit(lines: seq<GlyphLine>, t: Glyph): (i: nat)
    ensures i <= |lines|
    ensures i < |lines| ==> Abs(lines[i].y - t.y) <= 2.0
    ensures forall k :: 0 <= k < i ==> Abs(lines[k].y - t.y) > 2.0
  {
    if lines == [] || Abs(lines[0].y - t.y) <= 2.0 then 0 else 1 + FirstFit(lines[1..], t)
  }

  function Place(lines: seq<GlyphLine>, t: Glyph): seq<GlyphLine> {
    var i := FirstFit(lines, t);
    if i < |lines| then lines[i := lines[i].(items := lines[i].items + [t])] else lines + [GlyphLine(t.y, [t])]
  }

  function LinesOf(texts: seq<Glyph>): seq<GlyphLine> {
    if texts == [] then [] else Place(LinesOf(texts[..|texts| - 1]), texts[|texts| - 1])
  }

  method GroupByHeight(texts: seq<Glyph>) returns (lines: seq<GlyphLine>)
    ensures lines == LinesOf(texts)
  {
    lines := [];
    for n := 0 to |texts|
      invariant lines == LinesOf(texts[..n])
    {
      var t := texts[n];
      var placed := false;
      ghost var before := lines;
      for i := 0 to |lines|
        invariant !placed && lines == before
        invariant forall k :: 0 <= k < i ==> Abs(lines[k].y - t.y) > 2.0
      {
        if Abs(lines[i].y - t.y) <= 2.0 {
          lines := lines[i := lines[i].(items := lines[i].items + [t])];
          placed := true;
          assert FirstFit(before, t) == i;
          break;
        }
      }
      if !placed {
        assert FirstFit(before, t) == |before|;
        lines := lines + [GlyphLine(t.y, [t])];
      }
      assert texts[..n + 1][..n] == texts[..n];
    }
    assert texts[..|texts|] == texts;
  }

  function AllItems(lines: seq<GlyphLine>): multiset<Glyph> {
    if lines == [] then multiset{} else multiset(lines[0].items) + AllItems(lines[1..])
  }

  /** Every glyph of a line is within the tolerance of its height, and the heights are
      farther apart than the tolerance. */
  ghost predicate LinesOk(lines: seq<GlyphLine>) {
    && (forall i :: 0 <= i < |lines| ==> lines[i].items != [] && Near(lines[i]))
    && (forall i, j :: 0 <= i < j < |lines| ==> Abs(lines[i].y - lines[j].y) > 2.0)
  }

  ghost predicate Near(l: GlyphLine) {
    forall k :: 0 <= k < |l.items| ==> Abs(l.items[k].y - l.y) <= 2.0
  }

  lemma AllItemsFirst(l: GlyphLine, rest: seq<GlyphLine>)
    ensures AllItems([l] + rest) == multiset(l.items) + AllItems(rest)
    ensures AllItems([]) == multiset{}
  {
    assert ([l] + rest)[1..] == rest;
  }

  lemma {:induction false} AllItemsAppend(a: seq<GlyphLine>, b: seq<GlyphLine>)
    ensures AllItems(a + b) == AllItems(a) + AllItems(b)
  {
    hide AllItems;
    if a == [] {
      AllItemsFirst(GlyphLine(0.0, []), []);
      assert a + b == b;
    } else {
      AllItemsAppend(a[1..], b);
      AllItemsFirst(a[0], a[1..]);
      AllItemsFirst(a[0], a[1..] + b);
      assert a == [a[0]] + a[1..] && a + b == [a[0]] + (a[1..] + b);
    }
  }

  lemma AllItemsOne(l: GlyphLine)
    ensures AllItems([l]) == multiset(l.items)
  {
    assert [l][1..] == [] && AllItems([]) == multiset{};
  }

  lemma PlaceItems(lines: seq<GlyphLine>, t: Glyph)
    ensures AllItems(Place(lines, t)) == AllItems(lines) + multiset{t}
  {
    var i := FirstFit(lines, t);
    if i < |lines| {
      var old', new' := lines[i], lines[i].(items := lines[i].items + [t]);
      assert lines == lines[..i] + [old'] + lines[i + 1..];
      assert Place(lines, t) == lines[..i] + [new'] + lines[i + 1..];
      hide FirstFit, Place, AllItems;
      AllItemsAppend(lines[..i] + [old'], lines[i + 1..]);
      AllItemsAppend(lines[..i], [old']);
      AllItemsAppend(lines[..i] + [new'], lines[i + 1..]);
      AllItemsAppend(lines[..i], [new']);
      AllItemsOne(old');
      AllItemsOne(new');
    } else {
      AllItemsAppend(lines, [GlyphLine(t.y, [t])]);
      AllItemsOne(GlyphLine(t.y, [t]));
    }
  }

  lemma PlaceOk(lines: seq<GlyphLine>, t: Glyph)
    requires LinesOk(lines)
    ensures LinesOk(Place(lines, t))
  {
    var i := FirstFit(lines, t);
    var out := Place(lines, t);
    hide FirstFit, Abs;
    if i < |lines| {
      assert Near(lines[i]);
      assert Abs(t.y - lines[i].y) <= 2.0 by { AbsSwap(t.y, lines[i].y); }
      assert Near(out[i]);
    } else {
      assert Near(out[i]) by { assert Abs(t.y - t.y) <= 2.0 by { AbsNothing(t.y); } }
    }
  }

  lemma AbsSwap(a: real, b: real)
    ensures Abs(a - b) == Abs(b - a)
  {}

  lemma AbsNothing(a: real)
    ensures Abs(a - a) == 0.0
  {
    assert a - a == 0.0;
  }

  /** Every glyph lands in exactly one line, within 2.0 of its height, and the lines are
      more than 2.0 apart. */
  lemma {:induction false} EveryGlyphOnOneLine(texts: seq<Glyph>)
    ensures AllItems(LinesOf(texts)) == multiset(texts) && LinesOk(LinesOf(texts))
  {
    hide Place, LinesOk;
    if texts == [] {
      assert LinesOk([]) by { NoLinesOk(); }
    } else {
      var init, t := texts[..|texts| - 1], texts[|texts| - 1];
      EveryGlyphOnOneLine(init);
      PlaceItems(LinesOf(init), t);
      PlaceOk(LinesOf(init), t);
      assert texts == init + [t];
    }
  }

  lemma NoLinesOk()
    ensures LinesOk([])
  {}

  // ---------- segments ----------

  datatype Segment = Segment(text: string, minX: real, maxX: real, font: real)

  function FontOf(g: Glyph): real { if g.font <= 0.0 then 10.0 else g.font }

  function ColGap(g: Glyph): real { if FontOf(g) * 2.5 < 18.0 then 18.0 else FontOf(g) * 2.5 }

  function Begin(g: Glyph): Segment { Segment(g.s, g.x, g.x + g.w, FontOf(g)) }

  function Extend(s: Segment, g: Glyph): Segment {
    Segment(s.text + (if g.x - s.maxX > FontOf(g) * 0.3 then " " else "") + g.s,
            if g.x < s.minX then g.x else s.minX,
            if g.x + g.w > s.maxX then g.x + g.w else s.maxX,
            if FontOf(g) > s.font then FontOf(g) else s.font)
  }

  /** The segments of a line from here on, the current one included. */
  function Cuts(items: seq<Glyph>, cur: Segment): (r: seq<Segment>)
    ensures |r| >= 1
  {
    if items == [] then [cur]
    else if items[0].x - cur.maxX > ColGap(items[0]) then [cur] + Cuts(items[1..], Begin(items[0]))
    else Cuts(items[1..], Extend(cur, items[0]))
  }

  function SegmentsOf(items: seq<Glyph>): seq<Segment> {
    if items == [] then [] else Cuts(items[1..], Begin(items[0]))
  }

  function BlockOf(s: Segment, y: real): TextBlock {
    TextBlock(TrimSpace(s.text), s.minX, y, s.maxX - s.minX, if s.font <= 0.0 then 10.0 else s.font, s.font, 0.98)
  }

  /** flush: blank segments are dropped. */
  function Flushed(segs: seq<Segment>, y: real): (r: seq<TextBlock>) {
    if segs == [] then []
    else (if TrimSpace(segs[0].text) == "" then [] else [BlockOf(segs[0], y)]) + Flushed(segs[1..], y)
  }

  lemma FlushedFirst(s: Segment, segs: seq<Segment>, y: real)
    ensures Flushed([s] + segs, y) == (if TrimSpace(s.text) == "" then [] else [BlockOf(s, y)]) + Flushed(segs, y)
  {
    assert ([s] + segs)[1..] == segs;
  }

  lemma FlushedOne(s: Segment, y: real)
    ensures Flushed([s], y) == if TrimSpace(s.text) == "" then [] else [BlockOf(s, y)]
  {
    FlushedFirst(s, [], y);
    assert [s] + [] == [s];
  }

  /** A library sort by the left edge. */
  ghost predicate SortsByX(sort: seq<Glyph> -> seq<Glyph>) {
    forall s: seq<Glyph> :: multiset(sort(s)) == multiset(s) && LeftToRight(sort(s))
  }

  predicate LeftToRight(s: seq<Glyph>) {
    forall i, j :: 0 <= i < j < |s| ==> s[i].x <= s[j].x
  }

  function LineBlocks(l: GlyphLine, sort: seq<Glyph> -> seq<Glyph>): seq<TextBlock> {
    Flushed(SegmentsOf(sort(l.items)), l.y)
  }

  function AllBlocks(lines: seq<GlyphLine>, sort: seq<Glyph> -> seq<Glyph>): seq<TextBlock> {
    if lines == [] then [] else LineBlocks(lines[0], sort) + AllBlocks(lines[1..], sort)
  }

  function Flush(out: seq<TextBlock>, s: Segment, y: real): seq<TextBlock> {
    out + if TrimSpace(s.text) == "" then [] else [BlockOf(s, y)]
  }

  /** The loop over the glyphs of a line. */
  method CutLine(items: seq<Glyph>, y: real) returns (out: seq<TextBlock>)
    ensures out == Flushed(SegmentsOf(items), y)
  {
    hide TrimSpace, Flushed, ColGap, BlockOf;
    out := [];
    var cur: Option<Segment> := None;
    assert Flushed([], y) == [] by { NothingFlushed(y); }
    assert items[0..] == items;
    for i := 0 to |items|
      invariant i > 0 ==> cur.Some? && out + Flushed(Cuts(items[i..], cur.value), y) == Flushed(SegmentsOf(items), y)
      invariant i == 0 ==> cur == None && out == []
    {
      var it := items[i];
      assert items[i..][0] == it && items[i..][1..] == items[i + 1..];
      var started := cur;
      if cur.Some? && it.x - cur.value.maxX > ColGap(it) {
        ghost var rest := Cuts(items[i + 1..], Begin(it));
        FlushedFirst(cur.value, rest, y);
        ghost var one := if TrimSpace(cur.value.text) == "" then [] else [BlockOf(cur.value, y)];
        assert out + (one + Flushed(rest, y)) == (out + one) + Flushed(rest, y);
        out := Flush(out, cur.value, y);
        started := None;
      }
      cur := Some(if started == None then Begin(it) else Extend(started.value, it));
    }
    if cur.Some? {
      FlushedOne(cur.value, y);
      out := Flush(out, cur.value, y);
    }
  }

  lemma NothingFlushed(y: real)
    ensures Flushed([], y) == []
  {}

  /** groupIntoLines. */
  method GroupIntoLines(texts: seq<Glyph>, sort: seq<Glyph> -> seq<Glyph>) returns (out: seq<TextBlock>)
    ensures out == AllBlocks(LinesOf(texts), sort)
  {
    hide LineBlocks, LinesOf;
    if |texts| == 0 {
      assert LinesOf(texts) == [] by { NoTexts(); }
      return [];
    }
    var lines := GroupByHeight(texts);
    out := [];
    assert lines[0..] == lines;
    for i := 0 to |lines|
      invariant out + AllBlocks(lines[i..], sort) == AllBlocks(lines, sort)
    {
      assert lines[i..][0] == lines[i] && lines[i..][1..] == lines[i + 1..];
      var more := CutLine(sort(lines[i].items), lines[i].y);
      assert more == LineBlocks(lines[i], sort) by { LineCut(lines[i], sort); }
      assert out + (more + AllBlocks(lines[i + 1..], sort)) == (out + more) + AllBlocks(lines[i + 1..], sort);
      out := out + more;
    }
    assert out + [] == out;
  }

  lemma NoTexts()
    ensures LinesOf([]) == []
  {}

  lemma LineCut(l: GlyphLine, sort: seq<Glyph> -> seq<Glyph>)
    ensures LineBlocks(l, sort) == Flushed(SegmentsOf(sort(l.items)), l.y)
  {}

  // ---------- what a line's segments are ----------

  /** Left to right, each more than 18 to the right of everything in those before it. */
  ghost predicate Apart(segs: seq<Segment>) {
    forall i, j :: 0 <= i < j < |segs| ==> segs[i].maxX + 18.0 < segs[j].minX
  }

  lemma {:induction false} CutsApart(items: seq<Glyph>, cur: Segment)
    requires LeftToRight(items) && forall k :: 0 <= k < |items| ==> cur.minX <= items[k].x
    ensures Apart(Cuts(items, cur))
    ensures Cuts(items, cur)[0].minX == cur.minX && Cuts(items, cur)[0].maxX >= cur.maxX
    ensures forall j :: 0 <= j < |Cuts(items, cur)| ==> cur.minX <= Cuts(items, cur)[j].minX
    ensures forall j :: 0 < j < |Cuts(items, cur)| ==> items != [] && items[0].x <= Cuts(items, cur)[j].minX
    decreases |items|
  {
    if items != [] {
      var g, rest := items[0], items[1..];
      assert LeftToRight(rest);
      if g.x - cur.maxX > ColGap(g) {
        CutsApart(rest, Begin(g));
      } else {
        CutsApart(rest, Extend(cur, g));
      }
    }
  }

  /** The segments of a sorted line are disjoint, left to right, with gaps over 18. */
  lemma SegmentsApart(items: seq<Glyph>)
    requires LeftToRight(items)
    ensures Apart(SegmentsOf(items))
  {
    if items != [] {
      assert LeftToRight(items[1..]);
      CutsApart(items[1..], Begin(items[0]));
    }
  }

  ghost predicate BlocksApart(bs: seq<TextBlock>) {
    forall i, j :: 0 <= i < j < |bs| ==> bs[i].x + bs[i].w + 18.0 < bs[j].x
  }

  lemma ApartFirst(b: TextBlock, rest: seq<TextBlock>)
    requires BlocksApart(rest) && forall k :: 0 <= k < |rest| ==> b.x + b.w + 18.0 < rest[k].x
    ensures BlocksApart([b] + rest)
  {}

  lemma {:induction false} FlushedApart(segs: seq<Segment>, y: real, right: real)
    requires Apart(segs) && forall k :: 0 <= k < |segs| ==> right < segs[k].minX
    ensures BlocksApart(Flushed(segs, y))
    ensures forall k :: 0 <= k < |Flushed(segs, y)| ==> right < Flushed(segs, y)[k].x
  {
    hide TrimSpace, BlocksApart;
    if segs == [] {
      assert BlocksApart([]) by { NoBlocksApart(); }
    } else {
      var rest := Flushed(segs[1..], y);
      FlushedApart(segs[1..], y, segs[0].maxX + 18.0);
      FlushedApart(segs[1..], y, right);
      ApartFirst(BlockOf(segs[0], y), rest);
      assert [] + rest == rest;
    }
  }

  lemma NoBlocksApart()
    ensures BlocksApart([])
  {}

  lemma Leftmost(segs: seq<Segment>) returns (left: real)
    ensures forall k :: 0 <= k < |segs| ==> left < segs[k].minX
  {
    left := 0.0;
    for i := 0 to |segs|
      invariant forall k :: 0 <= k < i ==> left < segs[k].minX
    {
      if segs[i].minX <= left {
        left := segs[i].minX - 1.0;
      }
    }
  }

  /** The blocks of a line do not overlap: more than 18 lies between any two. */
  lemma LineBlocksApart(l: GlyphLine, sort: seq<Glyph> -> seq<Glyph>)
    requires SortsByX(sort)
    ensures BlocksApart(LineBlocks(l, sort))
    ensures forall k :: 0 <= k < |LineBlocks(l, sort)| ==> LineBlocks(l, sort)[k].y == l.y
  {
    var segs := SegmentsOf(sort(l.items));
    SegmentsApart(sort(l.items));
    var left := Leftmost(segs);
    FlushedApart(segs, l.y, left);
    FlushedHeights(segs, l.y);
  }

  lemma {:induction false} FlushedHeights(segs: seq<Segment>, y: real)
    ensures forall k :: 0 <= k < |Flushed(segs, y)| ==> Flushed(segs, y)[k].y == y
  {
    hide TrimSpace;
    if segs != [] {
      FlushedHeights(segs[1..], y);
    }
  }

  // ---------- no character is lost ----------

  function Said(items: seq<Glyph>): string {
    if items == [] then [] else Visible(items[0].s) + Said(items[1..])
  }

  function SegmentsSay(segs: seq<Segment>): string {
    if segs == [] then [] else Visible(segs[0].text) + SegmentsSay(segs[1..])
  }

  function BlocksSay(bs: seq<TextBlock>): string {
    if bs == [] then [] else Visible(bs[0].text) + BlocksSay(bs[1..])
  }

  lemma ExtendSays(s: Segment, g: Glyph)
    ensures Visible(Extend(s, g).text) == Visible(s.text) + Visible(g.s)
  {
    var space := if g.x - s.maxX > FontOf(g) * 0.3 then " " else "";
    VisibleAppend(s.text + space, g.s);
    VisibleAppend(s.text, space);
    VisibleSpace(space);
    hide Visible;
    assert Visible(s.text) + [] == Visible(s.text);
  }

  lemma SayFirst(s: Segment, segs: seq<Segment>)
    ensures SegmentsSay([s] + segs) == Visible(s.text) + SegmentsSay(segs)
  {
    assert ([s] + segs)[1..] == segs;
  }

  lemma {:induction false} CutsSay(items: seq<Glyph>, cur: Segment)
    ensures SegmentsSay(Cuts(items, cur)) == Visible(cur.text) + Said(items)
    decreases |items|
  {
    hide Visible, ColGap, SegmentsSay;
    if items == [] {
      SayFirst(cur, []);
      assert [cur] + [] == [cur] && SegmentsSay([]) == [] by { NothingSaid(); }
    } else {
      var g, rest := items[0], items[1..];
      if g.x - cur.maxX > ColGap(g) {
        CutsSay(rest, Begin(g));
        SayFirst(cur, Cuts(rest, Begin(g)));
      } else {
        CutsSay(rest, Extend(cur, g));
        ExtendSays(cur, g);
        var a, b, c := Visible(cur.text), Visible(g.s), Said(rest);
        assert (a + b) + c == a + (b + c);
      }
    }
  }

  lemma NothingSaid()
    ensures SegmentsSay([]) == []
  {}

  lemma {:induction false} FlushedSay(segs: seq<Segment>, y: real)
    ensures BlocksSay(Flushed(segs, y)) == SegmentsSay(segs)
  {
    hide TrimSpace, Visible;
    if segs != [] {
      FlushedSay(segs[1..], y);
      VisibleTrim(segs[0].text);
      assert Visible("") == [] by { VisibleSpace(""); }
      var rest := Flushed(segs[1..], y);
      assert ([BlockOf(segs[0], y)] + rest)[1..] == rest && [] + rest == rest;
      assert [] + SegmentsSay(segs[1..]) == SegmentsSay(segs[1..]);
    }
  }

  /** No visible character of a line is lost or moved: its blocks, read in order, say
      what its glyphs say from left to right. */
  lemma LineSaysAll(l: GlyphLine, sort: seq<Glyph> -> seq<Glyph>)
    ensures BlocksSay(LineBlocks(l, sort)) == Said(sort(l.items))
  {
    var items := sort(l.items);
    FlushedSay(SegmentsOf(items), l.y);
    if items != [] {
      CutsSay(items[1..], Begin(items[0]));
    }
  }

  // ---------- boxes ----------

  lemma {:induction false} CutsWide(items: seq<Glyph>, cur: Segment)
    requires LeftToRight(items) && forall k :: 0 <= k < |items| ==> cur.minX <= items[k].x && items[k].w >= 0.0
    requires cur.minX <= cur.maxX && cur.font > 0.0
    ensures forall k :: 0 <= k < |Cuts(items, cur)| ==>
              Cuts(items, cur)[k].minX <= Cuts(items, cur)[k].maxX && Cuts(items, cur)[k].font > 0.0
    decreases |items|
  {
    if items != [] {
      var g, rest := items[0], items[1..];
      assert LeftToRight(rest);
      if g.x - cur.maxX > ColGap(g) {
        CutsWide(rest, Begin(g));
      } else {
        CutsWide(rest, Extend(cur, g));
      }
    }
  }

  /** What ToCDOMBlocks needs of a block. */
  predicate SizeOk(b: TextBlock) { b.w >= 0.0 && b.h > 0.0 && b.confidence == 0.98 }

  lemma {:induction false} FlushedSizes(segs: seq<Segment>, y: real)
    requires forall k :: 0 <= k < |segs| ==> segs[k].minX <= segs[k].maxX && segs[k].font > 0.0
    ensures forall k :: 0 <= k < |Flushed(segs, y)| ==> SizeOk(Flushed(segs, y)[k])
  {
    hide TrimSpace;
    if segs != [] {
      FlushedSizes(segs[1..], y);
    }
  }

  predicate WidthsOk(items: seq<Glyph>) {
    forall k :: 0 <= k < |items| ==> items[k].w >= 0.0
  }

  lemma LineSizes(l: GlyphLine, sort: seq<Glyph> -> seq<Glyph>)
    requires SortsByX(sort) && WidthsOk(l.items)
    ensures forall k :: 0 <= k < |LineBlocks(l, sort)| ==> SizeOk(LineBlocks(l, sort)[k])
  {
    var items := sort(l.items);
    forall k | 0 <= k < |items|
      ensures items[k].w >= 0.0
    {
      assert items[k] in multiset(items);
      assert items[k] in l.items;
    }
    if items != [] {
      CutsWide(items[1..], Begin(items[0]));
    }
    FlushedSizes(SegmentsOf(items), l.y);
  }

  lemma {:induction false} AllSizes(lines: seq<GlyphLine>, sort: seq<Glyph> -> seq<Glyph>)
    requires SortsByX(sort) && forall i :: 0 <= i < |lines| ==> WidthsOk(lines[i].items)
    ensures forall k :: 0 <= k < |AllBlocks(lines, sort)| ==> SizeOk(AllBlocks(lines, sort)[k])
  {
    hide LineBlocks, SortsByX, WidthsOk;
    if lines != [] {
      LineSizes(lines[0], sort);
      AllSizes(lines[1..], sort);
    }
  }

  lemma {:induction false} ItemsAmong(lines: seq<GlyphLine>, i: nat)
    requires i < |lines|
    ensures multiset(lines[i].items) <= AllItems(lines)
  {
    if i > 0 {
      ItemsAmong(lines[1..], i - 1);
    }
  }

  /** Glyphs of non-negative width give blocks of non-negative width and positive height. */
  lemma BlocksHaveSizes(texts: seq<Glyph>, sort: seq<Glyph> -> seq<Glyph>)
    requires SortsByX(sort) && WidthsOk(texts)
    ensures forall k :: 0 <= k < |AllBlocks(LinesOf(texts), sort)| ==> SizeOk(AllBlocks(LinesOf(texts), sort)[k])
  {
    hide SortsByX, LinesOk;
    var lines := LinesOf(texts);
    EveryGlyphOnOneLine(texts);
    forall i | 0 <= i < |lines|
      ensures WidthsOk(lines[i].items)
    {
      ItemsAmong(lines, i);
      forall k | 0 <= k < |lines[i].items|
        ensures lines[i].items[k].w >= 0.0
      {
        assert lines[i].items[k] in multiset(lines[i].items);
        assert lines[i].items[k] in texts;
      }
    }
    AllSizes(lines, sort);
  }
}
