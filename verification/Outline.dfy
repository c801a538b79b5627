/** What layout and clean-up do to the blocks of a page, field by field. */
module Outline {
  import opened Text
  import opened Cdom
  import opened Recognize
  import opened Reconstruct
  import opened Layout
  import opened Segmentation
  import opened Preservation
  import Scans

  // ---------- headings and copies ----------

  /** The same block, as a heading exactly when it was one or is a paragraph that looks like
      one, and otherwise of its own type. */
  predicate Retyped(b: Block, t: Block, isLetter: char -> bool) {
    && t == b.(typ := t.typ)
    && (t.typ == Heading <==> b.typ == Heading || (b.typ == Paragraph && LooksLikeHeading(b.text, isLetter)))
    && (t.typ != Heading ==> t.typ == b.typ)
  }

  /** A text looks like a heading when it is one to 80 bytes long once trimmed, no list item, without
      pipes, question and exclamation marks and without a full stop before its end, and has a
      letter. */
  lemma HeadingIff(text: string, isLetter: char -> bool)
    ensures
      var t := TrimSpace(text);
      LooksLikeHeading(text, isLetter) <==>
        && 1 <= Utf8Len(t) <= 80
        && (forall mark, gap, body :: !BulletParts(t, mark, gap, body))
        && (forall open, digits, close, gap, body :: !OrderedParts(t, open, digits, close, gap, body))
        && (forall c :: c in t ==> c !in "|?!") && (forall i :: 0 <= i < |t| - 1 ==> t[i] != '.')
        && exists c :: c in t && isLetter(c)
  {
    hide TrimSpace, BulletBody, OrderedBody, BulletParts, OrderedParts;
    var t := TrimSpace(text);
    TrimIdempotent(text);
    BulletIff(t);
    OrderedIff(t);
    ItemIff(t);
    hide LooksLikeItem;
    SomeLength(t);
    SomeLetter(t, isLetter);
    NoMarks(t);
    hide Utf8Len;
  }

  lemma ItemIff(t: string)
    requires TrimSpace(t) == t
    ensures LooksLikeItem(t) <==> BulletBody(t).Some? || OrderedBody(t).Some?
  {}

  lemma SomeLength(t: string)
    ensures Utf8Len(t) >= 1 <==> t != []
  {}

  lemma SomeLetter(t: string, isLetter: char -> bool)
    ensures (exists c :: c in t && isLetter(c)) <==> exists i :: 0 <= i < |t| && isLetter(t[i])
  {
    if c :| c in t && isLetter(c) {
      var i :| 0 <= i < |t| && t[i] == c;
    }
    if i :| 0 <= i < |t| && isLetter(t[i]) {
      assert t[i] in t;
    }
  }

  lemma NoMarks(t: string)
    ensures (forall c :: c in t ==> c !in "|?!") <==> '|' !in t && '?' !in t && '!' !in t
    ensures t != [] ==> ((forall i :: 0 <= i < |t| - 1 ==> t[i] != '.') <==> '.' !in t[..|t| - 1])
  {
    assert "|?!" == ['|', '?', '!'];
    if t != [] {
      assert forall i :: 0 <= i < |t| - 1 ==> t[..|t| - 1][i] == t[i];
    }
  }

  /** The forest without its reading order. */
  function Unordered(bs: seq<Block>): seq<Block> {
    if bs == [] then []
    else [bs[0].(order := 0, children := Unordered(bs[0].children))] + Unordered(bs[1..])
  }

  /** Equal but for the reading order, at every depth. */
  predicate Alike(a: Block, b: Block) {
    a == b.(order := a.order, children := a.children) && Unordered(a.children) == Unordered(b.children)
  }

  lemma UnorderedFirst(b: Block, rest: seq<Block>)
    ensures Unordered([b] + rest) == [b.(order := 0, children := Unordered(b.children))] + Unordered(rest)
    ensures Unordered([]) == []
  {
    assert ([b] + rest)[1..] == rest;
  }

  /** Numbering changes nothing but the reading order. */
  lemma {:induction false} NumberedAlike(bs: seq<Block>, order: int)
    ensures Unordered(Numbered(bs, order).0) == Unordered(bs)
    ensures forall k :: 0 <= k < |bs| ==> Alike(Numbered(bs, order).0[k], bs[k])
    decreases bs
  {
    hide Unordered;
    if bs == [] {
      assert Numbered(bs, order).0 == [];
    } else {
      var b, rest := bs[0], bs[1..];
      var (kids, o1) := Numbered(b.children, order + 1);
      var (more, o2) := Numbered(rest, o1);
      NumberedAlike(b.children, order + 1);
      NumberedAlike(rest, o1);
      var first := b.(order := order + 1, children := kids);
      assert Numbered(bs, order).0 == [first] + more;
      hide Numbered;
      assert bs == [b] + rest;
      UnorderedFirst(b, rest);
      UnorderedFirst(first, more);
      forall k | 0 <= k < |bs|
        ensures Alike(([first] + more)[k], bs[k])
      {
        if k > 0 {
          assert Alike(more[k - 1], rest[k - 1]);
        }
      }
    }
  }

  /** The page is cut up in order, and this is what becomes of each piece: a single block
      that is none of a list and a table is copied, the others are grouped. */
  ghost predicate Outlined(typed: seq<Block>, out: seq<Block>) {
    var segs := Segments(typed, 0);
    && |segs| == |out| && Span(segs) == |typed|
    && forall k :: 0 <= k < |segs| ==> Becomes(segs[k], typed, Span(segs[..k]), out[k])
  }

  ghost predicate Becomes(s: Segment, typed: seq<Block>, at: nat, out: Block) {
    && at + Len(s) <= |typed| && SegmentOk(s, typed[at..at + Len(s)], typed[at + Len(s)..])
    && match s
       case Copy => at < |typed| && Alike(out, typed[at])
       case ListSeg(ordered, n) =>
         out.typ == List && out.attrs == map["ordered" := Flag(ordered)] && Around(out, typed[at..at + n])
         && |out.children| == n && AllItems(typed[at..at + n], ordered)
         && forall i :: 0 <= i < n && at + i < |typed| ==> ItemOf(out.children[i], typed[at + i], ordered)
       case CellSeg(sp, n) => TextGrid(out, Rows(typed[at..at + n], sp))
       case GeoSeg(lens) => Around(out, typed[at..at + Len(s)]) && GeoGrid(out, GeoRows(typed, at, lens))
  }

  /** A block of a table that is made of texts has no place of its own. */
  predicate Placeless(b: Block, typ: BlockType) {
    b.typ == typ && b.bbox == NO_BOX && b.confidence == 0.75 && b.language == ""
  }

  predicate TextGrid(t: Block, rows: seq<seq<string>>) {
    && Placeless(t, Table) && t.text == "" && t.attrs == map["reconstruction" := Word("pipe_or_space")]
    && |t.children| == |rows| && forall r :: 0 <= r < |rows| ==> TextLine(t.children[r], rows[r])
  }

  predicate TextLine(row: Block, texts: seq<string>) {
    && Placeless(row, TableRow) && row.text == "" && row.attrs == map[] && |row.children| == |texts|
    && forall c :: 0 <= c < |texts| ==>
         var cell := row.children[c];
         Placeless(cell, TableCell) && cell.text == texts[c] && cell.attrs == map[] && cell.children == []
  }

  /** A geometric table: its rows are around their blocks, each of which is a cell as it was. */
  ghost predicate GeoGrid(t: Block, rows: seq<seq<Block>>) {
    && t.typ == Table && t.text == "" && t.language == ""
    && t.attrs == map["reconstruction" := Word("geometric_columns")]
    && |t.children| == |rows| && forall r :: 0 <= r < |rows| ==> GeoLine(t.children[r], rows[r])
  }

  ghost predicate GeoLine(row: Block, bs: seq<Block>) {
    && row.typ == TableRow && row.text == "" && row.language == "" && row.attrs == map[] && |row.children| == |bs|
    && (bs != [] ==> Around(row, bs))
    && forall c :: 0 <= c < |bs| ==> CellFrom(row.children[c], bs[c])
  }

  predicate CellFrom(c: Block, b: Block) {
    && c.typ == TableCell && c.text == b.text && c.language == b.language && c.bbox == b.bbox
    && c.confidence == b.confidence && c.attrs == b.attrs && c.children == []
  }

  /** A list item keeps everything of its line but the marker and the type. */
  predicate ItemOf(i: Block, b: Block, ordered: bool) {
    && IsItem(ordered, b) && i.typ == ListItem && i.text == TrimSpace(ListBody(ordered, b.text).value)
    && i.id == b.id && i.bbox == b.bbox && i.confidence == b.confidence && i.language == b.language
    && i.attrs == b.attrs["ordered" := Flag(ordered)] && i.children == []
  }

  /** The least box around the blocks, and their least confidence. */
  ghost predicate Around(g: Block, bs: seq<Block>) {
    && (forall i :: 0 <= i < |bs| ==> Contains(g.bbox, bs[i].bbox) && g.confidence <= bs[i].confidence)
    && Tight(g.bbox, bs) && exists i :: 0 <= i < |bs| && bs[i].confidence == g.confidence
  }

  lemma AroundSame(g: Block, bs: seq<Block>, cs: seq<Block>)
    requires Around(g, bs) && |bs| == |cs|
    requires forall i :: 0 <= i < |bs| ==> cs[i].bbox == bs[i].bbox && cs[i].confidence == bs[i].confidence
    ensures Around(g, cs)
  {
    var i :| 0 <= i < |bs| && bs[i].confidence == g.confidence;
    assert cs[i].confidence == g.confidence;
    var a :| 0 <= a < |bs| && bs[a].bbox.x1 == g.bbox.x1;
    var b :| 0 <= b < |bs| && bs[b].bbox.y1 == g.bbox.y1;
    var c :| 0 <= c < |bs| && bs[c].bbox.x2 == g.bbox.x2;
    var d :| 0 <= d < |bs| && bs[d].bbox.y2 == g.bbox.y2;
    assert cs[a].bbox.x1 == g.bbox.x1 && cs[b].bbox.y1 == g.bbox.y1;
    assert cs[c].bbox.x2 == g.bbox.x2 && cs[d].bbox.y2 == g.bbox.y2;
  }

  lemma UnionAround(g: Block, bs: seq<Block>)
    requires bs != [] && g.bbox == UnionBox(bs) && g.confidence == MinConf(bs)
    ensures Around(g, bs)
  {
    UnionIsLeast(bs);
    MinIsLeast(bs);
    hide UnionBox, MinConf;
  }

  lemma ListAround(page: int, idx: nat, src: seq<Block>, ordered: bool)
    requires src != [] && AllItems(src, ordered)
    ensures
      var l := ListBlock(page, idx, Items(src, ordered), ordered);
      && l.typ == List && Around(l, src) && |l.children| == |src| && l.attrs == map["ordered" := Flag(ordered)]
      && forall i :: 0 <= i < |src| ==> ItemOf(l.children[i], src[i], ordered)
  {
    hide UnionBox, MinConf, ListId, IsItem, ListBody, TrimSpace;
    var items := Items(src, ordered);
    var l := ListBlock(page, idx, items, ordered);
    UnionAround(l, items);
    AroundSame(l, items, src);
    hide Around, Items;
  }

  predicate SameSides(a: seq<Block>, b: seq<Block>) {
    |a| == |b| && forall i :: 0 <= i < |a| ==> a[i].bbox == b[i].bbox && a[i].confidence == b[i].confidence
  }

  lemma SidesJoin(a: seq<Block>, b: seq<Block>, c: seq<Block>, d: seq<Block>)
    requires SameSides(a, b) && SameSides(c, d)
    ensures SameSides(a + c, b + d)
  {}

  lemma CellsSides(page: int, idx: nat, r: nat, row: seq<Block>)
    ensures SameSides(GeoCells(page, idx, r, row), row)
  {
    hide CellId;
  }

  lemma {:induction false} CellsOfRows(page: int, idx: nat, from: nat, rows: seq<seq<Block>>)
    ensures SameSides(AllCells(page, idx, from, rows), Joined(rows))
    decreases |rows|
  {
    hide GeoCells, SameSides;
    if rows == [] {
      assert SameSides([], []) by { NoSides(); }
    } else {
      CellsOfRows(page, idx, from + 1, rows[1..]);
      CellsSides(page, idx, from, rows[0]);
      SidesJoin(GeoCells(page, idx, from, rows[0]), rows[0], AllCells(page, idx, from + 1, rows[1..]),
            Joined(rows[1..]));
    }
  }

  lemma NoSides()
    ensures SameSides([], [])
  {}

  lemma {:induction false} RowsJoin(bs: seq<Block>, i: nat, lens: seq<nat>)
    requires i + Sum(lens) <= |bs|
    ensures Joined(GeoRows(bs, i, lens)) == bs[i..i + Sum(lens)]
    decreases |lens|
  {
    hide GeoRows, Joined;
    if lens == [] {
      NoneJoin(bs, i);
    } else {
      var n := lens[0];
      RowsJoin(bs, i + n, lens[1..]);
      FirstJoins(bs, i, lens);
      var end := i + Sum(lens);
      hide Sum;
      assert bs[i..end] == bs[i..i + n] + bs[i + n..end];
    }
  }

  lemma NoneJoin(bs: seq<Block>, i: nat)
    requires i <= |bs|
    ensures Joined(GeoRows(bs, i, [])) == []
  {}

  lemma FirstJoins(bs: seq<Block>, i: nat, lens: seq<nat>)
    requires lens != [] && i + Sum(lens) <= |bs|
    ensures
      i + lens[0] + Sum(lens[1..]) == i + Sum(lens)
      && Joined(GeoRows(bs, i, lens)) == bs[i..i + lens[0]] + Joined(GeoRows(bs, i + lens[0], lens[1..]))
  {
    assert GeoRows(bs, i, lens)[1..] == GeoRows(bs, i + lens[0], lens[1..]);
  }

  lemma GeoAround(page: int, idx: nat, bs: seq<Block>, i: nat, lens: seq<nat>)
    requires i + Sum(lens) <= |bs| && Sum(lens) > 0
    ensures var t := GeoTable(page, idx, GeoRows(bs, i, lens)); t.typ == Table && Around(t, bs[i..i + Sum(lens)])
  {
    hide AllCells, GeoRows, Sum, Joined, Around, GeoTable;
    RowsJoin(bs, i, lens);
    RowsAround(page, idx, GeoRows(bs, i, lens));
  }

  lemma RowsAround(page: int, idx: nat, rows: seq<seq<Block>>)
    requires Joined(rows) != []
    ensures GeoTable(page, idx, rows).typ == Table && Around(GeoTable(page, idx, rows), Joined(rows))
  {
    hide UnionBox, MinConf, TableId, AllCells, GeoRowBlocks, Joined, Around;
    CellsOfRows(page, idx, 1, rows);
    var all := AllCells(page, idx, 1, rows);
    UnionAround(GeoTable(page, idx, rows), all);
    AroundSame(GeoTable(page, idx, rows), all, Joined(rows));
  }

  lemma SameAround(g: Block, h: Block, bs: seq<Block>)
    requires Around(g, bs) && h.bbox == g.bbox && h.confidence == g.confidence
    ensures Around(h, bs)
  {}

  lemma ListBecomes(page: int, idx: nat, bs: seq<Block>, i: nat, ordered: bool, n: nat, out: Block)
    requires i + n <= |bs| && n > 0 && AllItems(bs[i..i + n], ordered)
    requires Alike(out, ListBlock(page, idx, Items(bs[i..i + n], ordered), ordered))
    ensures out.typ == List && out.attrs == map["ordered" := Flag(ordered)] && Around(out, bs[i..i + n])
    ensures |out.children| == n && forall k :: 0 <= k < n ==> ItemOf(out.children[k], bs[i + k], ordered)
  {
    hide Around, Unordered, ItemOf, Items, UnionBox, MinConf, ListId, AllItems;
    var src := bs[i..i + n];
    var l := ListBlock(page, idx, Items(src, ordered), ordered);
    ListAround(page, idx, src, ordered);
    SameAround(l, out, src);
    ItemsAlike(out.children, l.children, src, ordered);
  }

  lemma GeoBecomes(page: int, idx: nat, bs: seq<Block>, i: nat, lens: seq<nat>, out: Block)
    requires i + Sum(lens) <= |bs| && Sum(lens) > 0 && Alike(out, GeoTable(page, idx, GeoRows(bs, i, lens)))
    ensures Around(out, bs[i..i + Sum(lens)]) && GeoGrid(out, GeoRows(bs, i, lens))
  {
    hide Around, Unordered, GeoTable, GeoRows, GeoGrid, Sum;
    GeoAround(page, idx, bs, i, lens);
    GeoTableBecomes(page, idx, GeoRows(bs, i, lens), out);
    SameAround(GeoTable(page, idx, GeoRows(bs, i, lens)), out, bs[i..i + Sum(lens)]);
  }

  /** The block built of a segment, once it is numbered. */
  lemma BuiltBecomes(page: int, idx: nat, bs: seq<Block>, i: nat, out: Block)
    requires i < |bs| && Alike(out, Built(page, idx, bs, i, SegmentAt(bs, i)))
    ensures Becomes(SegmentAt(bs, i), bs, i, out)
  {
    hide *;
    SegmentFound(bs, i);
    SegmentFits(bs, i);
    BuiltCases(page, idx, bs, i);
    var s := SegmentAt(bs, i);
    var b := Built(page, idx, bs, i, s);
    LenCases(s);
    if s.ListSeg? {
      ListBecomes(page, idx, bs, i, s.ordered, s.n, out);
    } else if s.CellSeg? {
      CellBecomes(page, idx, Rows(bs[i..i + s.n], s.sp), out);
    } else if s.GeoSeg? {
      GeoBecomes(page, idx, bs, i, s.lens, out);
    }
    Concluded(s, bs, i, out);
  }

  lemma LenCases(s: Segment)
    ensures s.ListSeg? ==> Len(s) == s.n
    ensures s.GeoSeg? ==> Len(s) == Sum(s.lens)
  {}

  lemma Concluded(s: Segment, typed: seq<Block>, at: nat, out: Block)
    requires at < |typed| && Len(s) <= |typed| - at && SegmentOk(s, typed[at..at + Len(s)], typed[at + Len(s)..])
    requires s == Copy ==> Alike(out, typed[at])
    requires s.ListSeg? ==>
      && at + s.n <= |typed| && AllItems(typed[at..at + s.n], s.ordered)
      && out.typ == List && out.attrs == map["ordered" := Flag(s.ordered)] && Around(out, typed[at..at + s.n])
      && |out.children| == s.n && forall k :: 0 <= k < s.n ==> ItemOf(out.children[k], typed[at + k], s.ordered)
    requires s.CellSeg? ==> at + s.n <= |typed| && TextGrid(out, Rows(typed[at..at + s.n], s.sp))
    requires s.GeoSeg? ==>
      && at + Sum(s.lens) <= |typed| && Around(out, typed[at..at + Sum(s.lens)])
      && GeoGrid(out, GeoRows(typed, at, s.lens))
    ensures Becomes(s, typed, at, out)
  {
    hide SegmentOk, Alike, Around, AllItems, ItemOf, Sum, TextGrid, GeoGrid, Rows, GeoRows;
  }

  lemma CellBecomes(page: int, idx: nat, rows: seq<seq<string>>, out: Block)
    requires Alike(out, TextTable(page, idx, rows))
    ensures TextGrid(out, rows)
  {
    hide Unordered, TextLine, TextRow;
    var t := TextTable(page, idx, rows);
    UnorderedEach(out.children, t.children);
    forall r | 0 <= r < |rows|
      ensures TextLine(out.children[r], rows[r])
    {
      assert Alike(out.children[r], t.children[r]);
      LineBecomes(page, idx, r + 1, rows[r], out.children[r]);
    }
  }

  lemma LineBecomes(page: int, idx: nat, r: nat, texts: seq<string>, out: Block)
    requires Alike(out, TextRow(page, idx, r, texts))
    ensures TextLine(out, texts)
  {
    hide Unordered, RowId, CellId;
    var cells := TextCells(page, idx, r, texts);
    UnorderedEach(out.children, cells);
    forall c | 0 <= c < |texts|
      ensures
        var cell := out.children[c];
        Placeless(cell, TableCell) && cell.text == texts[c] && cell.attrs == map[] && cell.children == []
    {
      assert Alike(out.children[c], cells[c]);
      Childless(out.children[c], cells[c]);
    }
  }

  lemma Childless(a: Block, b: Block)
    requires Alike(a, b) && b.children == []
    ensures a.children == []
  {
    UnorderedLength(a.children);
    UnorderedLength(b.children);
  }

  lemma GeoTableBecomes(page: int, idx: nat, rows: seq<seq<Block>>, out: Block)
    requires Alike(out, GeoTable(page, idx, rows))
    ensures GeoGrid(out, rows)
  {
    hide Unordered, GeoLine, GeoRow, UnionBox, MinConf, AllCells, TableId;
    var t := GeoTable(page, idx, rows);
    UnorderedEach(out.children, t.children);
    forall r | 0 <= r < |rows|
      ensures GeoLine(out.children[r], rows[r])
    {
      assert Alike(out.children[r], t.children[r]);
      GeoLineBecomes(page, idx, r + 1, rows[r], out.children[r]);
    }
  }

  lemma GeoLineBecomes(page: int, idx: nat, r: nat, bs: seq<Block>, out: Block)
    requires Alike(out, GeoRow(page, idx, r, bs))
    ensures GeoLine(out, bs)
  {
    hide Unordered, UnionBox, MinConf, RowId, CellId, Around;
    var cells := GeoCells(page, idx, r, bs);
    UnorderedEach(out.children, cells);
    if bs != [] {
      UnionAround(out, cells);
      AroundSame(out, cells, bs);
    }
    forall c | 0 <= c < |bs|
      ensures CellFrom(out.children[c], bs[c])
    {
      assert Alike(out.children[c], cells[c]);
      Childless(out.children[c], cells[c]);
    }
  }

  lemma BuiltCases(page: int, idx: nat, bs: seq<Block>, i: nat)
    requires i < |bs|
    ensures
      var s := SegmentAt(bs, i);
      var b := Built(page, idx, bs, i, s);
      && (s == Copy ==> b == bs[i])
      && (s.ListSeg? ==> 0 < s.n && i + s.n <= |bs| && AllItems(bs[i..i + s.n], s.ordered)
                         && b == ListBlock(page, idx, Items(bs[i..i + s.n], s.ordered), s.ordered))
      && (s.CellSeg? ==> i + s.n <= |bs| && b == TextTable(page, idx, Rows(bs[i..i + s.n], s.sp)))
      && (s.GeoSeg? ==> 0 < Sum(s.lens) && i + Sum(s.lens) <= |bs| && b == GeoTable(page, idx, GeoRows(bs, i, s.lens)))
  {
    hide SegmentAt, ListBlock, TextTable, GeoTable, GeoRows, Rows, IsItem, Items;
    var s := SegmentAt(bs, i);
    if s.ListSeg? {
      SegmentFound(bs, i);
    }
  }

  lemma {:induction false} UnorderedEach(a: seq<Block>, b: seq<Block>)
    requires Unordered(a) == Unordered(b)
    ensures |a| == |b| && forall k :: 0 <= k < |a| ==> Alike(a[k], b[k])
    decreases |a|
  {
    UnorderedLength(a);
    UnorderedLength(b);
    if a != [] {
      assert Unordered(a)[0] == Unordered(b)[0] && Unordered(a)[1..] == Unordered(b)[1..];
      UnorderedEach(a[1..], b[1..]);
      hide Unordered;
      assert a == [a[0]] + a[1..] && b == [b[0]] + b[1..];
      forall k | 0 <= k < |a|
        ensures Alike(a[k], b[k])
      {
        if k > 0 {
          assert Alike(a[1..][k - 1], b[1..][k - 1]);
        }
      }
    }
  }

  lemma {:induction false} UnorderedLength(a: seq<Block>)
    ensures |Unordered(a)| == |a|
    decreases |a|
  {
    if a != [] {
      UnorderedLength(a[1..]);
    }
  }

  lemma ItemsAlike(out: seq<Block>, items: seq<Block>, src: seq<Block>, ordered: bool)
    requires Unordered(out) == Unordered(items) && |items| == |src|
    requires forall i :: 0 <= i < |src| ==> ItemOf(items[i], src[i], ordered)
    ensures |out| == |src| && forall i :: 0 <= i < |src| ==> ItemOf(out[i], src[i], ordered)
  {
    hide Unordered, IsItem, ListBody, TrimSpace;
    UnorderedEach(out, items);
    forall i | 0 <= i < |src|
      ensures ItemOf(out[i], src[i], ordered)
    {
      assert Alike(out[i], items[i]);
      Childless(out[i], items[i]);
    }
  }

  lemma TypedRetyped(src: seq<Block>, isLetter: char -> bool)
    ensures forall k :: 0 <= k < |src| ==> Retyped(src[k], TypedAll(src, isLetter)[k], isLetter)
  {
    hide LooksLikeHeading;
  }

  lemma ReconstructedOutlined(page: int, typed: seq<Block>, order: int)
    ensures Outlined(typed, Numbered(Reconstructed(page, typed), order).0)
  {
    PageIsSegmented(page, typed);
    NumberedAlike(Reconstructed(page, typed), order);
    var segs := Segments(typed, 0);
    var out := Numbered(Reconstructed(page, typed), order).0;
    hide Numbered, Reconstructed, Segments, Becomes, SegmentOk, SegmentAt, Built, Alike, Len, Span;
    forall k | 0 <= k < |segs|
      ensures Becomes(segs[k], typed, Span(segs[..k]), out[k])
    {
      assert Cut(page, typed, 0, 1, segs, Reconstructed(page, typed), k);
      BuiltBecomes(page, 1 + k, typed, Span(segs[..k]), out[k]);
    }
  }

  /** Analysis leaves a page as it is but for its blocks. Those are put in order, the
      paragraphs that look like headings become headings, and the page is cut up as above. */
  lemma AnalyzedOutline(d: Doc, arrange: seq<Block> -> seq<Block>, isLetter: char -> bool, i: nat)
    requires d.pages.Some? && i < |d.pages.value|
    ensures
      var p := d.pages.value[i];
      var q := Analyzed(d, arrange, isLetter).pages.value[i];
      var src := arrange(p.blocks);
      && q == p.(blocks := q.blocks)
      && exists typed: seq<Block> ::
           |typed| == |src| && (forall k :: 0 <= k < |src| ==> Retyped(src[k], typed[k], isLetter))
           && Outlined(typed, q.blocks)
  {
    hide Reconstructed, Numbered, Outlined;
    var p := d.pages.value[i];
    var at := Scans.AnalyzedAt(d.pages.value, arrange, isLetter, 0, i);
    var typed := TypedAll(arrange(p.blocks), isLetter);
    TypedRetyped(arrange(p.blocks), isLetter);
    ReconstructedOutlined(p.number, typed, at);
    hide TypedAll, Retyped, AnalyzedPages;
  }
}
