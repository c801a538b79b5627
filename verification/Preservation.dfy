/** What layout followed by clean-up preserves: validity, and the reading order that
    the exporter and the viewer sort by. */
module Preservation {
  import opened Domain
  import opened Text
  import opened Cdom
  import opened Recognize
  import opened Reconstruct
  import opened Segmentation
  import opened Layout
  import opened Postprocess
  import opened Seqs

  // ---------- unions ----------

  predicate Contains(a: BBox, b: BBox) {
    a.x1 <= b.x1 && a.y1 <= b.y1 && b.x2 <= a.x2 && b.y2 <= a.y2
  }

  /** Every side of the union is a side of some block. */
  predicate Tight(a: BBox, bs: seq<Block>) {
    && (exists i :: 0 <= i < |bs| && bs[i].bbox.x1 == a.x1)
    && (exists i :: 0 <= i < |bs| && bs[i].bbox.y1 == a.y1)
    && (exists i :: 0 <= i < |bs| && bs[i].bbox.x2 == a.x2)
    && (exists i :: 0 <= i < |bs| && bs[i].bbox.y2 == a.y2)
  }

  lemma JoinTight(a: BBox, bs: seq<Block>, b: Block)
    requires Tight(a, bs)
    ensures Tight(JoinBox(a, b.bbox), bs + [b])
  {
    var all := bs + [b];
    assert all[|bs|] == b && forall i :: 0 <= i < |bs| ==> all[i] == bs[i];
    var i :| 0 <= i < |bs| && bs[i].bbox.x1 == a.x1;
    var j :| 0 <= j < |bs| && bs[j].bbox.y1 == a.y1;
    var k :| 0 <= k < |bs| && bs[k].bbox.x2 == a.x2;
    var l :| 0 <= l < |bs| && bs[l].bbox.y2 == a.y2;
    assert all[i].bbox.x1 == a.x1 && all[j].bbox.y1 == a.y1 && all[k].bbox.x2 == a.x2 && all[l].bbox.y2 == a.y2;
  }

  /** unionBBox is the least box around its blocks. */
  lemma {:induction false} UnionIsLeast(bs: seq<Block>)
    requires bs != []
    ensures forall i :: 0 <= i < |bs| ==> Contains(UnionBox(bs), bs[i].bbox)
    ensures Tight(UnionBox(bs), bs)
  {
    if |bs| > 1 {
      var init := bs[..|bs| - 1];
      UnionIsLeast(init);
      JoinTight(UnionBox(init), init, bs[|bs| - 1]);
      assert bs == init + [bs[|bs| - 1]];
      forall i | 0 <= i < |bs|
        ensures Contains(UnionBox(bs), bs[i].bbox)
      {
        assert i < |init| ==> Contains(UnionBox(init), init[i].bbox);
      }
    }
  }

  lemma {:induction false} UnionOk(bs: seq<Block>)
    requires forall i :: 0 <= i < |bs| ==> BoxOk(bs[i].bbox)
    ensures BoxOk(UnionBox(bs))
  {
    if |bs| > 1 {
      UnionOk(bs[..|bs| - 1]);
    }
  }

  /** minConfidence is the least confidence. */
  lemma {:induction false} MinIsLeast(bs: seq<Block>)
    requires bs != []
    ensures forall i :: 0 <= i < |bs| ==> MinConf(bs) <= bs[i].confidence
    ensures exists i :: 0 <= i < |bs| && bs[i].confidence == MinConf(bs)
  {
    if |bs| > 1 {
      var init := bs[..|bs| - 1];
      MinIsLeast(init);
      var i :| 0 <= i < |init| && init[i].confidence == MinConf(init);
      assert bs[i].confidence == MinConf(init);
      assert forall k :: 0 <= k < |init| ==> init[k] == bs[k];
      assert bs[i].confidence == MinConf(bs) || bs[|bs| - 1].confidence == MinConf(bs);
    } else {
      assert bs[0].confidence == MinConf(bs);
    }
  }

  lemma MinOk(bs: seq<Block>)
    requires forall i :: 0 <= i < |bs| ==> 0.0 <= bs[i].confidence <= 1.0
    ensures 0.0 <= MinConf(bs) <= 1.0
  {
    if bs != [] {
      MinIsLeast(bs);
    }
  }

  // ---------- validity ----------

  ghost predicate AllOk(bs: seq<Block>) {
    forall i :: 0 <= i < |bs| ==> BlockOk(bs[i])
  }

  lemma AllOkIn(bs: seq<Block>)
    ensures AllOk(bs) <==> forall b :: b in bs ==> BlockOk(b)
  {
    hide BlockOk;
    if forall b :: b in bs ==> BlockOk(b) {
      forall i | 0 <= i < |bs|
        ensures BlockOk(bs[i])
      {
        assert bs[i] in bs;
      }
    }
  }

  lemma HeadsOk(bs: seq<Block>)
    requires AllOk(bs)
    ensures forall i :: 0 <= i < |bs| ==> BoxOk(bs[i].bbox) && 0.0 <= bs[i].confidence <= 1.0
  {
    forall i | 0 <= i < |bs|
      ensures BoxOk(bs[i].bbox) && 0.0 <= bs[i].confidence <= 1.0
    {
      assert BlockOk(bs[i]);
    }
  }

  lemma GroupOk(id: string, typ: BlockType, kids: seq<Block>, of: seq<Block>, attrs: map<string, Attr>)
    requires id != "" && (typ == List || typ == Table || typ == TableRow) && AllOk(kids) && AllOk(of)
    ensures BlockOk(Block(id, typ, UnionBox(of), 0, MinConf(of), "", "", kids, attrs))
  {
    HeadsOk(of);
    UnionOk(of);
    MinOk(of);
    AllOkIn(kids);
  }

  lemma NamesNonEmpty(page: int, idx: nat, r: nat, c: nat)
    ensures ListId(page, idx) != "" && TableId(page, idx) != "" && RowId(page, idx, r) != ""
      && CellId(page, idx, r, c) != ""
  {
    hide Dec, IntText;
    assert PageId(page)[0] == 'p';
  }

  lemma ItemsOk(src: seq<Block>, ordered: bool)
    requires AllOk(src) && AllItems(src, ordered)
    ensures AllOk(Items(src, ordered))
  {
    hide ListBody, TrimSpace;
    forall i | 0 <= i < |src|
      ensures BlockOk(Items(src, ordered)[i])
    {
      assert BlockOk(src[i]);
    }
  }

  lemma ListOk(page: int, idx: nat, src: seq<Block>, ordered: bool)
    requires AllOk(src) && AllItems(src, ordered)
    ensures BlockOk(ListBlock(page, idx, Items(src, ordered), ordered))
  {
    hide UnionBox, MinConf, ListId, Items, BlockOk;
    ItemsOk(src, ordered);
    NamesNonEmpty(page, idx, 0, 0);
    var items := Items(src, ordered);
    GroupOk(ListId(page, idx), List, items, items, map["ordered" := Flag(ordered)]);
  }

  lemma TextCellOk(page: int, idx: nat, r: nat, c: nat, text: string)
    ensures BlockOk(TextCell(page, idx, r, c, text))
  {
    hide CellId;
    NamesNonEmpty(page, idx, r, c);
  }

  /** A container without a box whose children are in order. */
  lemma BoxlessOk(id: string, typ: BlockType, kids: seq<Block>, attrs: map<string, Attr>)
    requires id != "" && (typ == Table || typ == TableRow) && AllOk(kids)
    ensures BlockOk(Block(id, typ, NO_BOX, 0, 0.75, "", "", kids, attrs))
  {
    AllOkIn(kids);
  }

  lemma TextRowOk(page: int, idx: nat, r: nat, row: seq<string>)
    ensures BlockOk(TextRow(page, idx, r, row))
  {
    hide BlockOk, RowId, TextCell;
    var cells := TextCells(page, idx, r, row);
    forall c | 0 <= c < |row|
      ensures BlockOk(cells[c])
    {
      TextCellOk(page, idx, r, c + 1, row[c]);
    }
    NamesNonEmpty(page, idx, r, 0);
    BoxlessOk(RowId(page, idx, r), TableRow, cells, map[]);
  }

  lemma TextTableOk(page: int, idx: nat, rows: seq<seq<string>>)
    ensures BlockOk(TextTable(page, idx, rows))
  {
    hide BlockOk, TableId, TextRow;
    var kids := TextRows(page, idx, rows);
    forall k | 0 <= k < |rows|
      ensures BlockOk(kids[k])
    {
      TextRowOk(page, idx, k + 1, rows[k]);
    }
    NamesNonEmpty(page, idx, 0, 0);
    BoxlessOk(TableId(page, idx), Table, kids, map["reconstruction" := Word("pipe_or_space")]);
  }

  lemma GeoCellsOk(page: int, idx: nat, r: nat, row: seq<Block>)
    requires AllOk(row)
    ensures AllOk(GeoCells(page, idx, r, row))
  {
    hide CellId;
    forall c | 0 <= c < |row|
      ensures BlockOk(GeoCells(page, idx, r, row)[c])
    {
      assert BlockOk(row[c]);
      NamesNonEmpty(page, idx, r, c + 1);
    }
  }

  lemma {:induction false} AllCellsOk(page: int, idx: nat, from: nat, rows: seq<seq<Block>>)
    requires forall k :: 0 <= k < |rows| ==> AllOk(rows[k])
    ensures AllOk(AllCells(page, idx, from, rows))
    decreases |rows|
  {
    hide BlockOk, GeoCells;
    if rows != [] {
      AllCellsOk(page, idx, from + 1, rows[1..]);
      GeoCellsOk(page, idx, from, rows[0]);
    }
  }

  lemma GeoTableOk(page: int, idx: nat, rows: seq<seq<Block>>)
    requires forall k :: 0 <= k < |rows| ==> AllOk(rows[k])
    ensures BlockOk(GeoTable(page, idx, rows))
  {
    hide BlockOk, AllCells, GeoCells, UnionBox, MinConf, RowId, TableId;
    var kids := GeoRowBlocks(page, idx, rows);
    forall k | 0 <= k < |rows|
      ensures BlockOk(kids[k])
    {
      GeoCellsOk(page, idx, k + 1, rows[k]);
      NamesNonEmpty(page, idx, k + 1, 0);
      var cells := GeoCells(page, idx, k + 1, rows[k]);
      GroupOk(RowId(page, idx, k + 1), TableRow, cells, cells, map[]);
    }
    AllCellsOk(page, idx, 1, rows);
    NamesNonEmpty(page, idx, 0, 0);
    GroupOk(TableId(page, idx), Table, kids, AllCells(page, idx, 1, rows),
          map["reconstruction" := Word("geometric_columns")]);
  }

  lemma {:induction false} GeoRowsOk(bs: seq<Block>, i: nat, lens: seq<nat>)
    requires i + Sum(lens) <= |bs| && AllOk(bs)
    ensures forall k :: 0 <= k < |GeoRows(bs, i, lens)| ==> AllOk(GeoRows(bs, i, lens)[k])
    decreases |lens|
  {
    hide BlockOk;
    if lens != [] {
      GeoRowsOk(bs, i + lens[0], lens[1..]);
    }
  }

  lemma BuiltOk(page: int, idx: nat, bs: seq<Block>, i: nat)
    requires i < |bs| && AllOk(bs)
    ensures BlockOk(Built(page, idx, bs, i, SegmentAt(bs, i)))
  {
    hide BlockOk, SegmentAt, IsItem, ListBlock, TextTable, GeoTable, GeoRows, Rows, Items;
    SegmentFits(bs, i);
    var s := SegmentAt(bs, i);
    match s
    case Copy =>
    case ListSeg(ordered, n) =>
      SegmentCases(bs, i);
      ListRunItems(bs, i, ordered);
      ListOk(page, idx, bs[i..i + n], ordered);
    case CellSeg(sp, n) => TextTableOk(page, idx, Rows(bs[i..i + n], sp));
    case GeoSeg(lens) =>
      GeoRowsOk(bs, i, lens);
      GeoTableOk(page, idx, GeoRows(bs, i, lens));
  }

  lemma {:induction false} RebuiltOk(page: int, bs: seq<Block>, i: nat, idx: nat)
    requires i <= |bs| && AllOk(bs)
    ensures AllOk(Rebuilt(page, bs, i, idx))
    decreases |bs| - i
  {
    hide BlockOk, SegmentAt, Built, Len;
    if i < |bs| {
      SegmentFits(bs, i);
      BuiltOk(page, idx, bs, i);
      RebuiltOk(page, bs, i + Len(SegmentAt(bs, i)), idx + 1);
    }
  }

  lemma {:induction false} NumberedOk(bs: seq<Block>, order: int)
    requires AllOk(bs)
    ensures AllOk(Numbered(bs, order).0)
    decreases bs
  {
    if bs != [] {
      var (kids, o1) := Numbered(bs[0].children, order + 1);
      assert BlockOk(bs[0]);
      AllOkIn(bs[0].children);
      NumberedOk(bs[0].children, order + 1);
      AllOkIn(kids);
      NumberedOk(bs[1..], o1);
    }
  }

  lemma ArrangedOk(bs: seq<Block>, as': seq<Block>)
    requires AllOk(bs) && multiset(as') == multiset(bs)
    ensures AllOk(as')
  {
    forall i | 0 <= i < |as'|
      ensures BlockOk(as'[i])
    {
      assert as'[i] in multiset(as');
      assert as'[i] in bs;
    }
  }

  lemma TypedOk(bs: seq<Block>, isLetter: char -> bool)
    requires AllOk(bs)
    ensures AllOk(TypedAll(bs, isLetter))
  {
    hide LooksLikeHeading;
    forall k | 0 <= k < |bs|
      ensures BlockOk(TypedAll(bs, isLetter)[k])
    {
      assert BlockOk(bs[k]);
    }
  }

  lemma AnalyzedPageOk(p: Page, arrange: seq<Block> -> seq<Block>, isLetter: char -> bool, order: int)
    requires PageOk(p) && multiset(arrange(p.blocks)) == multiset(p.blocks)
    ensures PageOk(AnalyzedPage(p, arrange, isLetter, order).0)
  {
    hide BlockOk, Reconstructed, Numbered, TypedAll, AllOk;
    AllOkIn(p.blocks);
    var a := arrange(p.blocks);
    ArrangedOk(p.blocks, a);
    TypedOk(a, isLetter);
    var t := TypedAll(a, isLetter);
    assert AllOk(Reconstructed(p.number, t)) by { RebuiltOk(p.number, t, 0, 1); RebuiltFromStart(p.number, t); }
    NumberedOk(Reconstructed(p.number, t), order);
    AllOkIn(Numbered(Reconstructed(p.number, t), order).0);
  }

  lemma RebuiltFromStart(page: int, bs: seq<Block>)
    ensures Reconstructed(page, bs) == Rebuilt(page, bs, 0, 1)
  {}

  lemma {:induction false} AnalyzedPagesOk(ps: seq<Page>, arrange: seq<Block> -> seq<Block>, isLetter: char -> bool,
                                           order: int)
    requires forall p :: p in ps ==> PageOk(p)
    requires forall s: seq<Block> :: multiset(arrange(s)) == multiset(s)
    ensures forall p :: p in AnalyzedPages(ps, arrange, isLetter, order).0 ==> PageOk(p)
    decreases |ps|
  {
    hide PageOk, AnalyzedPage;
    if ps != [] {
      AnalyzedPageOk(ps[0], arrange, isLetter, order);
      AnalyzedPagesOk(ps[1..], arrange, isLetter, AnalyzedPage(ps[0], arrange, isLetter, order).1);
    }
  }

  lemma CleanedPageOk(p: Page)
    requires PageOk(p)
    ensures PageOk(p.(blocks := Cleaned(p.blocks)))
  {
    hide Cleaned, BlockOk;
    CleanKeepsOk(p.blocks);
  }

  /** The document the engine validates. */
  function Normalized(d: Doc, arrange: seq<Block> -> seq<Block>, isLetter: char -> bool): Doc {
    CleanedDoc(Analyzed(d, arrange, isLetter))
  }

  /** A document that is valid as extracted is valid after layout and clean-up,
      whatever order the sort leaves: normalization cannot fail. */
  lemma NormalizationCannotFail(d: Doc, arrange: seq<Block> -> seq<Block>, isLetter: char -> bool)
    requires Validate(d) == None
    requires forall s: seq<Block> :: multiset(arrange(s)) == multiset(s)
    ensures Validate(Normalized(d, arrange, isLetter)) == None
  {
    ValidateIffDocOk(d);
    var a := AnalyzedPages(d.pages.value, arrange, isLetter, 0).0;
    AnalyzedPagesOk(d.pages.value, arrange, isLetter, 0);
    hide AnalyzedPages, Cleaned, PageOk;
    forall p | p in CleanedPages(a)
      ensures PageOk(p)
    {
      var i :| 0 <= i < |a| && p == a[i].(blocks := Cleaned(a[i].blocks));
      CleanedPageOk(a[i]);
    }
    ValidateIffDocOk(Normalized(d, arrange, isLetter));
  }

  // ---------- reading order ----------

  function DocOrders(ps: seq<Page>): seq<int> {
    if ps == [] then [] else Orders(ps[0].blocks) + DocOrders(ps[1..])
  }

  function DocSize(ps: seq<Page>): nat {
    if ps == [] then 0 else Size(ps[0].blocks) + DocSize(ps[1..])
  }

  lemma {:induction false} NumberedSize(bs: seq<Block>, order: int)
    ensures Size(Numbered(bs, order).0) == Size(bs)
    decreases bs
  {
    if bs != [] {
      NumberedSize(bs[0].children, order + 1);
      var (kids, o1) := Numbered(bs[0].children, order + 1);
      NumberedSize(bs[1..], o1);
      var (rest, o2) := Numbered(bs[1..], o1);
      assert ([bs[0].(order := order + 1, children := kids)] + rest)[1..] == rest;
    }
  }

  lemma {:induction false} PagesNumberedConsecutively(ps: seq<Page>, arrange: seq<Block> -> seq<Block>,
                                                      isLetter: char -> bool, order: int)
    ensures
      var (r, last) := AnalyzedPages(ps, arrange, isLetter, order);
      DocOrders(r) == From(order + 1, DocSize(r)) && last == order + DocSize(r)
    decreases |ps|
  {
    hide Reconstructed, Numbered, TypedAll, Orders, Size;
    if ps != [] {
      var blocks := Reconstructed(ps[0].number, TypedAll(arrange(ps[0].blocks), isLetter));
      NumberedConsecutively(blocks, order);
      NumberedSize(blocks, order);
      var o1 := AnalyzedPage(ps[0], arrange, isLetter, order).1;
      PagesNumberedConsecutively(ps[1..], arrange, isLetter, o1);
    }
  }

  /** After layout the reading order over the whole document is 1, 2, ..., N in
      pre-order across the pages. */
  lemma ReadingOrderComplete(d: Doc, arrange: seq<Block> -> seq<Block>, isLetter: char -> bool)
    requires d.pages.Some?
    ensures
      var ps := Analyzed(d, arrange, isLetter).pages.value;
      DocOrders(ps) == From(1, DocSize(ps))
  {
    hide AnalyzedPages, DocOrders, DocSize;
    PagesNumberedConsecutively(d.pages.value, arrange, isLetter, 0);
  }

  lemma {:induction false} PagesThinned(ps: seq<Page>)
    ensures Sub(DocOrders(CleanedPages(ps)), DocOrders(ps))
    decreases |ps|
  {
    hide Sub, Cleaned;
    if ps == [] {
      SubSelf<int>([]);
    } else {
      OrdersThinned(ps[0].blocks);
      PagesThinned(ps[1..]);
      assert CleanedPages(ps)[1..] == CleanedPages(ps[1..]);
      SubAppend(Orders(Cleaned(ps[0].blocks)), Orders(ps[0].blocks), DocOrders(CleanedPages(ps[1..])),
            DocOrders(ps[1..]));
    }
  }

  /** After clean-up it is still strictly ascending. */
  lemma ReadingOrderAscends(d: Doc, arrange: seq<Block> -> seq<Block>, isLetter: char -> bool)
    requires d.pages.Some?
    ensures Ascending(DocOrders(Normalized(d, arrange, isLetter).pages.value))
  {
    var ps := Analyzed(d, arrange, isLetter).pages.value;
    ReadingOrderComplete(d, arrange, isLetter);
    PagesThinned(ps);
    SubAscending(DocOrders(CleanedPages(ps)), DocOrders(ps));
  }

  // ---------- the exporter's sort ----------

  const BY_ORDER: Block -> int := (b: Block) => b.order

  /** The orders of the blocks of a page, without their children. */
  function Tops(bs: seq<Block>): (r: seq<int>)
    ensures |r| == |bs| && forall i :: 0 <= i < |bs| ==> r[i] == bs[i].order
  {
    if bs == [] then [] else [bs[0].order] + Tops(bs[1..])
  }

  lemma {:induction false} TopOrders(bs: seq<Block>)
    ensures Sub(Tops(bs), Orders(bs))
    decreases |bs|
  {
    hide Sub;
    if bs == [] {
      SubNothing(Orders(bs));
    } else {
      var kids, more := Orders(bs[0].children), Orders(bs[1..]);
      TopOrders(bs[1..]);
      SubNothing(kids);
      SubAppend([], kids, Tops(bs[1..]), more);
      assert [] + Tops(bs[1..]) == Tops(bs[1..]);
      SubCons(bs[0].order, Tops(bs[1..]), kids + more);
      assert [bs[0].order] + (kids + more) == [bs[0].order] + kids + more;
    }
  }

  lemma {:induction false} PageOrders(ps: seq<Page>, i: nat)
    requires i < |ps| && Ascending(DocOrders(ps))
    ensures Ascending(Orders(ps[i].blocks))
  {
    var a, b := Orders(ps[0].blocks), DocOrders(ps[1..]);
    if i == 0 {
      assert forall k :: 0 <= k < |a| ==> a[k] == (a + b)[k];
    } else {
      assert forall k :: 0 <= k < |b| ==> b[k] == (a + b)[|a| + k];
      PageOrders(ps[1..], i - 1);
    }
  }

  /** The exporter sorts every page by reading order: whatever the sort returns, it is
      the page as it stands. */
  lemma ExporterSortIdentity(d: Doc, arrange: seq<Block> -> seq<Block>, isLetter: char -> bool, i: nat,
                             sorted: seq<Block>)
    requires d.pages.Some? && i < |d.pages.value|
    requires SortedBy(BY_ORDER, Normalized(d, arrange, isLetter).pages.value[i].blocks, sorted)
    ensures sorted == Normalized(d, arrange, isLetter).pages.value[i].blocks
  {
    var ps := Normalized(d, arrange, isLetter).pages.value;
    var bs := ps[i].blocks;
    ReadingOrderAscends(d, arrange, isLetter);
    PageOrders(ps, i);
    TopOrders(bs);
    SubAscending(Tops(bs), Orders(bs));
    hide Analyzed, CleanedDoc, Normalized, Tops, Orders, Sub;
    assert forall k :: 0 <= k < |bs| ==> BY_ORDER(bs[k]) == Tops(bs)[k];
    SortIsIdentity(BY_ORDER, bs, sorted);
  }

  // ---------- the viewer's list ----------

  /** A block as the viewer lists it, with the page it is on. */
  datatype Shown = Shown(block: Block, page: int)

  function Flattened(bs: seq<Block>, page: int): seq<Shown> {
    if bs == [] then []
    else [Shown(bs[0], page)] + Flattened(bs[0].children, page) + Flattened(bs[1..], page)
  }

  function AllShown(ps: seq<Page>): seq<Shown> {
    if ps == [] then [] else Flattened(ps[0].blocks, ps[0].number) + AllShown(ps[1..])
  }

  /** flattenBlocks: pushes onto the accumulator. */
  method FlattenBlocks(bs: seq<Block>, page: int, acc: seq<Shown>) returns (out: seq<Shown>)
    ensures out == acc + Flattened(bs, page)
    decreases Size(bs)
  {
    out := acc;
    assert acc + Flattened(bs, page) == out + Flattened(bs[0..], page) by { assert bs[0..] == bs; }
    for i := 0 to |bs|
      invariant acc + Flattened(bs, page) == out + Flattened(bs[i..], page)
    {
      ChildSmaller(bs, i);
      ghost var b, kids, rest := [Shown(bs[i], page)], Flattened(bs[i].children, page), Flattened(bs[i + 1..], page);
      assert bs[i..][0] == bs[i] && bs[i..][1..] == bs[i + 1..];
      assert out + (b + kids + rest) == out + b + kids + rest;
      out := out + [Shown(bs[i], page)];
      if |bs[i].children| > 0 {
        out := FlattenBlocks(bs[i].children, page, out);
      } else {
        assert out + kids == out;
      }
    }
    assert out + [] == out;
  }

  const BY_SHOWN_ORDER: Shown -> int := (s: Shown) => s.block.order

  lemma {:induction false} FlattenedOrders(bs: seq<Block>, page: int)
    ensures
      var f := Flattened(bs, page);
      |f| == |Orders(bs)| && forall k :: 0 <= k < |f| ==> f[k].block.order == Orders(bs)[k]
    decreases bs
  {
    if bs != [] {
      FlattenedOrders(bs[0].children, page);
      FlattenedOrders(bs[1..], page);
    }
  }

  lemma {:induction false} AllShownOrders(ps: seq<Page>)
    ensures
      var f := AllShown(ps);
      |f| == |DocOrders(ps)| && forall k :: 0 <= k < |f| ==> f[k].block.order == DocOrders(ps)[k]
  {
    hide Flattened, Orders;
    if ps != [] {
      FlattenedOrders(ps[0].blocks, ps[0].number);
      AllShownOrders(ps[1..]);
    }
  }

  /** The viewer flattens all pages and sorts by reading order: the sort changes nothing. */
  lemma ViewerSortIdentity(d: Doc, arrange: seq<Block> -> seq<Block>, isLetter: char -> bool, sorted: seq<Shown>)
    requires d.pages.Some?
    requires SortedBy(BY_SHOWN_ORDER, AllShown(Normalized(d, arrange, isLetter).pages.value), sorted)
    ensures sorted == AllShown(Normalized(d, arrange, isLetter).pages.value)
  {
    var ps := Normalized(d, arrange, isLetter).pages.value;
    ReadingOrderAscends(d, arrange, isLetter);
    hide Normalized;
    AllShownOrders(ps);
    SortIsIdentity(BY_SHOWN_ORDER, AllShown(ps), sorted);
  }
}
