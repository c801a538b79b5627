/** When a document with pages read by OCR comes through normalization. The engine
    validates after layout and clean-up, so a page whose text is blank is no obstacle. */
module Scans {
  import opened Domain
  import opened Text
  import opened Cdom
  import opened Recognize
  import opened Reconstruct
  import opened Layout
  import opened Postprocess
  import opened Preservation
  import opened Pages

  // ---------- one block on a page ----------

  lemma LastVisible(t: string, pre: string, gap: string, body: string)
    requires t == pre + gap + body && gap != [] && AllSpace(gap) && Trimmed(t)
    ensures body != [] && !IsSpace(body[|body| - 1])
  {
    hide IsSpace;
    var u := gap + body;
    assert t == pre + u && t[|t| - 1] == u[|u| - 1];
    assert IsSpace(gap[|gap| - 1]);
  }

  lemma BlankWhenTrimmed(s: string)
    requires TrimSpace(s) == ""
    ensures AllSpace(s)
  {
    var pre, post := TrimSplits(s);
    hide TrimSpace, IsSpace;
    assert s == pre + post;
  }

  /** The body of a list item is never blank: its text ends in a visible character. */
  lemma BodyNotBlank(ordered: bool, text: string)
    requires ListBody(ordered, text).Some?
    ensures TrimSpace(text) != "" && TrimSpace(ListBody(ordered, text).value) != ""
  {
    var marker, gap := ItemSplits(ordered, text);
    var t, body := TrimSpace(text), ListBody(ordered, text).value;
    assert Trimmed(t);
    hide ListBody, TrimSpace, IsSpace;
    LastVisible(t, marker, gap, body);
    if TrimSpace(body) == "" {
      BlankWhenTrimmed(body);
    }
  }

  lemma NoTableInOne(b: Block, sp: Splitter)
    ensures TableRun([b], 0, sp) == 0
  {
    hide CellsOf, Skipped, IsRow;
    assert [b][1..] == [];
    NoRows(sp);
    var n := RowRun([b], 0, sp, |CellsOf(sp, b.text)|);
    assert [b][0..n] == if n == 0 then [] else [b];
    assert [b][0..0] == [];
  }

  lemma NoGeoInOne(b: Block)
    ensures GeoRun([b], 0, []) == []
  {}

  /** A page of one plain block becomes that block, or a list of one item. */
  lemma OneBlockPage(page: int, b: Block)
    requires IsPlain(b)
    ensures
      Reconstructed(page, [b])
        == if IsItem(true, b) then [ListBlock(page, 1, [Item(b, true)], true)]
           else if IsItem(false, b) then [ListBlock(page, 1, [Item(b, false)], false)]
           else [b]
  {
    hide TableRun, GeoRun, IsItem, Item, ListBlock, IsPlain;
    NoTableInOne(b, Pipes);
    NoTableInOne(b, Spaces);
    NoGeoInOne(b);
    var s := SegmentAt([b], 0);
    if IsItem(true, b) {
      OneItem(b, true);
    } else if IsItem(false, b) {
      OneItem(b, false);
    }
    assert Rebuilt(page, [b], 1, 2) == [];
    assert [Built(page, 1, [b], 0, s)] + [] == [Built(page, 1, [b], 0, s)];
  }

  lemma OneItem(b: Block, ordered: bool)
    requires IsItem(ordered, b)
    ensures ListRun([b], 0, ordered) == 1 && AllItems([b], ordered) && Items([b], ordered) == [Item(b, ordered)]
    ensures [b][0..1] == [b]
  {
    hide IsItem, Item;
    assert [b][1..] == [];
  }

  /** What a page keeps of its one block: it stands where the block stood, and nothing else
      about it can be invalid. */
  ghost predicate Stands(out: Block, b: Block) {
    BlockOk(out) <==> BoxOk(b.bbox) && 0.0 <= b.confidence <= 1.0
  }

  /** A block as OCR makes it, typed by layout. */
  predicate OcrLike(b: Block) {
    b.id != "" && (b.typ == Paragraph || b.typ == Heading) && b.children == []
  }

  lemma CleanedPlain(b: Block, order: int)
    requires OcrLike(b)
    ensures
      var out := Cleaned(Numbered([b], order).0);
      if TrimSpace(b.text) == "" then out == [] else |out| == 1 && Stands(out[0], b)
  {
    hide TrimSpace;
    assert [b][1..] == [];
    assert Numbered([], order + 1) == ([], order + 1);
    var n := b.(order := order + 1, children := []);
    assert Numbered([b], order).0 == [n];
    CleanedOne(n);
    CleanedNone();
  }

  lemma CleanedItem(i: Block, order: int)
    requires i.typ == ListItem && i.children == [] && i.id != "" && TrimSpace(i.text) != ""
    ensures
      var out := Cleaned(Numbered([i], order).0);
      |out| == 1 && out[0].children == [] && Stands(out[0], i)
  {
    hide TrimSpace;
    assert [i][1..] == [];
    assert Numbered([], order + 1) == ([], order + 1);
    var n := i.(order := order + 1, children := []);
    assert Numbered([i], order).0 == [n];
    CleanedOne(n);
    CleanedNone();
  }

  /** A block over one child, placed as the child is, stands as the child does. */
  lemma StandsOnChild(out: Block, k: Block, i: Block)
    requires out.children == [k] && Stands(k, i) && out.id != "" && out.typ == List
    requires out.bbox == i.bbox && out.confidence == i.confidence
    ensures Stands(out, i)
  {
    assert k in out.children;
    assert forall c :: c in out.children ==> c == k;
    assert BlockOk(out) <==> HeadOk(out) && BlockOk(k);
  }

  lemma CleanedList(page: int, i: Block, ordered: bool, order: int)
    requires i.typ == ListItem && i.children == [] && i.id != "" && TrimSpace(i.text) != ""
    ensures
      var out := Cleaned(Numbered([ListBlock(page, 1, [i], ordered)], order).0);
      |out| == 1 && Stands(out[0], i)
  {
    hide ListBlock, TrimSpace, Stands, Cleaned, Numbered, Empty;
    var l := ListBlock(page, 1, [i], ordered);
    OneItemList(page, i, ordered);
    CleanedItem(i, order + 1);
    NumberedOne(l, order);
    var kids := Numbered([i], order + 1).0;
    var n := l.(order := order + 1, children := kids);
    CleanedOne(n);
    var k := Cleaned(kids);
    assert k == [k[0]];
    var out := n.(text := TrimSpace(n.text), children := k);
    ListKept(out);
    StandsOnChild(out, k[0], i);
  }

  lemma ListKept(b: Block)
    requires b.typ == List && b.children != []
    ensures !Empty(b)
  {}

  lemma OneItemList(page: int, i: Block, ordered: bool)
    ensures
      var l := ListBlock(page, 1, [i], ordered);
      l.bbox == i.bbox && l.confidence == i.confidence && l.id != "" && l.typ == List && l.children == [i]
  {
    NamesNonEmpty(page, 1, 0, 0);
    hide ListId;
  }

  lemma NumberedOne(b: Block, order: int)
    ensures Numbered([b], order).0 == [b.(order := order + 1, children := Numbered(b.children, order + 1).0)]
  {
    var last := Numbered(b.children, order + 1).1;
    assert [b][1..] == [] && Numbered([], last) == ([], last);
  }

  lemma ItemFacts(b: Block, ordered: bool)
    requires OcrLike(b) && IsItem(ordered, b)
    ensures
      var i := Item(b, ordered);
      && i.typ == ListItem && i.children == [] && i.id == b.id && TrimSpace(i.text) != ""
      && i.bbox == b.bbox && i.confidence == b.confidence && TrimSpace(b.text) != ""
  {
    BodyNotBlank(ordered, b.text);
    TrimIdempotent(ListBody(ordered, b.text).value);
    hide TrimSpace, ListBody;
  }

  /** A page of one OCR block, once laid out and cleaned, is empty when the text is blank
      and otherwise valid exactly when the block was well placed. */
  lemma OneBlockNormalized(page: int, b: Block, order: int)
    requires OcrLike(b)
    ensures
      AllOk(Cleaned(Numbered(Reconstructed(page, [b]), order).0)) <==>
        (TrimSpace(b.text) != "" ==> BoxOk(b.bbox) && 0.0 <= b.confidence <= 1.0)
  {
    hide TrimSpace, Cleaned, Numbered, Reconstructed, IsItem, Item, ListBlock, BlockOk;
    OneBlockPage(page, b);
    if IsItem(true, b) {
      ItemFacts(b, true);
      CleanedList(page, Item(b, true), true, order);
    } else if IsItem(false, b) {
      ItemFacts(b, false);
      CleanedList(page, Item(b, false), false, order);
    } else {
      CleanedPlain(b, order);
    }
  }

  // ---------- one page ----------

  /** What an OCR page needs, unless its text is blank: margins of 72 on every side that do
      not cross, and a confidence that is one. */
  predicate Fits(width: real, height: real, r: OcrResult) {
    TrimSpace(r.text) != "" ==> width >= 144.0 && height >= 144.0 && 0.0 <= r.confidence <= 1.0
  }

  lemma OnlyArrangement(b: Block, a: seq<Block>)
    requires multiset(a) == multiset([b])
    ensures a == [b]
  {
    assert |multiset(a)| == |a| && |multiset([b])| == 1;
    assert a[0] in multiset(a);
  }

  lemma OcrPageNormalized(number: int, width: real, height: real, r: OcrResult, at: int,
                          arrange: seq<Block> -> seq<Block>, isLetter: char -> bool, order: int)
    requires number >= 1 && width > 0.0 && height > 0.0
    requires forall s: seq<Block> :: multiset(arrange(s)) == multiset(s)
    ensures
      var p := AnalyzedPage(OcrPage(number, width, height, r, at), arrange, isLetter, order).0;
      PageOk(p.(blocks := Cleaned(p.blocks))) <==> Fits(width, height, r)
  {
    hide TrimSpace, Cleaned, Numbered, Reconstructed, BlockOk, LooksLikeHeading, OcrName;
    var b := OcrBlock(number, width, height, r, at);
    OnlyArrangement(b, arrange([b]));
    assert TypedAll([b], isLetter) == [Typed(b, isLetter)];
    NamesAreThere(number, 0);
    var t := Typed(b, isLetter);
    OneBlockNormalized(number, t, order);
    AllOkIn(Cleaned(Numbered(Reconstructed(number, [t]), order).0));
  }

  lemma DigitalPageNormalized(p: PageText, base: int, arrange: seq<Block> -> seq<Block>, isLetter: char -> bool,
                              order: int)
    requires Sized(p)
    requires forall s: seq<Block> :: multiset(arrange(s)) == multiset(s)
    ensures
      var q := AnalyzedPage(DigitalPage(p, base), arrange, isLetter, order).0;
      PageOk(q.(blocks := Cleaned(q.blocks)))
  {
    hide PageOk, Sized, AnalyzedPage, Cleaned;
    DigitalPageOk(p, base);
    AnalyzedPageOk(DigitalPage(p, base), arrange, isLetter, order);
    CleanedPageOk(AnalyzedPage(DigitalPage(p, base), arrange, isLetter, order).0);
  }

  // ---------- the document ----------

  /** Page i is analyzed on its own, numbered on from the pages before it. */
  lemma {:induction false} AnalyzedAt(ps: seq<Page>, arrange: seq<Block> -> seq<Block>, isLetter: char -> bool,
                                      order: int, i: nat)
    returns (at: int)
    requires i < |ps|
    ensures AnalyzedPages(ps, arrange, isLetter, order).0[i] == AnalyzedPage(ps[i], arrange, isLetter, at).0
    decreases i
  {
    hide AnalyzedPage;
    if i == 0 {
      at := order;
    } else {
      at := AnalyzedAt(ps[1..], arrange, isLetter, AnalyzedPage(ps[0], arrange, isLetter, order).1, i - 1);
    }
  }

  /** What Validate asks of a document besides its pages. */
  predicate HeaderOk(d: Doc) {
    d.schema == SCHEMA_VERSION && d.id != "" && d.filename != "" && d.mime != "" && d.pageCount >= 0
  }

  /** The page as the engine validates it. */
  function NormalizedPage(ps: seq<Page>, arrange: seq<Block> -> seq<Block>, isLetter: char -> bool, i: nat): Page
    requires i < |ps|
  {
    var p := AnalyzedPages(ps, arrange, isLetter, 0).0[i];
    p.(blocks := Cleaned(p.blocks))
  }

  lemma NormalizesIffPagesOk(d: Doc, arrange: seq<Block> -> seq<Block>, isLetter: char -> bool)
    requires HeaderOk(d) && d.pages.Some?
    ensures
      Validate(Normalized(d, arrange, isLetter)) == None <==>
        forall i :: 0 <= i < |d.pages.value| ==> PageOk(NormalizedPage(d.pages.value, arrange, isLetter, i))
  {
    hide AnalyzedPages, Cleaned, PageOk, Validate;
    var n := Normalized(d, arrange, isLetter);
    ValidateIffDocOk(n);
    var ps := n.pages.value;
    assert forall i :: 0 <= i < |ps| ==> ps[i] == NormalizedPage(d.pages.value, arrange, isLetter, i);
    if forall i :: 0 <= i < |ps| ==> PageOk(ps[i]) {
      assert forall p :: p in ps ==> PageOk(p);
    } else {
      var i :| 0 <= i < |ps| && !PageOk(ps[i]);
      assert ps[i] in ps;
    }
  }

  predicate Workable(ps: seq<PageText>) {
    forall i :: 0 <= i < |ps| ==>
      if ByOcr(ps[i], true) then ps[i].number >= 1 && ps[i].width > 0.0 && ps[i].height > 0.0 else Sized(ps[i])
  }

  /** A mixed document passes normalization exactly when every page read by OCR that has any
      text has room for its margins and a confidence between 0 and 1. */
  lemma MixedNormalizesIff(d: Doc, ps: seq<PageText>, byPage: map<int, OcrResult>,
                           arrange: seq<Block> -> seq<Block>, isLetter: char -> bool)
    requires HeaderOk(d) && Workable(ps) && Covered(ps, byPage) && d.pages == Some(PagesOf(ps, true, byPage))
    requires forall s: seq<Block> :: multiset(arrange(s)) == multiset(s)
    ensures
      Validate(Normalized(d, arrange, isLetter)) == None <==>
        forall i :: 0 <= i < |ps| && ByOcr(ps[i], true) ==> Fits(ps[i].width, ps[i].height, byPage[ps[i].number])
  {
    hide Fits, PageOk, AnalyzedPages, AnalyzedPage, Cleaned, DigitalPage, OcrPage, Sized, Base, HeaderOk, Normalized,
        Validate;
    NormalizesIffPagesOk(d, arrange, isLetter);
    var pages := d.pages.value;
    forall i | 0 <= i < |ps|
      ensures
        PageOk(NormalizedPage(pages, arrange, isLetter, i)) <==>
          (ByOcr(ps[i], true) ==> Fits(ps[i].width, ps[i].height, byPage[ps[i].number]))
    {
      var at := AnalyzedAt(pages, arrange, isLetter, 0, i);
      if ByOcr(ps[i], true) {
        OcrPageNormalized(ps[i].number, ps[i].width, ps[i].height, byPage[ps[i].number], Base(ps, i, true) + 1,
              arrange, isLetter, at);
      } else {
        DigitalPageNormalized(ps[i], Base(ps, i, true), arrange, isLetter, at);
      }
    }
  }

  /** The size of a scanned page: that of its extracted page, or US letter. */
  function ScanSize(ps: seq<PageText>, i: nat): (real, real) {
    if i < |ps| then (ps[i].width, ps[i].height) else (612.0, 792.0)
  }

  /** The same for a document of scanned pages only. */
  lemma ScannedNormalizesIff(d: Doc, ps: seq<PageText>, n: nat, byPage: map<int, OcrResult>,
                             arrange: seq<Block> -> seq<Block>, isLetter: char -> bool)
    requires HeaderOk(d) && forall i :: 0 <= i < |ps| ==> ps[i].width > 0.0 && ps[i].height > 0.0
    requires (forall i :: 1 <= i <= n ==> i in byPage) && d.pages == Some(ScannedPages(ps, n, byPage))
    requires forall s: seq<Block> :: multiset(arrange(s)) == multiset(s)
    ensures
      Validate(Normalized(d, arrange, isLetter)) == None <==>
        forall i :: 0 <= i < n ==> Fits(ScanSize(ps, i).0, ScanSize(ps, i).1, byPage[i + 1])
  {
    hide Fits, PageOk, AnalyzedPages, AnalyzedPage, Cleaned, OcrPage, HeaderOk, Normalized, Validate;
    NormalizesIffPagesOk(d, arrange, isLetter);
    var pages := d.pages.value;
    forall i | 0 <= i < n
      ensures
        PageOk(NormalizedPage(pages, arrange, isLetter, i)) <==>
          Fits(ScanSize(ps, i).0, ScanSize(ps, i).1, byPage[i + 1])
    {
      var at := AnalyzedAt(pages, arrange, isLetter, 0, i);
      OcrPageNormalized(i + 1, ScanSize(ps, i).0, ScanSize(ps, i).1, byPage[i + 1], i + 1, arrange, isLetter, at);
    }
  }

  // ---------- a page that fails ----------

  /** A scan of one page 100 wide. */
  function NarrowScan(text: string): Doc {
    var p := PageText(1, 100.0, 792.0, "", 0, []);
    Doc(SCHEMA_VERSION, "d", "scan.pdf", "application/pdf", 1,
        Some(ScannedPages([p], 1, map[1 := OcrResult(text, 0.9, "en")])), map[])
  }

  /** With a single letter on it the document is refused, blank it is not. */
  lemma NarrowScanFails(arrange: seq<Block> -> seq<Block>, isLetter: char -> bool)
    requires forall s: seq<Block> :: multiset(arrange(s)) == multiset(s)
    ensures Validate(Normalized(NarrowScan("x"), arrange, isLetter)) != None
    ensures Validate(Normalized(NarrowScan(" "), arrange, isLetter)) == None
  {
    hide Normalized, Validate, ScannedPages;
    var p := PageText(1, 100.0, 792.0, "", 0, []);
    assert TrimSpace("x") == "x" by { TrimUnique([], "x", []); assert [] + "x" + [] == "x"; }
    assert TrimSpace(" ") == "" by { assert AllSpace(" "); }
    ScannedNormalizesIff(NarrowScan("x"), [p], 1, map[1 := OcrResult("x", 0.9, "en")], arrange, isLetter);
    ScannedNormalizesIff(NarrowScan(" "), [p], 1, map[1 := OcrResult(" ", 0.9, "en")], arrange, isLetter);
    assert !Fits(ScanSize([p], 0).0, ScanSize([p], 0).1, OcrResult("x", 0.9, "en"));
  }
}
