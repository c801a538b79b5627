/** From extracted page texts to the pages of a document: digital, mixed and scanned. */
module Pages {
  import opened Domain
  import opened Text
  import opened Cdom
  import opened Recognize
  import opened Reconstruct
  import opened Layout
  import opened Seqs
  import opened Preservation
  import opened Extract

  datatype PageText = PageText(number: int, width: real, height: real, language: string, charCount: nat,
                               blocks: seq<TextBlock>)

  datatype OcrResult = OcrResult(text: string, confidence: real, language: string)

  // ---------- one page of a PDF ----------

  /** pageSize: the media box, or US letter when it has no area. */
  function PageSize(w: real, h: real): (s: (real, real))
    ensures s.0 > 0.0 && s.1 > 0.0
  {
    if w > 0.0 && h > 0.0 then (w, h) else (612.0, 792.0)
  }

  function CharCount(bs: seq<TextBlock>): nat {
    if bs == [] then 0 else |bs[0].text| + CharCount(bs[1..])
  }

  function GuessLanguage(bs: seq<TextBlock>): string {
    if exists i :: 0 <= i < |bs| && exists k :: 0 <= k < |bs[i].text| && bs[i].text[k] >= '\U{0100}' then "vi"
    else if bs == [] then "und" else "en"
  }

  /** guessLanguage. */
  method LanguageOf(bs: seq<TextBlock>) returns (r: string)
    ensures r == GuessLanguage(bs)
  {
    for i := 0 to |bs|
      invariant forall j, k :: 0 <= j < i && 0 <= k < |bs[j].text| ==> bs[j].text[k] < '\U{0100}'
    {
      for k := 0 to |bs[i].text|
        invariant forall l :: 0 <= l < k ==> bs[i].text[l] < '\U{0100}'
      {
        if bs[i].text[k] >= '\U{0100}' {
          return "vi";
        }
      }
    }
    r := if |bs| == 0 then "und" else "en";
  }

  function PageOfGlyphs(n: int, w: real, h: real, texts: seq<Glyph>, sort: seq<Glyph> -> seq<Glyph>): PageText {
    var (width, height) := PageSize(w, h);
    var bs := AllBlocks(LinesOf(texts), sort);
    PageText(n, width, height, GuessLanguage(bs), CharCount(bs), bs)
  }

  method ExtractPage(n: int, w: real, h: real, texts: seq<Glyph>, sort: seq<Glyph> -> seq<Glyph>) returns (p: PageText)
    ensures p == PageOfGlyphs(n, w, h, texts, sort)
  {
    hide LinesOf, AllBlocks, GuessLanguage;
    var size := PageSize(w, h);
    var blocks := GroupIntoLines(texts, sort);
    var count := 0;
    assert blocks[0..] == blocks;
    for i := 0 to |blocks|
      invariant count + CharCount(blocks[i..]) == CharCount(blocks)
    {
      assert blocks[i..][0] == blocks[i] && blocks[i..][1..] == blocks[i + 1..];
      count := count + |blocks[i].text|;
    }
    var language := LanguageOf(blocks);
    p := PageText(n, size.0, size.1, language, count, blocks);
  }

  // ---------- the kind of a document ----------

  datatype DocKind = Digital | Mixed | Scanned

  /** Classify: digital when no page is below the threshold, scanned when every page of a
      document that has pages is. */
  method Classify(ps: seq<PageText>, minChars: int) returns (kind: DocKind, digital: nat, scanned: nat)
    ensures
      var min := if minChars <= 0 then 40 else minChars;
      && (kind == Digital <==> forall i :: 0 <= i < |ps| ==> ps[i].charCount >= min)
      && (kind == Scanned <==> ps != [] && forall i :: 0 <= i < |ps| ==> ps[i].charCount < min)
      && digital + scanned == |ps|
      && (kind == Digital <==> scanned == 0) && (kind == Scanned <==> digital == 0 && scanned > 0)
  {
    var min := if minChars <= 0 then 40 else minChars;
    digital, scanned := 0, 0;
    for i := 0 to |ps|
      invariant digital + scanned == i
      invariant scanned == 0 <==> forall k :: 0 <= k < i ==> ps[k].charCount >= min
      invariant digital == 0 <==> forall k :: 0 <= k < i ==> ps[k].charCount < min
    {
      if ps[i].charCount >= min {
        digital := digital + 1;
      } else {
        scanned := scanned + 1;
      }
    }
    if scanned == 0 {
      kind := Digital;
    } else if digital == 0 {
      kind := Scanned;
    } else {
      kind := Mixed;
    }
  }

  // ---------- blocks ----------

  function BlockName(page: int, i: nat): string { PageId(page) + "-b" + Dec(i) }

  function OcrName(page: int): string { PageId(page) + "-ocr1" }

  /** Extracted heights grow upwards, document boxes downwards. */
  function CdomBlock(p: PageText, i: nat, order: int): Block
    requires i < |p.blocks|
  {
    var b := p.blocks[i];
    Block(BlockName(p.number, i + 1), if b.font >= 16.0 then Heading else Paragraph,
          BBox(b.x, p.height - b.y - b.h, b.x + b.w, p.height - b.y),
          order, b.confidence, p.language, b.text, [], map[])
  }

  function CdomBlocks(p: PageText, start: int): (r: seq<Block>)
    ensures |r| == |p.blocks| && forall i :: 0 <= i < |r| ==> r[i] == CdomBlock(p, i, start + i + 1)
  {
    seq(|p.blocks|, i requires 0 <= i < |p.blocks| => CdomBlock(p, i, start + i + 1))
  }

  method ToCdomBlocks(p: PageText, start: int) returns (blocks: seq<Block>, order: int)
    ensures blocks == CdomBlocks(p, start) && order == start + |p.blocks|
  {
    hide CdomBlock;
    blocks, order := [], start;
    for i := 0 to |p.blocks|
      invariant order == start + i && |blocks| == i
      invariant forall k :: 0 <= k < i ==> blocks[k] == CdomBlock(p, k, start + k + 1)
    {
      order := order + 1;
      blocks := blocks + [CdomBlock(p, i, order)];
    }
  }

  function OcrBlock(number: int, width: real, height: real, r: OcrResult, order: int): Block {
    Block(OcrName(number), Paragraph, BBox(72.0, 72.0, width - 72.0, height - 72.0), order, r.confidence, r.language,
          r.text, [], map[])
  }

  /** Whether a page is read by OCR; in a digital document none is. */
  predicate ByOcr(p: PageText, mixed: bool) { mixed && p.charCount < 40 }

  /** The reading order before the first block of page i. */
  function Base(ps: seq<PageText>, i: nat, mixed: bool): nat
    requires i <= |ps|
  {
    if i == 0 then 0
    else Base(ps, i - 1, mixed) + |ps[i - 1].blocks| + (if ByOcr(ps[i - 1], mixed) then 1 else 0)
  }

  function DigitalPage(p: PageText, base: int): Page {
    Page(p.number, p.width, p.height, 0, p.language, CdomBlocks(p, base))
  }

  function OcrPage(number: int, width: real, height: real, r: OcrResult, order: int): Page {
    Page(number, width, height, 0, r.language, [OcrBlock(number, width, height, r, order)])
  }

  predicate Covered(ps: seq<PageText>, byPage: map<int, OcrResult>) {
    forall i :: 0 <= i < |ps| && ByOcr(ps[i], true) ==> ps[i].number in byPage
  }

  function PageAt(ps: seq<PageText>, i: nat, mixed: bool, byPage: map<int, OcrResult>): Page
    requires i < |ps| && (mixed ==> Covered(ps, byPage))
  {
    if ByOcr(ps[i], mixed)
    then OcrPage(ps[i].number, ps[i].width, ps[i].height, byPage[ps[i].number], Base(ps, i, mixed) + 1)
    else DigitalPage(ps[i], Base(ps, i, mixed))
  }

  function PagesOf(ps: seq<PageText>, mixed: bool, byPage: map<int, OcrResult>): (r: seq<Page>)
    requires mixed ==> Covered(ps, byPage)
    ensures |r| == |ps| && forall i :: 0 <= i < |r| ==> r[i] == PageAt(ps, i, mixed, byPage)
  {
    seq(|ps|, i requires 0 <= i < |ps| => PageAt(ps, i, mixed, byPage))
  }

  method PagesFromExtract(ps: seq<PageText>) returns (pages: seq<Page>)
    ensures pages == PagesOf(ps, false, map[])
  {
    pages := [];
    var order := 0;
    for i := 0 to |ps|
      invariant |pages| == i && order == Base(ps, i, false)
      invariant forall k :: 0 <= k < i ==> pages[k] == PageAt(ps, k, false, map[])
    {
      var blocks, next := ToCdomBlocks(ps[i], order);
      pages := pages + [Page(ps[i].number, ps[i].width, ps[i].height, 0, ps[i].language, blocks)];
      order := next;
    }
  }

  datatype Filled = Filled(pages: seq<Page>) | OcrFailed | OcrMissing(page: int)

  const NO_PAGE := Page(0, 0.0, 0.0, 0, "", [])

  /** The numbers of the pages that are read by OCR. */
  ghost function Wanted(ps: seq<PageText>): set<int> {
    set i | 0 <= i < |ps| && ByOcr(ps[i], true) :: ps[i].number
  }

  /** fillMixedPages; `ocr` is what reading a list of pages comes to. */
  method FillMixedPages(ps: seq<PageText>, ocr: seq<int> -> Option<map<int, OcrResult>>) returns (r: Filled)
    ensures
      var wanted := OcrNumbers(ps);
      if Covered(ps, map[]) then r == Filled(PagesOf(ps, true, map[]))
      else if ocr(wanted) == None then r == OcrFailed
      else if Covered(ps, ocr(wanted).value) then r == Filled(PagesOf(ps, true, ocr(wanted).value))
      else r.OcrMissing? && r.page in Wanted(ps) && r.page !in ocr(wanted).value
  {
    hide DigitalPage, OcrPage, Base, OcrNumbers;
    var bases, wanted := OrderBases(ps);
    var pages := DigitalPages(ps, bases);
    NoneWanted(ps);
    if |wanted| == 0 {
      assert pages == PagesOf(ps, true, map[]);
      return Filled(pages);
    }
    var res := ocr(wanted);
    if res == None {
      return OcrFailed;
    }
    r := OcrPages(ps, bases, pages, res.value);
  }

  /** The last loop of fillMixedPages. */
  method OcrPages(ps: seq<PageText>, bases: seq<nat>, digital: seq<Page>, byPage: map<int, OcrResult>)
    returns (r: Filled)
    requires |bases| == |ps| == |digital| && forall k :: 0 <= k < |ps| ==> bases[k] == Base(ps, k, true)
    requires forall k :: 0 <= k < |ps| && !ByOcr(ps[k], true) ==> digital[k] == DigitalPage(ps[k], Base(ps, k, true))
    ensures
      if Covered(ps, byPage) then r == Filled(PagesOf(ps, true, byPage))
      else r.OcrMissing? && r.page in Wanted(ps) && r.page !in byPage
  {
    hide DigitalPage, OcrPage, Base;
    var pages := digital;
    for i := 0 to |ps|
      invariant |pages| == |ps|
      invariant forall k :: 0 <= k < i && ByOcr(ps[k], true) ==> ps[k].number in byPage
      invariant forall k :: i <= k < |ps| ==> pages[k] == digital[k]
      invariant forall k :: 0 <= k < i ==>
                  pages[k] == if ByOcr(ps[k], true)
                              then OcrPage(ps[k].number, ps[k].width, ps[k].height, byPage[ps[k].number],
                                    Base(ps, k, true) + 1)
                              else digital[k]
    {
      var p := ps[i];
      if p.charCount >= 40 {
        continue;
      }
      if p.number !in byPage {
        return OcrMissing(p.number);
      }
      pages := pages[i := OcrPage(p.number, p.width, p.height, byPage[p.number], bases[i] + 1)];
    }
    assert Covered(ps, byPage);
    forall k | 0 <= k < |ps|
      ensures pages[k] == PageAt(ps, k, true, byPage)
    {}
    assert pages == PagesOf(ps, true, byPage);
    r := Filled(pages);
  }

  function OcrNumbers(ps: seq<PageText>): seq<int> {
    if ps == [] then []
    else OcrNumbers(ps[..|ps| - 1]) + if ByOcr(ps[|ps| - 1], true) then [ps[|ps| - 1].number] else []
  }

  lemma {:induction false} NoneWanted(ps: seq<PageText>)
    ensures OcrNumbers(ps) == [] <==> forall i :: 0 <= i < |ps| ==> !ByOcr(ps[i], true)
  {
    if ps != [] {
      NoneWanted(ps[..|ps| - 1]);
    }
  }

  /** The first loop of fillMixedPages. */
  method OrderBases(ps: seq<PageText>) returns (bases: seq<nat>, wanted: seq<int>)
    ensures |bases| == |ps| && (forall k :: 0 <= k < |ps| ==> bases[k] == Base(ps, k, true)) && wanted == OcrNumbers(ps)
  {
    hide ByOcr, OcrNumbers, Base;
    bases, wanted := [], [];
    var running := 0;
    Starting(ps);
    for i := 0 to |ps|
      invariant |bases| == i && running == Base(ps, i, true) && wanted == OcrNumbers(ps[..i])
      invariant forall k :: 0 <= k < i ==> bases[k] == Base(ps, k, true)
    {
      NextBase(ps, i);
      bases := bases + [running];
      running := running + |ps[i].blocks|;
      if ps[i].charCount < 40 {
        running := running + 1;
        wanted := wanted + [ps[i].number];
      }
    }
    assert ps[..|ps|] == ps;
  }

  lemma Starting(ps: seq<PageText>)
    ensures Base(ps, 0, true) == 0 && OcrNumbers(ps[..0]) == []
  {}

  lemma NextBase(ps: seq<PageText>, i: nat)
    requires i < |ps|
    ensures Base(ps, i + 1, true) == Base(ps, i, true) + |ps[i].blocks| + (if ps[i].charCount < 40 then 1 else 0)
    ensures OcrNumbers(ps[..i + 1]) == OcrNumbers(ps[..i]) + if ps[i].charCount < 40 then [ps[i].number] else []
  {
    assert ps[..i + 1][..i] == ps[..i];
  }

  /** The second loop of fillMixedPages. */
  method DigitalPages(ps: seq<PageText>, bases: seq<nat>) returns (pages: seq<Page>)
    requires |bases| == |ps| && forall k :: 0 <= k < |ps| ==> bases[k] == Base(ps, k, true)
    ensures |pages| == |ps|
    ensures forall k :: 0 <= k < |ps| && !ByOcr(ps[k], true) ==> pages[k] == DigitalPage(ps[k], Base(ps, k, true))
  {
    hide CdomBlock;
    pages := seq(|ps|, _ => NO_PAGE);
    for i := 0 to |ps|
      invariant |pages| == |ps|
      invariant forall k :: 0 <= k < i && !ByOcr(ps[k], true) ==> pages[k] == DigitalPage(ps[k], Base(ps, k, true))
    {
      if ps[i].charCount >= 40 {
        var blocks, _ := ToCdomBlocks(ps[i], bases[i]);
        pages := pages[i := Page(ps[i].number, ps[i].width, ps[i].height, 0, ps[i].language, blocks)];
      }
    }
  }

  function ScannedPage(ps: seq<PageText>, i: nat, byPage: map<int, OcrResult>): Page
    requires i + 1 in byPage
  {
    var (w, h) := if i < |ps| then (ps[i].width, ps[i].height) else (612.0, 792.0);
    OcrPage(i + 1, w, h, byPage[i + 1], i + 1)
  }

  function ScannedPages(ps: seq<PageText>, n: nat, byPage: map<int, OcrResult>): (r: seq<Page>)
    requires forall i :: 1 <= i <= n ==> i in byPage
    ensures |r| == n && forall i :: 0 <= i < n ==> r[i] == ScannedPage(ps, i, byPage)
  {
    seq(n, i requires 0 <= i < n => ScannedPage(ps, i, byPage))
  }

  /** ocrAllPages, once the pages are read. */
  method OcrAllPages(ps: seq<PageText>, n: nat, ocr: seq<int> -> Option<map<int, OcrResult>>) returns (r: Filled)
    ensures
      var res := ocr(From(1, n));
      if res == None then r == OcrFailed
      else if forall i :: 1 <= i <= n ==> i in res.value then r == Filled(ScannedPages(ps, n, res.value))
      else r.OcrMissing? && 1 <= r.page <= n && r.page !in res.value
  {
    hide OcrPage;
    var numbers: seq<int> := [];
    for i := 0 to n
      invariant |numbers| == i && forall k :: 0 <= k < i ==> numbers[k] == k + 1
    {
      numbers := numbers + [i + 1];
    }
    assert numbers == From(1, n);
    var res := ocr(numbers);
    if res == None {
      return OcrFailed;
    }
    var pages: seq<Page> := [];
    for i := 0 to n
      invariant |pages| == i && forall k :: 1 <= k <= i ==> k in res.value
      invariant forall k :: 0 <= k < i ==> pages[k] == ScannedPage(ps, k, res.value)
    {
      if i + 1 !in res.value {
        return OcrMissing(i + 1);
      }
      pages := pages + [ScannedPage(ps, i, res.value)];
    }
    r := Filled(pages);
  }

  // ---------- reading order before layout ----------

  lemma {:induction false} LeafOrders(bs: seq<Block>, lo: int)
    requires forall i :: 0 <= i < |bs| ==> bs[i].children == [] && bs[i].order == lo + i + 1
    ensures Orders(bs) == From(lo + 1, |bs|)
  {
    if bs != [] {
      LeafOrders(bs[1..], lo + 1);
      assert Orders([]) == [];
      assert Orders(bs) == [lo + 1] + [] + Orders(bs[1..]);
      hide Orders;
      assert From(lo + 1, |bs|) == [lo + 1] + [] + From(lo + 2, |bs| - 1);
    } else {
      assert From(lo + 1, 0) == [];
    }
  }

  lemma PageOrdersAre(ps: seq<PageText>, i: nat, mixed: bool, byPage: map<int, OcrResult>)
    requires i < |ps| && (mixed ==> Covered(ps, byPage))
    ensures
      var os := Orders(PageAt(ps, i, mixed, byPage).blocks);
      Ascending(os) && forall k :: 0 <= k < |os| ==> Base(ps, i, mixed) < os[k] <= Base(ps, i + 1, mixed)
  {
    hide BlockName, OcrName;
    var page := PageAt(ps, i, mixed, byPage);
    LeafOrders(page.blocks, Base(ps, i, mixed));
  }

  /** Joining ascending runs that lie one above the other. */
  lemma AscendingAppend(a: seq<int>, b: seq<int>, mid: int)
    requires Ascending(a) && Ascending(b)
    requires (forall k :: 0 <= k < |a| ==> a[k] <= mid) && forall k :: 0 <= k < |b| ==> mid < b[k]
    ensures Ascending(a + b)
  {}

  /** Reading order already ascends over the whole document as extracted, page by page,
      also where a page read by OCR takes the place of its own blocks. */
  lemma {:induction false} ExtractedOrderAscends(ps: seq<PageText>, mixed: bool, byPage: map<int, OcrResult>, i: nat)
    requires i <= |ps| && (mixed ==> Covered(ps, byPage))
    ensures
      var os := DocOrders(PagesOf(ps, mixed, byPage)[i..]);
      Ascending(os) && forall k :: 0 <= k < |os| ==> Base(ps, i, mixed) < os[k]
    decreases |ps| - i
  {
    hide PageAt, Base, Orders;
    var pages := PagesOf(ps, mixed, byPage);
    if i < |ps| {
      assert pages[i..][0] == pages[i] && pages[i..][1..] == pages[i + 1..];
      PageOrdersAre(ps, i, mixed, byPage);
      ExtractedOrderAscends(ps, mixed, byPage, i + 1);
      BaseGrows(ps, i, mixed);
      AscendingAppend(Orders(pages[i].blocks), DocOrders(pages[i + 1..]), Base(ps, i + 1, mixed));
    } else {
      assert pages[i..] == [];
    }
  }

  lemma BaseGrows(ps: seq<PageText>, i: nat, mixed: bool)
    requires i < |ps|
    ensures Base(ps, i, mixed) <= Base(ps, i + 1, mixed)
  {}

  // ---------- validity of what is extracted ----------

  lemma NamesAreThere(page: int, i: nat)
    ensures BlockName(page, i) != "" && OcrName(page) != ""
  {
    hide Dec, IntText;
    assert PageId(page)[0] == 'p';
  }

  predicate Sized(p: PageText) {
    p.width > 0.0 && p.height > 0.0 && p.number >= 1 && forall k :: 0 <= k < |p.blocks| ==> SizeOk(p.blocks[k])
  }

  /** Pages of glyphs of non-negative width make valid digital pages. */
  lemma GlyphPageSized(n: int, w: real, h: real, texts: seq<Glyph>, sort: seq<Glyph> -> seq<Glyph>)
    requires n >= 1 && SortsByX(sort) && WidthsOk(texts)
    ensures Sized(PageOfGlyphs(n, w, h, texts, sort))
  {
    hide SortsByX, AllBlocks, LinesOf, GuessLanguage;
    BlocksHaveSizes(texts, sort);
  }

  lemma DigitalPageOk(p: PageText, base: int)
    requires Sized(p)
    ensures PageOk(DigitalPage(p, base))
  {
    hide BlockName;
    var page := DigitalPage(p, base);
    forall b | b in page.blocks
      ensures BlockOk(b)
    {
      var i :| 0 <= i < |page.blocks| && b == page.blocks[i];
      assert SizeOk(p.blocks[i]);
      NamesAreThere(p.number, i + 1);
    }
  }

  /** From glyphs to a valid normalized document: a digital PDF whose glyphs have
      non-negative widths cannot fail normalization. */
  lemma DigitalDocumentsNormalize(d: Doc, ps: seq<PageText>, arrange: seq<Block> -> seq<Block>, isLetter: char -> bool)
    requires forall i :: 0 <= i < |ps| ==> Sized(ps[i])
    requires d.schema == SCHEMA_VERSION && d.id != "" && d.filename != "" && d.mime != "" && d.pageCount >= 0
    requires d.pages == Some(PagesOf(ps, false, map[]))
    requires forall s: seq<Block> :: multiset(arrange(s)) == multiset(s)
    ensures Validate(Normalized(d, arrange, isLetter)) == None
  {
    hide Normalized, PageOk, DigitalPage, Sized, Base;
    forall p | p in d.pages.value
      ensures PageOk(p)
    {
      var i :| 0 <= i < |ps| && p == PageAt(ps, i, false, map[]);
      DigitalPageOk(ps[i], Base(ps, i, false));
    }
    ValidateIffDocOk(d);
    NormalizationCannotFail(d, arrange, isLetter);
  }
}
