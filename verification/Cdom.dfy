/** The canonical document object model and its validation. */
module Cdom {
  import opened Domain

  /** A block type is a string in the encoding; Unsupported is any other string. */
  datatype BlockType =
    | Heading | Paragraph | List | ListItem | Table | TableRow | TableCell | Image | Code | Formula
    | Quote | PageBreak | Unknown | Unsupported(name: string)

  datatype BBox = BBox(x1: real, y1: real, x2: real, y2: real)

  const NO_BOX := BBox(0.0, 0.0, 0.0, 0.0)

  datatype Attr = Flag(on: bool) | Word(text: string) | Opaque

  /** A nil attribute map and an empty one are the same here: no code tells them apart. */
  datatype Block = Block(
    id: string, typ: BlockType, bbox: BBox, order: int, confidence: real, language: string,
    text: string, children: seq<Block>, attrs: map<string, Attr>)

  datatype Page = Page(
    number: int, width: real, height: real, rotation: int, language: string, blocks: seq<Block>)

  datatype Doc = Doc(
    schema: string, id: string, filename: string, mime: string, pageCount: int,
    pages: Option<seq<Page>>, processing: map<string, string>)

  const SCHEMA_VERSION := "1.0"

  // ---------- the three Validate methods ----------

  datatype Invalid =
    | NoSchema | OtherSchema | NoDocumentId | NoFilename | NoMimeType | BadPageCount | NoPages
    | BadPageNumber | BadPageSize
    | NoId | BadType | BadBox | BadConfidence | NoAsset
    | InPage(i: nat, page: Invalid) | InBlock(j: nat, block: Invalid) | InChild(k: nat, child: Invalid)

  function ValidateBlock(b: Block): Option<Invalid> {
    if b.id == "" then Some(NoId)
    else if b.typ.Unsupported? then Some(BadType)
    else if b.bbox.x1 > b.bbox.x2 || b.bbox.y1 > b.bbox.y2 then Some(BadBox)
    else if b.confidence < 0.0 || b.confidence > 1.0 then Some(BadConfidence)
    else if b.typ == Image && "asset_id" !in b.attrs then Some(NoAsset)
    else ValidateChildren(b.children, 0)
  }

  function ValidateChildren(bs: seq<Block>, i: nat): Option<Invalid>
    decreases bs, |bs| - i
  {
    if i >= |bs| then None
    else
      match ValidateBlock(bs[i])
      case Some(e) => Some(InChild(i, e))
      case None => ValidateChildren(bs, i + 1)
  }

  function ValidateBlocks(bs: seq<Block>, i: nat): Option<Invalid>
    decreases |bs| - i
  {
    if i >= |bs| then None
    else
      match ValidateBlock(bs[i])
      case Some(e) => Some(InBlock(i, e))
      case None => ValidateBlocks(bs, i + 1)
  }

  function ValidatePage(p: Page): Option<Invalid> {
    if p.number < 1 then Some(BadPageNumber)
    else if p.width <= 0.0 || p.height <= 0.0 then Some(BadPageSize)
    else ValidateBlocks(p.blocks, 0)
  }

  function ValidatePages(ps: seq<Page>, i: nat): Option<Invalid>
    decreases |ps| - i
  {
    if i >= |ps| then None
    else
      match ValidatePage(ps[i])
      case Some(e) => Some(InPage(i, e))
      case None => ValidatePages(ps, i + 1)
  }

  function Validate(d: Doc): Option<Invalid> {
    if d.schema == "" then Some(NoSchema)
    else if d.schema != SCHEMA_VERSION then Some(OtherSchema)
    else if d.id == "" then Some(NoDocumentId)
    else if d.filename == "" then Some(NoFilename)
    else if d.mime == "" then Some(NoMimeType)
    else if d.pageCount < 0 then Some(BadPageCount)
    else if d.pages == None then Some(NoPages)
    else ValidatePages(d.pages.value, 0)
  }

  // ---------- what a valid document is ----------

  predicate BoxOk(b: BBox) { b.x1 <= b.x2 && b.y1 <= b.y2 }

  /** What is asked of a block itself, its children apart. */
  predicate HeadOk(b: Block) {
    && b.id != "" && !b.typ.Unsupported? && BoxOk(b.bbox) && 0.0 <= b.confidence <= 1.0
    && (b.typ == Image ==> "asset_id" in b.attrs)
  }

  predicate BlockOk(b: Block) {
    HeadOk(b) && forall c :: c in b.children ==> BlockOk(c)
  }

  predicate PageOk(p: Page) {
    p.number >= 1 && p.width > 0.0 && p.height > 0.0 && forall b :: b in p.blocks ==> BlockOk(b)
  }

  predicate DocOk(d: Doc) {
    && d.schema == SCHEMA_VERSION && d.id != "" && d.filename != "" && d.mime != "" && d.pageCount >= 0
    && d.pages.Some? && forall p :: p in d.pages.value ==> PageOk(p)
  }

  lemma {:induction false} ValidBlock(b: Block)
    ensures ValidateBlock(b) == None <==> BlockOk(b)
    decreases b
  {
    ValidChildren(b.children, 0);
  }

  lemma {:induction false} ValidChildren(bs: seq<Block>, i: nat)
    requires i <= |bs|
    ensures ValidateChildren(bs, i) == None <==> forall k :: i <= k < |bs| ==> BlockOk(bs[k])
    decreases bs, |bs| - i
  {
    if i < |bs| {
      ValidBlock(bs[i]);
      ValidChildren(bs, i + 1);
    }
  }

  lemma {:induction false} ValidBlocks(bs: seq<Block>, i: nat)
    requires i <= |bs|
    ensures ValidateBlocks(bs, i) == None <==> forall k :: i <= k < |bs| ==> BlockOk(bs[k])
    decreases |bs| - i
  {
    if i < |bs| {
      ValidBlock(bs[i]);
      ValidBlocks(bs, i + 1);
    }
  }

  lemma {:induction false} ValidPages(ps: seq<Page>, i: nat)
    requires i <= |ps|
    ensures ValidatePages(ps, i) == None <==> forall k :: i <= k < |ps| ==> PageOk(ps[k])
    decreases |ps| - i
  {
    if i < |ps| {
      ValidBlocks(ps[i].blocks, 0);
      assert (forall b :: b in ps[i].blocks ==> BlockOk(b))
        <==> forall k :: 0 <= k < |ps[i].blocks| ==> BlockOk(ps[i].blocks[k]);
      ValidPages(ps, i + 1);
    }
  }

  /** Validate accepts exactly the documents that are in order at every depth. */
  lemma ValidateIffDocOk(d: Doc)
    ensures Validate(d) == None <==> DocOk(d)
  {
    if d.pages.Some? {
      ValidPages(d.pages.value, 0);
      assert (forall p :: p in d.pages.value ==> PageOk(p))
        <==> forall k :: 0 <= k < |d.pages.value| ==> PageOk(d.pages.value[k]);
    }
  }

  /** A document while the pipeline works on it in place. */
  class Draft {
    var doc: Doc

    constructor (d: Doc)
      ensures doc == d
    {
      doc := d;
    }
  }
}
