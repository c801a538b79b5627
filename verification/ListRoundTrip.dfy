/** A list printed by the exporter and handed back to the layout stage. */
module ListRoundTrip {
  import opened Domain
  import opened Text
  import opened Cdom
  import opened Recognize
  import opened Reconstruct
  import opened Export
  import opened RoundTrip
  import opened PipeRoundTrip

  /** An item as the layout stage makes it, and as clean-up keeps it. */
  predicate ItemOk(b: Block, ordered: bool) {
    && b.typ == ListItem && b.children == [] && b.text != "" && Trimmed(b.text) && '\n' !in b.text
    && "ordered" in b.attrs && b.attrs["ordered"] == Flag(ordered)
  }

  predicate ItemsOk(items: seq<Block>, ordered: bool) {
    forall k :: 0 <= k < |items| ==> ItemOk(items[k], ordered)
  }

  /** Every item that the layout stage makes is in order, unless it is empty. */
  lemma MadeItemsOk(b: Block, ordered: bool)
    requires IsItem(ordered, b) && Item(b, ordered).text != ""
    ensures ItemOk(Item(b, ordered), ordered)
  {
    hide TrimSpace, Trimmed, DropRegexSpace, DropDigits;
    var body := ListBody(ordered, b.text).value;
    TrimmedChars(body, '\n');
    assert Trimmed(TrimSpace(body));
  }

  function Marker(ordered: bool): string { if ordered then "1. " else "- " }

  function ItemLine(b: Block, ordered: bool): string { "  " + Marker(ordered) + b.text }

  function ItemLines(items: seq<Block>, ordered: bool): (r: seq<string>)
    ensures |r| == |items| && forall k :: 0 <= k < |r| ==> r[k] == ItemLine(items[k], ordered)
  {
    seq(|items|, k requires 0 <= k < |items| => ItemLine(items[k], ordered))
  }

  lemma ItemPrinted(b: Block, ordered: bool)
    requires ItemOk(b, ordered)
    ensures Printed([b], 1) == ItemLine(b, ordered) + "\n"
  {
    hide Printed, TrimSpace;
    PrintedOne(b, 1);
    assert Printed([], 2) == [] by { NothingPrinted(2); }
    TrimUnique([], b.text, []);
    assert [] + b.text + [] == b.text;
    assert Repeat("  ", 1) == "  " by { assert Repeat("  ", 0) == ""; }
  }

  lemma NothingPrinted(depth: nat)
    ensures Printed([], depth) == []
  {}

  lemma {:induction false} ItemsPrinted(items: seq<Block>, ordered: bool)
    requires ItemsOk(items, ordered)
    ensures Printed(items, 1) == Lines(ItemLines(items, ordered))
    decreases |items|
  {
    hide Printed, ItemOk, ItemLine;
    NothingPrinted(1);
    if items != [] {
      ItemsPrinted(items[1..], ordered);
      ItemPrinted(items[0], ordered);
      PrintedFrom(items, 0, 1);
      assert ItemLines(items, ordered)[1..] == ItemLines(items[1..], ordered);
    }
  }

  lemma MarkedBody(ordered: bool, t: string)
    requires t != "" && Trimmed(t) && '\n' !in t
    ensures
      var m := Marker(ordered) + t;
      Trimmed(m) && (if ordered then OrderedBody(m) == Some(t) && BulletBody(m) == None
                     else BulletBody(m) == Some(t) && OrderedBody(m) == None)
  {
    var m := Marker(ordered) + t;
    assert m[|m| - 1] == t[|t| - 1];
    assert DropRegexSpace(t) == t;
    assert (" " + t)[1..] == t;
    if ordered {
      assert m[1..] == ". " + t && m[1..][1..] == " " + t;
      assert DropDigits(m) == ". " + t;
    } else {
      assert m[1..] == " " + t;
    }
  }

  lemma ItemLineBody(b: Block, ordered: bool)
    requires ItemOk(b, ordered)
    ensures ListBody(ordered, ItemLine(b, ordered)) == Some(b.text) && ListBody(!ordered, ItemLine(b, ordered)) == None
  {
    hide TrimSpace, OrderedBody, BulletBody, Trimmed;
    var m := Marker(ordered) + b.text;
    MarkedBody(ordered, b.text);
    assert AllSpace("  ");
    TrimUnique("  ", m, []);
    assert "  " + m + [] == ItemLine(b, ordered);
  }

  lemma LinesOfList(page: int, idx: nat, items: seq<Block>, ordered: bool)
    requires ItemsOk(items, ordered)
    ensures Split(Printed([ListBlock(page, idx, items, ordered)], 0), '\n') == ItemLines(items, ordered) + [""]
  {
    hide Printed, UnionBox, MinConf, ListId, ItemLine, Split, Lines;
    var l := ListBlock(page, idx, items, ordered);
    PrintedOne(l, 0);
    ListHead(l, 0);
    ItemsPrinted(items, ordered);
    var ls := ItemLines(items, ordered);
    forall k | 0 <= k < |ls|
      ensures '\n' !in ls[k]
    {
      ItemLineIsOne(items[k], ordered);
    }
    SplitLines(ls, "");
    assert "" + Lines(ls) == Lines(ls) && Lines(ls) + "" == Lines(ls);
    SplitNone("", '\n');
  }

  lemma ItemLineIsOne(b: Block, ordered: bool)
    requires ItemOk(b, ordered)
    ensures '\n' !in ItemLine(b, ordered)
  {}

  lemma {:induction false} ListRunLongest(bs: seq<Block>, i: nat, ordered: bool, n: nat)
    requires i + n <= |bs| && forall k :: i <= k < i + n ==> IsItem(ordered, bs[k])
    ensures n <= ListRun(bs, i, ordered)
    decreases n
  {
    hide IsItem;
    if n > 0 {
      ListRunLongest(bs, i + 1, ordered, n - 1);
    }
  }

  lemma LineIsItem(b: Block, ordered: bool, from: Block)
    requires ItemOk(b, ordered) && from.typ == Paragraph && from.children == [] && from.text == ItemLine(b, ordered)
    ensures IsItem(ordered, from) && Item(from, ordered).text == b.text && !IsItem(!ordered, from)
  {
    hide ListBody, TrimSpace, ItemLine;
    ItemLineBody(b, ordered);
    assert b.text != "" && Trimmed(b.text);
    TrimUnique([], b.text, []);
    assert [] + b.text + [] == b.text;
  }

  /** A list printed line by line is found again as one list of the same kind, with the
      same number of items and the same texts. */
  lemma PrintedListReadBack(page: int, idx: nat, items: seq<Block>, ordered: bool, bs: seq<Block>)
    requires items != [] && ItemsOk(items, ordered)
    requires Paragraphs(bs, Split(Printed([ListBlock(page, idx, items, ordered)], 0), '\n'))
    ensures |bs| == |items| + 1 && bs[|items|].text == ""
    ensures SegmentAt(bs, 0) == ListSeg(ordered, |items|)
    ensures forall k :: 0 <= k < |items| ==> IsItem(ordered, bs[k]) && Item(bs[k], ordered).text == items[k].text
  {
    hide Printed, ListBlock, Split, ItemLine, ListBody, TrimSpace, TableRun, GeoRun, IsItem, Item, ItemOk;
    LinesOfList(page, idx, items, ordered);
    var n := |items|;
    forall k | 0 <= k < n
      ensures IsItem(ordered, bs[k]) && Item(bs[k], ordered).text == items[k].text
      ensures !IsItem(!ordered, bs[k])
    {
      LineIsItem(items[k], ordered, bs[k]);
    }
    ListRunLongest(bs, 0, ordered, n);
    ListRunItems(bs, 0, ordered);
    BlankIsNoItem(ordered, bs[n]);
  }

  lemma BlankIsNoItem(ordered: bool, b: Block)
    requires b.text == ""
    ensures !IsItem(ordered, b)
  {
    BlankCells();
  }
}
