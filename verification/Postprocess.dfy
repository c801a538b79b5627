/** Clean: trim every text and prune what is empty. */
module Postprocess {
  import opened Domain
  import opened Text
  import opened Cdom
  import opened Layout
  import opened Seqs

  /** Whether a block is pruned once its text is trimmed and its children cleaned. */
  predicate Empty(b: Block) {
    match b.typ
    case Paragraph => b.text == "" && b.children == []
    case Unknown => b.text == "" && b.children == []
    case Heading => b.text == "" && b.children == []
    case Quote => b.text == "" && b.children == []
    case Code => b.text == "" && b.children == []
    case Formula => b.text == "" && b.children == []
    case ListItem => b.text == "" && b.children == []
    case List => b.children == []
    case Table => b.children == []
    case TableRow => b.children == []
    case _ => false
  }

  function Cleaned(bs: seq<Block>): seq<Block> {
    if bs == [] then []
    else
      var b := bs[0].(text := TrimSpace(bs[0].text), children := Cleaned(bs[0].children));
      (if Empty(b) then [] else [b]) + Cleaned(bs[1..])
  }

  function CleanedPages(ps: seq<Page>): (r: seq<Page>)
    ensures |r| == |ps| && forall i :: 0 <= i < |r| ==> r[i] == ps[i].(blocks := Cleaned(ps[i].blocks))
  {
    seq(|ps|, i requires 0 <= i < |ps| => ps[i].(blocks := Cleaned(ps[i].blocks)))
  }

  const PROVENANCE := map["postprocess_provider" := "cdom-postprocess", "postprocess_provider_version" := "1.0.0"]

  function CleanedDoc(d: Doc): Doc {
    d.(pages := if d.pages == None then None else Some(CleanedPages(d.pages.value)),
       processing := d.processing + PROVENANCE)
  }

  // ---------- the loops ----------

  /** cleanBlock. */
  method CleanBlock(blk: Block) returns (b: Block, ok: bool)
    ensures Cleaned([blk]) == if ok then [b] else []
    decreases 1 + Size(blk.children), 0
  {
    hide Cleaned, TrimSpace;
    CleanedOne(blk);
    CleanedNone();
    b := blk.(text := TrimSpace(blk.text));
    if |b.children| > 0 {
      var children := CleanBlocks(b.children);
      b := b.(children := children);
    }
    ok := !Empty(b);
  }

  lemma CleanedNone()
    ensures Cleaned([]) == []
  {}

  /** The loop over the children of a block, or over the blocks of a page. */
  method CleanBlocks(bs: seq<Block>) returns (cleaned: seq<Block>)
    ensures cleaned == Cleaned(bs)
    decreases Size(bs), 1
  {
    hide Cleaned;
    cleaned := [];
    CleanedFrom(bs, 0);
    assert [] + Cleaned(bs) == Cleaned(bs);
    for i := 0 to |bs|
      invariant Cleaned(bs) == cleaned + Cleaned(bs[i..])
    {
      ChildSmaller(bs, i);
      CleanedFrom(bs, i);
      var c, keep := CleanBlock(bs[i]);
      ghost var rest := Cleaned(bs[i + 1..]);
      assert cleaned + ((if keep then [c] else []) + rest) == (cleaned + if keep then [c] else []) + rest;
      if keep {
        cleaned := cleaned + [c];
      }
    }
    CleanedFrom(bs, |bs|);
    assert cleaned + [] == cleaned;
  }

  lemma CleanedOne(blk: Block)
    ensures Cleaned([blk]) ==
              var b := blk.(text := TrimSpace(blk.text), children := Cleaned(blk.children));
              if Empty(b) then [] else [b]
  {
    assert [blk][1..] == [] && Cleaned([]) == [];
  }

  lemma CleanedFrom(bs: seq<Block>, i: nat)
    requires i <= |bs|
    ensures i == 0 ==> bs[i..] == bs
    ensures i < |bs| ==> Cleaned(bs[i..]) == Cleaned([bs[i]]) + Cleaned(bs[i + 1..])
    ensures Cleaned(bs[|bs|..]) == []
  {
    if i < |bs| {
      assert bs[i..][0] == bs[i] && bs[i..][1..] == bs[i + 1..];
      CleanedOne(bs[i]);
    }
  }

  method Clean(d: Draft)
    modifies d
    ensures d.doc == CleanedDoc(old(d.doc))
  {
    hide Cleaned;
    if d.doc.pages.Some? {
      ghost var first := d.doc;
      var pages := d.doc.pages.value;
      ghost var all := pages;
      for i := 0 to |pages|
        invariant |pages| == |all| && d.doc == first.(pages := Some(pages))
        invariant forall k :: 0 <= k < |all| ==>
          pages[k] == if k < i then all[k].(blocks := Cleaned(all[k].blocks)) else all[k]
      {
        var cleaned := CleanBlocks(pages[i].blocks);
        pages := pages[i := pages[i].(blocks := cleaned)];
        d.doc := d.doc.(pages := Some(pages));
      }
      assert pages == CleanedPages(all);
    }
    d.doc := d.doc.(processing :=
      d.doc.processing["postprocess_provider" := "cdom-postprocess"]["postprocess_provider_version" := "1.0.0"]);
  }

  // ---------- what is left ----------

  /** Every text is trimmed and no block is empty, at every depth. */
  predicate Tidy(bs: seq<Block>) {
    bs == [] || (Trimmed(bs[0].text) && !Empty(bs[0]) && Tidy(bs[0].children) && Tidy(bs[1..]))
  }

  lemma {:induction false} CleanedTidy(bs: seq<Block>)
    ensures Tidy(Cleaned(bs))
  {
    hide TrimSpace, Trimmed, Empty;
    if bs != [] {
      CleanedTidy(bs[0].children);
      CleanedTidy(bs[1..]);
      var b := bs[0].(text := TrimSpace(bs[0].text), children := Cleaned(bs[0].children));
      assert Trimmed(b.text);
      assert ([b] + Cleaned(bs[1..]))[1..] == Cleaned(bs[1..]);
      assert [] + Cleaned(bs[1..]) == Cleaned(bs[1..]);
    }
  }

  /** On a tidy forest there is nothing to do. */
  lemma {:induction false} TidyUnchanged(bs: seq<Block>)
    requires Tidy(bs)
    ensures Cleaned(bs) == bs
  {
    hide Empty;
    if bs != [] {
      TidyUnchanged(bs[0].children);
      TidyUnchanged(bs[1..]);
      TrimUnique([], bs[0].text, []);
      assert [] + bs[0].text + [] == bs[0].text;
      hide TrimSpace, Trimmed;
      assert bs == [bs[0]] + bs[1..];
    }
  }

  /** Cleaning twice is cleaning once. */
  lemma CleanIdempotent(bs: seq<Block>)
    ensures Cleaned(Cleaned(bs)) == Cleaned(bs) && Tidy(Cleaned(bs))
  {
    CleanedTidy(bs);
    TidyUnchanged(Cleaned(bs));
  }

  function Ids(bs: seq<Block>): seq<string> {
    if bs == [] then [] else [bs[0].id] + Ids(bs[0].children) + Ids(bs[1..])
  }

  lemma {:induction false} OrdersThinned(bs: seq<Block>)
    ensures Sub(Orders(Cleaned(bs)), Orders(bs))
  {
    hide TrimSpace, Empty, Sub;
    if bs == [] {
      SubSelf(Orders(bs));
    } else {
      OrdersThinned(bs[0].children);
      OrdersThinned(bs[1..]);
      var b := bs[0].(text := TrimSpace(bs[0].text), children := Cleaned(bs[0].children));
      var kept, rest := Orders(b.children), Orders(Cleaned(bs[1..]));
      SubCons(b.order, kept, Orders(bs[0].children));
      SubAppend([b.order] + kept, [b.order] + Orders(bs[0].children), rest, Orders(bs[1..]));
      SubNothing([b.order] + Orders(bs[0].children));
      SubAppend([], [b.order] + Orders(bs[0].children), rest, Orders(bs[1..]));
      assert [] + rest == rest && [] + Cleaned(bs[1..]) == Cleaned(bs[1..]);
      assert ([b] + Cleaned(bs[1..]))[1..] == Cleaned(bs[1..]);
    }
  }

  lemma SubNothing<T(!new)>(b: seq<T>)
    ensures Sub([], b)
  {}

  lemma {:induction false} IdsThinned(bs: seq<Block>)
    ensures Sub(Ids(Cleaned(bs)), Ids(bs))
  {
    hide TrimSpace, Empty, Sub;
    if bs == [] {
      SubSelf(Ids(bs));
    } else {
      IdsThinned(bs[0].children);
      IdsThinned(bs[1..]);
      var b := bs[0].(text := TrimSpace(bs[0].text), children := Cleaned(bs[0].children));
      var kept, rest := Ids(b.children), Ids(Cleaned(bs[1..]));
      SubCons(b.id, kept, Ids(bs[0].children));
      SubAppend([b.id] + kept, [b.id] + Ids(bs[0].children), rest, Ids(bs[1..]));
      SubNothing([b.id] + Ids(bs[0].children));
      SubAppend([], [b.id] + Ids(bs[0].children), rest, Ids(bs[1..]));
      assert [] + rest == rest && [] + Cleaned(bs[1..]) == Cleaned(bs[1..]);
      assert ([b] + Cleaned(bs[1..]))[1..] == Cleaned(bs[1..]);
    }
  }

  lemma {:induction false} CleanKeepsOk(bs: seq<Block>)
    requires forall b :: b in bs ==> BlockOk(b)
    ensures forall b :: b in Cleaned(bs) ==> BlockOk(b)
  {
    hide TrimSpace, Empty;
    if bs != [] {
      assert BlockOk(bs[0]);
      CleanKeepsOk(bs[0].children);
      CleanKeepsOk(bs[1..]);
    }
  }
}
