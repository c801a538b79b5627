/** Block ids are pairwise distinct over the whole document, as extracted, after layout
    and after clean-up. */
module BlockIds {
  import opened Domain
  import opened Text
  import opened Cdom
  import opened Recognize
  import opened Reconstruct
  import opened Segmentation
  import opened Seqs
  import opened Layout
  import opened Postprocess
  import opened Preservation
  import opened Pages

  // ---------- names ----------

  /** The six shapes of a name on a page. */
  datatype Shape =
    | Extracted(i: nat) | Ocr
    | ListOf(idx: nat) | TableOf(idx: nat) | RowOf(idx: nat, r: nat) | CellOf(idx: nat, r: nat, c: nat)

  function Suffix(s: Shape): string {
    match s
    case Extracted(i) => "-b" + Dec(i)
    case Ocr => "-ocr1"
    case ListOf(idx) => "-list" + Dec(idx)
    case TableOf(idx) => "-table" + Dec(idx)
    case RowOf(idx, r) => "-t" + Dec(idx) + "-r" + Dec(r)
    case CellOf(idx, r, c) => "-t" + Dec(idx) + "-r" + Dec(r) + "-c" + Dec(c)
  }

  function Name(page: int, s: Shape): string { PageId(page) + Suffix(s) }

  lemma NamesOfTheSource(page: int, i: nat, r: nat, c: nat)
    ensures BlockName(page, i) == Name(page, Extracted(i)) && OcrName(page) == Name(page, Ocr)
    ensures ListId(page, i) == Name(page, ListOf(i)) && TableId(page, i) == Name(page, TableOf(i))
    ensures RowId(page, i, r) == Name(page, RowOf(i, r)) && CellId(page, i, r, c) == Name(page, CellOf(i, r, c))
  {
    var p, a, b, d := PageId(page), Dec(i), Dec(r), Dec(c);
    hide Dec, IntText, PageId;
    assert p + "-b" + a == p + ("-b" + a);
    assert p + "-list" + a == p + ("-list" + a);
    assert p + "-table" + a == p + ("-table" + a);
    assert p + "-t" + a + "-r" + b == p + ("-t" + a + "-r" + b);
    assert p + "-t" + a + "-r" + b + "-c" + d == p + ("-t" + a + "-r" + b + "-c" + d);
  }

  /** The first letters tell the shapes apart, but for rows and cells. */
  function Tag(s: Shape): nat {
    match s
    case Extracted(_) => 0
    case Ocr => 1
    case ListOf(_) => 2
    case TableOf(_) => 3
    case RowOf(_, _) => 4
    case CellOf(_, _, _) => 4
  }

  lemma SuffixStarts(s: Shape)
    ensures var f := Suffix(s); |f| >= 3 && f[0] == '-'
    ensures
      var f := Suffix(s);
      f[1] == if Tag(s) == 0 then 'b' else if Tag(s) == 1 then 'o' else if Tag(s) == 2 then 'l' else 't'
    ensures Tag(s) == 3 ==> Suffix(s)[2] == 'a'
    ensures Tag(s) == 4 ==> IsDigit(Suffix(s)[2])
  {
    hide Dec;
    match s
    case RowOf(idx, r) => assert Dec(idx)[0] == Suffix(s)[2];
    case CellOf(idx, r, c) => assert Dec(idx)[0] == Suffix(s)[2];
    case _ =>
  }

  lemma NumberAtEnd(pre: string, m: nat, n: nat)
    requires pre + Dec(m) == pre + Dec(n)
    ensures m == n
  {
    hide Dec;
    assert (pre + Dec(m))[|pre|..] == Dec(m) && (pre + Dec(n))[|pre|..] == Dec(n);
    DecInjective(m, n);
  }

  lemma AfterPrefix(pre: string, a: string, b: string)
    requires pre + a == pre + b
    ensures a == b
  {
    assert (pre + a)[|pre|..] == a && (pre + b)[|pre|..] == b;
  }

  /** What follows the table's number in the name of a row or a cell. */
  function Tail(s: Shape): string
    requires s.RowOf? || s.CellOf?
  {
    if s.RowOf? then "-r" + Dec(s.r) else "-r" + Dec(s.r) + "-c" + Dec(s.c)
  }

  function Column(s: Shape): string
    requires s.RowOf? || s.CellOf?
  {
    if s.RowOf? then "" else "-c" + Dec(s.c)
  }

  lemma TailSplits(s: Shape)
    requires s.RowOf? || s.CellOf?
    ensures Suffix(s) == "-t" + (Dec(s.idx) + Tail(s))
    ensures Tail(s) == "-r" + (Dec(s.r) + Column(s))
    ensures Tail(s)[0] == '-' && (Column(s) == [] || Column(s)[0] == '-')
  {
    hide Dec;
    if s.RowOf? {
      assert Dec(s.r) + "" == Dec(s.r);
    }
  }

  lemma TailInjective(s: Shape, t: Shape)
    requires (s.RowOf? || s.CellOf?) && (t.RowOf? || t.CellOf?) && Suffix(s) == Suffix(t)
    ensures s == t
  {
    hide Dec, Suffix, Tail, Column;
    TailSplits(s);
    TailSplits(t);
    AfterPrefix("-t", Dec(s.idx) + Tail(s), Dec(t.idx) + Tail(t));
    DecPrefix(s.idx, Tail(s), t.idx, Tail(t));
    AfterPrefix("-r", Dec(s.r) + Column(s), Dec(t.r) + Column(t));
    DecPrefix(s.r, Column(s), t.r, Column(t));
    ColumnInjective(s, t);
  }

  lemma ColumnInjective(s: Shape, t: Shape)
    requires (s.RowOf? || s.CellOf?) && (t.RowOf? || t.CellOf?) && Column(s) == Column(t)
    ensures s.RowOf? <==> t.RowOf?
    ensures s.CellOf? ==> s.c == t.c
  {
    hide Dec;
    if s.CellOf? && t.CellOf? {
      NumberAtEnd("-c", s.c, t.c);
    }
  }

  lemma SuffixInjective(s: Shape, t: Shape)
    requires Suffix(s) == Suffix(t)
    ensures s == t
  {
    hide Dec, Suffix;
    SuffixStarts(s);
    SuffixStarts(t);
    assert Tag(s) == Tag(t);
    if Tag(s) == 4 {
      TailInjective(s, t);
    } else {
      SimpleInjective(s, t);
    }
  }

  lemma SimpleInjective(s: Shape, t: Shape)
    requires Suffix(s) == Suffix(t) && Tag(s) == Tag(t) < 4
    ensures s == t
  {
    hide Dec;
    match s
    case Extracted(i) => NumberAtEnd("-b", i, t.i);
    case ListOf(i) => NumberAtEnd("-list", i, t.idx);
    case TableOf(i) => NumberAtEnd("-table", i, t.idx);
    case _ =>
  }

  /** A name tells its page and its shape. */
  lemma NameInjective(p: nat, s: Shape, q: nat, t: Shape)
    requires Name(p, s) == Name(q, t)
    ensures p == q && s == t
  {
    hide Dec, Suffix;
    SuffixStarts(s);
    SuffixStarts(t);
    var a, b := Dec(p) + Suffix(s), Dec(q) + Suffix(t);
    assert Name(p, s) == "p" + a && Name(q, t) == "p" + b;
    AfterPrefix("p", a, b);
    DecPrefix(p, Suffix(s), q, Suffix(t));
    SuffixInjective(s, t);
  }

  // ---------- the ids of what is built ----------

  predicate Made(s: Shape) { s.ListOf? || s.TableOf? || s.RowOf? || s.CellOf? }

  function Index(s: Shape): nat
    requires Made(s)
  {
    s.idx
  }

  /** A name given by the layout stage to part of output block number idx. */
  ghost predicate MadeName(page: int, idx: nat, id: string) {
    exists s: Shape :: Made(s) && Index(s) == idx && id == Name(page, s)
  }

  /** A name given to part of output block number lo or a later one. */
  ghost predicate LaterName(page: int, lo: nat, id: string) {
    exists s: Shape :: Made(s) && Index(s) >= lo && id == Name(page, s)
  }

  /** A name given by extraction. */
  ghost predicate SourceName(page: int, id: string) {
    exists s: Shape :: !Made(s) && id == Name(page, s)
  }

  lemma LaterIsNotSource(page: nat, lo: nat, id: string)
    requires LaterName(page, lo, id)
    ensures !SourceName(page, id)
  {
    hide Name;
    var s: Shape :| Made(s) && Index(s) >= lo && id == Name(page, s);
    forall t: Shape | id == Name(page, t)
      ensures Made(t)
    {
      NameInjective(page, s, page, t);
    }
  }

  lemma MadeIsNotLater(page: nat, idx: nat, id: string)
    requires MadeName(page, idx, id)
    ensures !LaterName(page, idx + 1, id)
  {
    hide Name;
    var s: Shape :| Made(s) && Index(s) == idx && id == Name(page, s);
    forall t: Shape | id == Name(page, t)
      ensures t == s
    {
      NameInjective(page, s, page, t);
    }
  }

  lemma MadeIsLater(page: int, idx: nat, id: string)
    ensures MadeName(page, idx, id) ==> LaterName(page, idx, id)
    ensures LaterName(page, idx + 1, id) ==> LaterName(page, idx, id)
  {}

  predicate Leaves(bs: seq<Block>) {
    forall k :: 0 <= k < |bs| ==> bs[k].children == []
  }

  lemma {:induction false} LeafIds(bs: seq<Block>)
    requires Leaves(bs)
    ensures |Ids(bs)| == |bs| && forall k :: 0 <= k < |bs| ==> Ids(bs)[k] == bs[k].id
  {
    if bs != [] {
      LeafIds(bs[1..]);
      assert Ids([]) == [];
    }
  }

  lemma IdsFirst(b: Block, rest: seq<Block>)
    ensures Ids([b] + rest) == [b.id] + Ids(b.children) + Ids(rest)
  {
    assert ([b] + rest)[1..] == rest;
  }

  lemma {:induction false} IdsAppend(a: seq<Block>, b: seq<Block>)
    ensures Ids(a + b) == Ids(a) + Ids(b)
  {
    hide Ids;
    if a == [] {
      NoIds();
      assert a + b == b;
    } else {
      IdsAppend(a[1..], b);
      IdsFirst(a[0], a[1..]);
      IdsFirst(a[0], a[1..] + b);
      assert a == [a[0]] + a[1..] && a + b == [a[0]] + (a[1..] + b);
      var x, y, z := [a[0].id] + Ids(a[0].children), Ids(a[1..]), Ids(b);
      assert x + (y + z) == (x + y) + z;
    }
  }

  lemma IdsOne(b: Block)
    ensures Ids([b]) == [b.id] + Ids(b.children)
  {
    assert [b][1..] == [] && Ids([]) == [];
  }

  /** A row of the table numbered idx, with its cells. */
  predicate RowNamed(row: Block, page: int, idx: nat, r: nat) {
    && row.id == RowId(page, idx, r) && Leaves(row.children)
    && forall c :: 0 <= c < |row.children| ==> row.children[c].id == CellId(page, idx, r, c + 1)
  }

  /** A name of the rows from number r on. */
  ghost predicate RowName(page: int, idx: nat, r: nat, id: string) {
    exists s: Shape :: (s.RowOf? || s.CellOf?) && s.idx == idx && s.r >= r && id == Name(page, s)
  }

  lemma RowIds(row: Block, page: nat, idx: nat, r: nat)
    requires RowNamed(row, page, idx, r)
    ensures NoDup(Ids([row]))
    ensures forall k :: 0 <= k < |Ids([row])| ==>
              exists s: Shape :: (s.RowOf? || s.CellOf?) && s.idx == idx && s.r == r && Ids([row])[k] == Name(page, s)
  {
    hide Name, RowId, CellId;
    IdsOne(row);
    LeafIds(row.children);
    var ids := Ids([row]);
    NamesOfTheSource(page, idx, r, 0);
    forall k | 0 <= k < |ids|
      ensures ids[k] == Name(page, if k == 0 then RowOf(idx, r) else CellOf(idx, r, k))
    {
      if k > 0 {
        NamesOfTheSource(page, idx, r, k);
        assert ids[k] == row.children[k - 1].id;
      }
    }
    forall i, j | 0 <= i < j < |ids|
      ensures ids[i] != ids[j]
    {
      var s, t := if i == 0 then RowOf(idx, r) else CellOf(idx, r, i), CellOf(idx, r, j);
      if Name(page, s) == Name(page, t) {
        NameInjective(page, s, page, t);
      }
    }
    forall k | 0 <= k < |ids|
      ensures exists s: Shape :: (s.RowOf? || s.CellOf?) && s.idx == idx && s.r == r && ids[k] == Name(page, s)
    {
      var s := if k == 0 then RowOf(idx, r) else CellOf(idx, r, k);
      assert ids[k] == Name(page, s);
    }
  }

  lemma RowsApart(page: nat, idx: nat, r: nat, s: Shape)
    requires (s.RowOf? || s.CellOf?) && s.idx == idx && s.r == r
    ensures !RowName(page, idx, r + 1, Name(page, s))
  {
    hide Name;
    forall t: Shape | Name(page, t) == Name(page, s)
      ensures t == s
    {
      NameInjective(page, s, page, t);
    }
  }

  lemma {:induction false} RowsIds(rows: seq<Block>, page: nat, idx: nat, r: nat)
    requires forall k :: 0 <= k < |rows| ==> RowNamed(rows[k], page, idx, r + k)
    ensures NoDup(Ids(rows))
    ensures forall id :: id in Ids(rows) ==> RowName(page, idx, r, id)
    decreases |rows|
  {
    hide Name, RowNamed, Ids;
    if rows == [] {
      assert Ids(rows) == [] by { NoIds(); }
    } else {
      assert rows == [rows[0]] + rows[1..];
      IdsAppend([rows[0]], rows[1..]);
      RowIds(rows[0], page, idx, r);
      RowsIds(rows[1..], page, idx, r + 1);
      var head, tail := Ids([rows[0]]), Ids(rows[1..]);
      forall id | id in head
        ensures id !in tail && RowName(page, idx, r, id)
      {
        var k :| 0 <= k < |head| && head[k] == id;
        var s: Shape :| (s.RowOf? || s.CellOf?) && s.idx == idx && s.r == r && head[k] == Name(page, s);
        RowsApart(page, idx, r, s);
      }
      NoDupAppend(head, tail);
    }
  }

  lemma NoIds()
    ensures Ids([]) == []
  {}

  /** What a turn of the loop contributes: names of its own number, and those of its sources. */
  ghost predicate IdsFrom(page: int, idx: nat, src: seq<Block>, ids: seq<string>) {
    NoDup(ids) && forall id :: id in ids ==> MadeName(page, idx, id) || (exists k :: 0 <= k < |src| && src[k].id == id)
  }

  lemma TableIds(t: Block, page: nat, idx: nat, src: seq<Block>)
    requires t.id == TableId(page, idx) && forall k :: 0 <= k < |t.children| ==>
      RowNamed(t.children[k], page, idx, k + 1)
    ensures IdsFrom(page, idx, src, Ids([t]))
  {
    hide Name, RowNamed, TableId, Ids;
    IdsOne(t);
    RowsIds(t.children, page, idx, 1);
    NamesOfTheSource(page, idx, 0, 0);
    var tail := Ids(t.children);
    forall id | id in tail
      ensures id != t.id && MadeName(page, idx, id)
    {
      var s: Shape :| (s.RowOf? || s.CellOf?) && s.idx == idx && id == Name(page, s);
      assert Made(s) && Index(s) == idx;
      if Name(page, s) == Name(page, TableOf(idx)) {
        NameInjective(page, s, page, TableOf(idx));
      }
    }
    assert Made(TableOf(idx)) && Index(TableOf(idx)) == idx && t.id == Name(page, TableOf(idx));
    assert MadeName(page, idx, t.id);
    NoDupAppend([t.id], tail);
  }

  lemma TextTableIds(page: nat, idx: nat, rows: seq<seq<string>>, src: seq<Block>)
    ensures IdsFrom(page, idx, src, Ids([TextTable(page, idx, rows)]))
  {
    hide RowId, CellId, TableId, IdsFrom;
    var t := TextTable(page, idx, rows);
    forall k | 0 <= k < |t.children|
      ensures RowNamed(t.children[k], page, idx, k + 1)
    {
      assert t.children[k] == TextRow(page, idx, k + 1, rows[k]);
    }
    TableIds(t, page, idx, src);
  }

  lemma GeoTableIds(page: nat, idx: nat, rows: seq<seq<Block>>, src: seq<Block>)
    ensures IdsFrom(page, idx, src, Ids([GeoTable(page, idx, rows)]))
  {
    hide RowId, CellId, TableId, IdsFrom, AllCells, UnionBox, MinConf;
    var t := GeoTable(page, idx, rows);
    forall k | 0 <= k < |t.children|
      ensures RowNamed(t.children[k], page, idx, k + 1)
    {
      assert t.children[k] == GeoRow(page, idx, k + 1, rows[k]);
    }
    TableIds(t, page, idx, src);
  }

  /** Leaves that extraction named, no two alike. */
  ghost predicate SourceOk(page: int, bs: seq<Block>) {
    && Leaves(bs) && (forall k :: 0 <= k < |bs| ==> SourceName(page, bs[k].id))
    && forall i, j :: 0 <= i < j < |bs| ==> bs[i].id != bs[j].id
  }

  lemma SourcePart(page: int, bs: seq<Block>, i: nat, j: nat)
    requires SourceOk(page, bs) && i <= j <= |bs|
    ensures SourceOk(page, bs[i..j])
  {
    hide SourceName;
  }

  lemma ListIds(page: nat, idx: nat, src: seq<Block>, ordered: bool)
    requires SourceOk(page, src) && AllItems(src, ordered)
    ensures IdsFrom(page, idx, src, Ids([ListBlock(page, idx, Items(src, ordered), ordered)]))
  {
    hide Name, ListId, UnionBox, MinConf, SourceName, MadeName, TrimSpace, ListBody, Ids;
    var items := Items(src, ordered);
    var l := ListBlock(page, idx, items, ordered);
    IdsOne(l);
    LeafIds(items);
    NamesOfTheSource(page, idx, 0, 0);
    assert MadeName(page, idx, l.id) by { ListMade(page, idx); }
    MadeIsLater(page, idx, l.id);
    LaterIsNotSource(page, idx, l.id);
    var ids := Ids(items);
    forall k | 0 <= k < |ids|
      ensures ids[k] == src[k].id && ids[k] != l.id
    {
      assert items[k] == Item(src[k], ordered);
      assert SourceName(page, src[k].id);
    }
    assert NoDup(ids);
    NoDupAppend([l.id], ids);
  }

  lemma ListMade(page: int, idx: nat)
    ensures MadeName(page, idx, Name(page, ListOf(idx)))
  {
    hide Name;
    assert Made(ListOf(idx)) && Index(ListOf(idx)) == idx;
  }

  lemma CopyIds(page: nat, idx: nat, b: Block)
    requires b.children == []
    ensures IdsFrom(page, idx, [b], Ids([b]))
  {
    hide MadeName;
    IdsOne(b);
    NoIds();
    assert Ids([b]) == [b.id] && [b][0].id == b.id;
  }

  lemma BuiltIds(page: nat, idx: nat, bs: seq<Block>, i: nat)
    requires i < |bs| && SourceOk(page, bs)
    ensures
      var s := SegmentAt(bs, i);
      IdsFrom(page, idx, bs[i..i + Len(s)], Ids([Built(page, idx, bs, i, s)]))
  {
    hide SegmentAt, SourceOk, IdsFrom, Ids, ListBlock, TextTable, GeoTable, GeoRows, Rows, Items, IsItem;
    SegmentFits(bs, i);
    var s := SegmentAt(bs, i);
    match s
    case Copy =>
      assert bs[i].children == [] by { SourceLeaf(page, bs, i); }
      CopyIds(page, idx, bs[i]);
      assert bs[i..i + 1] == [bs[i]];
    case ListSeg(ordered, n) =>
      SegmentCases(bs, i);
      ListRunItems(bs, i, ordered);
      ItemsHere(bs, i, n, ordered);
      SourcePart(page, bs, i, i + n);
      ListIds(page, idx, bs[i..i + n], ordered);
    case CellSeg(sp, n) => TextTableIds(page, idx, Rows(bs[i..i + n], sp), bs[i..i + n]);
    case GeoSeg(lens) => GeoTableIds(page, idx, GeoRows(bs, i, lens), bs[i..i + Len(s)]);
  }

  lemma ItemsHere(bs: seq<Block>, i: nat, n: nat, ordered: bool)
    requires i + n <= |bs| && forall k :: i <= k < i + n ==> IsItem(ordered, bs[k])
    ensures AllItems(bs[i..i + n], ordered)
  {
    hide IsItem;
  }

  lemma SourceLeaf(page: int, bs: seq<Block>, i: nat)
    requires SourceOk(page, bs) && i < |bs|
    ensures bs[i].children == [] && SourceName(page, bs[i].id)
  {}

  /** The ids of the output from block i on. */
  ghost predicate RestIds(page: int, idx: nat, bs: seq<Block>, i: nat, ids: seq<string>)
    requires i <= |bs|
  {
    && NoDup(ids)
    && forall id :: id in ids ==>
         LaterName(page, idx, id) || (exists k :: i <= k < |bs| && bs[k].id == id)
  }

  lemma Joined(page: nat, idx: nat, bs: seq<Block>, i: nat, j: nat, head: seq<string>, tail: seq<string>)
    requires i < j <= |bs| && SourceOk(page, bs)
    requires IdsFrom(page, idx, bs[i..j], head) && RestIds(page, idx + 1, bs, j, tail)
    ensures RestIds(page, idx, bs, i, head + tail)
  {
    hide MadeName, LaterName, SourceName;
    forall id | id in head
      ensures id !in tail
    {
      HeadNotInTail(page, idx, bs, i, j, id);
    }
    NoDupAppend(head, tail);
    forall id | id in head + tail
      ensures LaterName(page, idx, id) || (exists k :: i <= k < |bs| && bs[k].id == id)
    {
      MadeIsLater(page, idx, id);
      if id in head && !MadeName(page, idx, id) {
        var k :| 0 <= k < j - i && bs[i..j][k].id == id;
        assert bs[i + k].id == id;
      }
    }
  }

  lemma HeadNotInTail(page: nat, idx: nat, bs: seq<Block>, i: nat, j: nat, id: string)
    requires i < j <= |bs| && SourceOk(page, bs)
    requires MadeName(page, idx, id) || (exists k :: 0 <= k < j - i && bs[i..j][k].id == id)
    ensures !LaterName(page, idx + 1, id) && forall k :: j <= k < |bs| ==> bs[k].id != id
  {
    hide MadeName, LaterName, SourceName;
    if MadeName(page, idx, id) {
      MadeIsNotLater(page, idx, id);
      MadeIsLater(page, idx, id);
      LaterIsNotSource(page, idx, id);
      forall k | j <= k < |bs|
        ensures bs[k].id != id
      {
        assert SourceName(page, bs[k].id);
      }
    } else {
      var k :| 0 <= k < j - i && bs[i..j][k].id == id;
      assert bs[i + k].id == id && SourceName(page, id);
      if LaterName(page, idx + 1, id) {
        LaterIsNotSource(page, idx + 1, id);
      }
    }
  }

  lemma {:induction false} RebuiltIds(page: nat, bs: seq<Block>, i: nat, idx: nat)
    requires i <= |bs| && SourceOk(page, bs)
    ensures RestIds(page, idx, bs, i, Ids(Rebuilt(page, bs, i, idx)))
    decreases |bs| - i
  {
    hide SegmentAt, Built, Len, IdsFrom, SourceOk, Ids, LaterName;
    if i == |bs| {
      NoIds();
    } else {
      var s := SegmentAt(bs, i);
      SegmentFits(bs, i);
      BuiltIds(page, idx, bs, i);
      RebuiltIds(page, bs, i + Len(s), idx + 1);
      var head, rest := [Built(page, idx, bs, i, s)], Rebuilt(page, bs, i + Len(s), idx + 1);
      IdsAppend(head, rest);
      hide Rebuilt, RestIds;
      Joined(page, idx, bs, i, i + Len(s), Ids(head), Ids(rest));
    }
  }

  // ---------- the other stages ----------

  lemma {:induction false} NumberedIds(bs: seq<Block>, order: int)
    ensures Ids(Numbered(bs, order).0) == Ids(bs)
    decreases bs
  {
    if bs != [] {
      var (kids, o1) := Numbered(bs[0].children, order + 1);
      NumberedIds(bs[0].children, order + 1);
      NumberedIds(bs[1..], o1);
      var rest := Numbered(bs[1..], o1).0;
      assert ([bs[0].(order := order + 1, children := kids)] + rest)[1..] == rest;
    }
  }

  lemma {:induction false} OnceOnly(bs: seq<Block>, x: Block)
    requires forall i, j :: 0 <= i < j < |bs| ==> bs[i].id != bs[j].id
    ensures multiset(bs)[x] <= 1
  {
    if bs != [] {
      OnceOnly(bs[1..], x);
      FirstOnce(bs);
      assert bs == [bs[0]] + bs[1..];
    }
  }

  lemma FirstOnce(bs: seq<Block>)
    requires bs != [] && forall j :: 0 < j < |bs| ==> bs[0].id != bs[j].id
    ensures multiset(bs[1..])[bs[0]] == 0
  {
    assert forall k :: 0 <= k < |bs[1..]| ==> bs[1..][k] != bs[0];
  }

  lemma Twice(bs: seq<Block>, i: nat, j: nat)
    requires i < j < |bs| && bs[i] == bs[j]
    ensures multiset(bs)[bs[i]] >= 2
  {
    assert bs == bs[..j] + [bs[j]] + bs[j + 1..];
    assert bs[i] in bs[..j];
    assert multiset(bs)[bs[i]] == multiset(bs[..j])[bs[i]] + multiset([bs[j]])[bs[i]] + multiset(bs[j + 1..])[bs[i]];
  }

  lemma ArrangedSource(page: int, bs: seq<Block>, as': seq<Block>)
    requires SourceOk(page, bs) && multiset(as') == multiset(bs)
    ensures SourceOk(page, as')
  {
    hide SourceName;
    forall k | 0 <= k < |as'|
      ensures as'[k].children == [] && SourceName(page, as'[k].id)
    {
      assert as'[k] in multiset(as');
      assert as'[k] in bs;
    }
    forall i, j | 0 <= i < j < |as'|
      ensures as'[i].id != as'[j].id
    {
      assert as'[i] in multiset(as') && as'[j] in multiset(as');
      assert as'[i] in bs && as'[j] in bs;
      if as'[i] == as'[j] {
        Twice(as', i, j);
        OnceOnly(bs, as'[i]);
        assert false;
      }
    }
  }

  lemma TypedSource(page: int, bs: seq<Block>, isLetter: char -> bool)
    requires SourceOk(page, bs)
    ensures SourceOk(page, TypedAll(bs, isLetter))
  {
    hide SourceName, LooksLikeHeading;
  }

  lemma AnalyzedIds(p: Page, arrange: seq<Block> -> seq<Block>, isLetter: char -> bool, order: int)
    requires p.number >= 0 && SourceOk(p.number, p.blocks) && multiset(arrange(p.blocks)) == multiset(p.blocks)
    ensures
      var ids := Ids(AnalyzedPage(p, arrange, isLetter, order).0.blocks);
      NoDup(ids) && forall id :: id in ids ==> exists s :: id == Name(p.number, s)
  {
    hide Numbered, TypedAll, SourceOk, Reconstructed, Ids, Name, LaterName;
    var a := arrange(p.blocks);
    ArrangedSource(p.number, p.blocks, a);
    TypedSource(p.number, a, isLetter);
    var t := TypedAll(a, isLetter);
    RebuiltIds(p.number, t, 0, 1);
    RebuiltFromStart(p.number, t);
    NumberedIds(Reconstructed(p.number, t), order);
    forall id | id in Ids(Reconstructed(p.number, t))
      ensures exists s :: id == Name(p.number, s)
    {
      if LaterName(p.number, 1, id) {
        LaterIsName(p.number, 1, id);
      } else {
        var k :| 0 <= k < |t| && t[k].id == id;
        SourceLeaf(p.number, t, k);
        assert SourceName(p.number, id);
      }
    }
  }

  lemma LaterIsName(page: int, lo: nat, id: string)
    requires LaterName(page, lo, id)
    ensures exists s :: id == Name(page, s)
  {
    hide Name;
  }

  // ---------- the whole document ----------

  function DocIds(ps: seq<Page>): seq<string> {
    if ps == [] then [] else Ids(ps[0].blocks) + DocIds(ps[1..])
  }

  /** Ids are distinct on every page and name the page; pages have numbers of their own. */
  ghost predicate PagesNamed(ps: seq<Page>) {
    && (forall i :: 0 <= i < |ps| ==> ps[i].number >= 0 && NoDup(Ids(ps[i].blocks)))
    && (forall i :: 0 <= i < |ps| ==> NamesPage(ps[i]))
    && forall i, j :: 0 <= i < j < |ps| ==> ps[i].number != ps[j].number
  }

  ghost predicate NamesPage(p: Page) {
    forall id :: id in Ids(p.blocks) ==> exists s :: id == Name(p.number, s)
  }

  lemma {:induction false} DocIdsFrom(ps: seq<Page>, id: string)
    requires id in DocIds(ps)
    ensures exists i :: 0 <= i < |ps| && id in Ids(ps[i].blocks)
  {
    hide Ids;
    if id in Ids(ps[0].blocks) {
      assert 0 < |ps|;
    } else {
      DocIdsFrom(ps[1..], id);
      var i :| 0 <= i < |ps[1..]| && id in Ids(ps[1..][i].blocks);
      assert id in Ids(ps[i + 1].blocks);
    }
  }

  lemma {:induction false} PagesApart(ps: seq<Page>)
    requires PagesNamed(ps)
    ensures NoDup(DocIds(ps))
  {
    hide Ids, Name, NoDup;
    if ps == [] {
      assert NoDup<string>([]) by { NothingTwice(); }
    } else {
      PagesApart(ps[1..]);
      forall id | id in Ids(ps[0].blocks)
        ensures id !in DocIds(ps[1..])
      {
        if id in DocIds(ps[1..]) {
          DocIdsFrom(ps[1..], id);
          var i :| 0 <= i < |ps[1..]| && id in Ids(ps[1..][i].blocks);
          assert NamesPage(ps[i + 1]) && NamesPage(ps[0]);
          var s :| id == Name(ps[0].number, s);
          var t :| id == Name(ps[i + 1].number, t);
          NameInjective(ps[0].number, s, ps[i + 1].number, t);
        }
      }
      NoDupAppend(Ids(ps[0].blocks), DocIds(ps[1..]));
    }
  }

  lemma NothingTwice()
    ensures NoDup<string>([])
  {}

  /** What extraction promises of a page, and layout relies on. */
  ghost predicate PageSource(p: Page) { p.number >= 1 && SourceOk(p.number, p.blocks) }

  lemma {:induction false} AnalyzedPagesNamed(ps: seq<Page>, arrange: seq<Block> -> seq<Block>, isLetter: char -> bool,
                                              order: int, i: nat)
    requires i < |ps| && PageSource(ps[i])
    requires forall s: seq<Block> :: multiset(arrange(s)) == multiset(s)
    ensures
      var p := AnalyzedPages(ps, arrange, isLetter, order).0[i];
      p.number == ps[i].number && NoDup(Ids(p.blocks)) && NamesPage(p)
    decreases |ps|
  {
    hide NoDup, Ids, Name, SourceOk, Reconstructed, Numbered, TypedAll;
    if i == 0 {
      AnalyzedIds(ps[0], arrange, isLetter, order);
    } else {
      AnalyzedPagesNamed(ps[1..], arrange, isLetter, AnalyzedPage(ps[0], arrange, isLetter, order).1, i - 1);
    }
  }

  lemma CleanedNamed(p: Page)
    requires NoDup(Ids(p.blocks)) && NamesPage(p)
    ensures NoDup(Ids(Cleaned(p.blocks))) && NamesPage(p.(blocks := Cleaned(p.blocks)))
  {
    hide NoDup, Ids, Name, Cleaned, Sub;
    IdsThinned(p.blocks);
    SubNoDup(Ids(Cleaned(p.blocks)), Ids(p.blocks));
    SubMembers(Ids(Cleaned(p.blocks)), Ids(p.blocks));
  }

  /** Over the whole document, no two blocks share an id: after layout, and after
      clean-up, whatever order the sort leaves. */
  lemma BlockIdsDistinct(d: Doc, arrange: seq<Block> -> seq<Block>, isLetter: char -> bool)
    requires d.pages.Some? && forall i :: 0 <= i < |d.pages.value| ==> PageSource(d.pages.value[i])
    requires forall i, j :: 0 <= i < j < |d.pages.value| ==> d.pages.value[i].number != d.pages.value[j].number
    requires forall s: seq<Block> :: multiset(arrange(s)) == multiset(s)
    ensures NoDup(DocIds(Analyzed(d, arrange, isLetter).pages.value))
    ensures NoDup(DocIds(Normalized(d, arrange, isLetter).pages.value))
  {
    hide NoDup, Ids, AnalyzedPages, Cleaned, SourceOk, NamesPage;
    var ps := d.pages.value;
    var a := AnalyzedPages(ps, arrange, isLetter, 0).0;
    forall i | 0 <= i < |ps|
      ensures a[i].number == ps[i].number && NoDup(Ids(a[i].blocks)) && NamesPage(a[i])
    {
      AnalyzedPagesNamed(ps, arrange, isLetter, 0, i);
    }
    PagesApart(a);
    var c := CleanedPages(a);
    forall i | 0 <= i < |ps|
      ensures c[i].number == ps[i].number && NoDup(Ids(c[i].blocks)) && NamesPage(c[i])
    {
      CleanedNamed(a[i]);
    }
    PagesApart(c);
  }

  // ---------- extraction keeps its promise ----------

  lemma DigitalSource(p: PageText, base: int)
    requires p.number >= 1
    ensures PageSource(DigitalPage(p, base))
  {
    hide Name, BlockName;
    var bs := DigitalPage(p, base).blocks;
    forall k | 0 <= k < |bs|
      ensures bs[k].children == [] && bs[k].id == Name(p.number, Extracted(k + 1)) && SourceName(p.number, bs[k].id)
    {
      NamesOfTheSource(p.number, k + 1, 0, 0);
      assert !Made(Extracted(k + 1));
    }
    forall i, j | 0 <= i < j < |bs|
      ensures bs[i].id != bs[j].id
    {
      if bs[i].id == bs[j].id {
        NameInjective(p.number, Extracted(i + 1), p.number, Extracted(j + 1));
      }
    }
  }

  lemma OcrSource(number: int, width: real, height: real, r: OcrResult, order: int)
    requires number >= 1
    ensures PageSource(OcrPage(number, width, height, r, order))
  {
    hide Name, OcrName;
    NamesOfTheSource(number, 0, 0, 0);
    assert !Made(Ocr);
  }

  /** Digital, mixed and scanned documents all meet the condition, pages being numbered
      from 1. */
  lemma ExtractedSource(ps: seq<PageText>, mixed: bool, byPage: map<int, OcrResult>)
    requires (mixed ==> Covered(ps, byPage)) && forall i :: 0 <= i < |ps| ==> ps[i].number == i + 1
    ensures
      var pages := PagesOf(ps, mixed, byPage);
      && (forall i :: 0 <= i < |pages| ==> PageSource(pages[i]))
      && forall i, j :: 0 <= i < j < |pages| ==> pages[i].number != pages[j].number
  {
    hide PageSource, Base;
    var pages := PagesOf(ps, mixed, byPage);
    forall i | 0 <= i < |pages|
      ensures PageSource(pages[i]) && pages[i].number == i + 1
    {
      DigitalSource(ps[i], Base(ps, i, mixed));
      if ByOcr(ps[i], mixed) {
        OcrSource(ps[i].number, ps[i].width, ps[i].height, byPage[ps[i].number], Base(ps, i, mixed) + 1);
      }
    }
  }

  lemma ScannedSource(ps: seq<PageText>, n: nat, byPage: map<int, OcrResult>)
    requires forall i :: 1 <= i <= n ==> i in byPage
    ensures
      var pages := ScannedPages(ps, n, byPage);
      && (forall i :: 0 <= i < |pages| ==> PageSource(pages[i]))
      && forall i, j :: 0 <= i < j < |pages| ==> pages[i].number != pages[j].number
  {
    hide PageSource;
    var pages := ScannedPages(ps, n, byPage);
    forall i | 0 <= i < |pages|
      ensures PageSource(pages[i]) && pages[i].number == i + 1
    {
      var (w, h) := if i < |ps| then (ps[i].width, ps[i].height) else (612.0, 792.0);
      OcrSource(i + 1, w, h, byPage[i + 1], i + 1);
    }
  }
}
