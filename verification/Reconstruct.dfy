/** Grouping runs of blocks into lists and tables. The functions say which runs the
    recognisers take and what is built from them; the methods are the loops. */
module Reconstruct {
  import opened Domain
  import opened Text
  import opened Cdom
  import opened Recognize

  // ---------- the runs ----------

  function ListRun(bs: seq<Block>, i: nat, ordered: bool): (n: nat)
    ensures i <= |bs| ==> i + n <= |bs|
    decreases |bs| - i
  {
    if i < |bs| && IsItem(ordered, bs[i]) then 1 + ListRun(bs, i + 1, ordered) else 0
  }

  datatype Splitter = Pipes | Spaces

  function CellsOf(sp: Splitter, text: string): seq<string> {
    if sp == Pipes then PipeCells(text) else SpaceCells(text)
  }

  predicate IsRow(sp: Splitter, b: Block, cols: nat) {
    IsPlain(b) && |CellsOf(sp, b.text)| == cols
  }

  function RowRun(bs: seq<Block>, i: nat, sp: Splitter, cols: nat): (n: nat)
    ensures i <= |bs| ==> i + n <= |bs|
    decreases |bs| - i
  {
    if i < |bs| && IsRow(sp, bs[i], cols) then 1 + RowRun(bs, i + 1, sp, cols) else 0
  }

  /** Separator lines are recognised between pipes only. */
  predicate Skipped(sp: Splitter, b: Block) { sp == Pipes && IsSeparator(PipeCells(b.text)) }

  function Rows(bs: seq<Block>, sp: Splitter): seq<seq<string>> {
    if bs == [] then []
    else (if Skipped(sp, bs[0]) then [] else [CellsOf(sp, bs[0].text)]) + Rows(bs[1..], sp)
  }

  /** How many blocks a table of cells takes at i; 0 when there are not two rows. */
  function TableRun(bs: seq<Block>, i: nat, sp: Splitter): (n: nat)
    requires i < |bs|
    ensures i + n <= |bs|
  {
    var cols := |CellsOf(sp, bs[i].text)|;
    var n := if cols < 2 then 0 else RowRun(bs, i, sp, cols);
    if |Rows(bs[i..i + n], sp)| < 2 then 0 else n
  }

  /** How far a visual row goes on after a block whose left edge is at lastX. */
  function SameY(bs: seq<Block>, i: nat, yMid: real, lastX: real): (n: nat)
    ensures i <= |bs| ==> i + n <= |bs|
    decreases |bs| - i
  {
    if i < |bs| && IsPlain(bs[i]) && Abs(MidY(bs[i]) - yMid) <= 3.0 && bs[i].bbox.x1 + 1.0 >= lastX
    then 1 + SameY(bs, i + 1, yMid, bs[i].bbox.x1)
    else 0
  }

  /** takeSameYRow: the length of the row at i, 0 when it has a single block. */
  function RowLen(bs: seq<Block>, i: nat): (n: nat)
    ensures i <= |bs| ==> i + n <= |bs|
    ensures n != 1
  {
    if i >= |bs| || !IsPlain(bs[i]) then 0
    else
      var n := 1 + SameY(bs, i + 1, MidY(bs[i]), bs[i].bbox.x1);
      if n < 2 then 0 else n
  }

  /** The lengths of the aligned rows from i on; ref is empty before the first. */
  function GeoRun(bs: seq<Block>, i: nat, ref: seq<real>): (lens: seq<nat>)
    requires i <= |bs|
    ensures forall k :: 0 <= k < |lens| ==> lens[k] >= 2
    ensures i + Sum(lens) <= |bs|
    decreases |bs| - i
  {
    var n := RowLen(bs, i);
    if n == 0 then []
    else
      var centers := Centers(bs[i..i + n]);
      if ref != [] && !Compatible(ref, centers, 12.0) then []
      else [n] + GeoRun(bs, i + n, if ref == [] then centers else ref)
  }

  function Sum(lens: seq<nat>): nat {
    if lens == [] then 0 else lens[0] + Sum(lens[1..])
  }

  /** The blocks of each row of a geometric table. */
  function GeoRows(bs: seq<Block>, i: nat, lens: seq<nat>): (rows: seq<seq<Block>>)
    requires i + Sum(lens) <= |bs|
    ensures |rows| == |lens|
    decreases |lens|
  {
    if lens == [] then [] else [bs[i..i + lens[0]]] + GeoRows(bs, i + lens[0], lens[1..])
  }

  // ---------- segments ----------

  /** One turn of the grouping loop. */
  datatype Segment = Copy | ListSeg(ordered: bool, n: nat) | CellSeg(sp: Splitter, n: nat) | GeoSeg(lens: seq<nat>)

  function Len(s: Segment): nat {
    match s
    case Copy => 1
    case ListSeg(_, n) => n
    case CellSeg(_, n) => n
    case GeoSeg(lens) => Sum(lens)
  }

  function SegmentAt(bs: seq<Block>, i: nat): (s: Segment)
    requires i < |bs|
    ensures 1 <= Len(s) <= |bs| - i
  {
    if !IsPlain(bs[i]) then Copy
    else if IsItem(true, bs[i]) then ListSeg(true, ListRun(bs, i, true))
    else if IsItem(false, bs[i]) then ListSeg(false, ListRun(bs, i, false))
    else if TableRun(bs, i, Pipes) >= 2 then CellSeg(Pipes, TableRun(bs, i, Pipes))
    else if TableRun(bs, i, Spaces) >= 2 then CellSeg(Spaces, TableRun(bs, i, Spaces))
    else if |GeoRun(bs, i, [])| >= 2 then GeoSeg(GeoRun(bs, i, []))
    else Copy
  }

  // ---------- what is built ----------

  function IntText(n: int): string { if n < 0 then "-" + Dec(-n) else Dec(n) }

  function PageId(page: int): string { "p" + IntText(page) }

  function ListId(page: int, idx: nat): string { PageId(page) + "-list" + Dec(idx) }

  function TableId(page: int, idx: nat): string { PageId(page) + "-table" + Dec(idx) }

  function RowId(page: int, idx: nat, r: nat): string { PageId(page) + "-t" + Dec(idx) + "-r" + Dec(r) }

  function CellId(page: int, idx: nat, r: nat, c: nat): string { RowId(page, idx, r) + "-c" + Dec(c) }

  function JoinBox(a: BBox, b: BBox): BBox {
    BBox(if b.x1 < a.x1 then b.x1 else a.x1, if b.y1 < a.y1 then b.y1 else a.y1,
         if b.x2 > a.x2 then b.x2 else a.x2, if b.y2 > a.y2 then b.y2 else a.y2)
  }

  function UnionBox(bs: seq<Block>): BBox {
    if bs == [] then NO_BOX
    else if |bs| == 1 then bs[0].bbox
    else JoinBox(UnionBox(bs[..|bs| - 1]), bs[|bs| - 1].bbox)
  }

  function MinConf(bs: seq<Block>): real {
    if bs == [] then 0.0
    else if |bs| == 1 then bs[0].confidence
    else
      var m := MinConf(bs[..|bs| - 1]);
      if bs[|bs| - 1].confidence < m then bs[|bs| - 1].confidence else m
  }

  function Item(b: Block, ordered: bool): Block
    requires IsItem(ordered, b)
  {
    b.(typ := ListItem, text := TrimSpace(ListBody(ordered, b.text).value), children := [],
       attrs := b.attrs["ordered" := Flag(ordered)])
  }

  predicate AllItems(src: seq<Block>, ordered: bool) {
    forall k :: 0 <= k < |src| ==> IsItem(ordered, src[k])
  }

  function Items(bs: seq<Block>, ordered: bool): (r: seq<Block>)
    requires AllItems(bs, ordered)
    ensures |r| == |bs| && forall k :: 0 <= k < |bs| ==> r[k] == Item(bs[k], ordered)
  {
    if bs == [] then [] else [Item(bs[0], ordered)] + Items(bs[1..], ordered)
  }

  function ListBlock(page: int, idx: nat, items: seq<Block>, ordered: bool): Block {
    Block(ListId(page, idx), List, UnionBox(items), 0, MinConf(items), "", "", items, map["ordered" := Flag(ordered)])
  }

  function TextCell(page: int, idx: nat, r: nat, c: nat, text: string): Block {
    Block(CellId(page, idx, r, c), TableCell, NO_BOX, 0, 0.75, "", text, [], map[])
  }

  /** The cells of row r (counted from 1). */
  function TextCells(page: int, idx: nat, r: nat, row: seq<string>): (cells: seq<Block>)
    ensures |cells| == |row| && forall c :: 0 <= c < |row| ==> cells[c] == TextCell(page, idx, r, c + 1, row[c])
  {
    seq(|row|, c requires 0 <= c < |row| => TextCell(page, idx, r, c + 1, row[c]))
  }

  function TextRow(page: int, idx: nat, r: nat, row: seq<string>): Block {
    Block(RowId(page, idx, r), TableRow, NO_BOX, 0, 0.75, "", "", TextCells(page, idx, r, row), map[])
  }

  function TextRows(page: int, idx: nat, rows: seq<seq<string>>): (r: seq<Block>)
    ensures |r| == |rows| && forall k :: 0 <= k < |rows| ==> r[k] == TextRow(page, idx, k + 1, rows[k])
  {
    seq(|rows|, k requires 0 <= k < |rows| => TextRow(page, idx, k + 1, rows[k]))
  }

  /** buildTableBlock. */
  function TextTable(page: int, idx: nat, rows: seq<seq<string>>): Block {
    Block(TableId(page, idx), Table, NO_BOX, 0, 0.75, "", "", TextRows(page, idx, rows),
          map["reconstruction" := Word("pipe_or_space")])
  }

  function GeoCell(page: int, idx: nat, r: nat, c: nat, b: Block): Block {
    b.(id := CellId(page, idx, r, c), typ := TableCell, children := [])
  }

  function GeoCells(page: int, idx: nat, r: nat, row: seq<Block>): (cells: seq<Block>)
    ensures |cells| == |row| && forall c :: 0 <= c < |row| ==> cells[c] == GeoCell(page, idx, r, c + 1, row[c])
  {
    seq(|row|, c requires 0 <= c < |row| => GeoCell(page, idx, r, c + 1, row[c]))
  }

  function GeoRow(page: int, idx: nat, r: nat, row: seq<Block>): Block {
    var cells := GeoCells(page, idx, r, row);
    Block(RowId(page, idx, r), TableRow, UnionBox(cells), 0, MinConf(cells), "", "", cells, map[])
  }

  function GeoRowBlocks(page: int, idx: nat, rows: seq<seq<Block>>): (r: seq<Block>)
    ensures |r| == |rows| && forall k :: 0 <= k < |rows| ==> r[k] == GeoRow(page, idx, k + 1, rows[k])
  {
    seq(|rows|, k requires 0 <= k < |rows| => GeoRow(page, idx, k + 1, rows[k]))
  }

  /** All cells of all rows, in order; the first row's number is `from`. */
  function AllCells(page: int, idx: nat, from: nat, rows: seq<seq<Block>>): seq<Block>
    decreases |rows|
  {
    if rows == [] then [] else GeoCells(page, idx, from, rows[0]) + AllCells(page, idx, from + 1, rows[1..])
  }

  /** buildTableBlockFromRows. */
  function GeoTable(page: int, idx: nat, rows: seq<seq<Block>>): Block {
    var all := AllCells(page, idx, 1, rows);
    Block(TableId(page, idx), Table, UnionBox(all), 0, MinConf(all), "", "", GeoRowBlocks(page, idx, rows),
          map["reconstruction" := Word("geometric_columns")])
  }

  lemma {:induction false} ListRunItems(bs: seq<Block>, i: nat, ordered: bool)
    requires i <= |bs|
    ensures forall k :: i <= k < i + ListRun(bs, i, ordered) ==> IsItem(ordered, bs[k])
    ensures i + ListRun(bs, i, ordered) < |bs| ==> !IsItem(ordered, bs[i + ListRun(bs, i, ordered)])
    decreases |bs| - i
  {
    hide IsItem;
    if i < |bs| && IsItem(ordered, bs[i]) {
      ListRunItems(bs, i + 1, ordered);
    }
  }

  /** The block a segment turns into. */
  function Built(page: int, idx: nat, bs: seq<Block>, i: nat, s: Segment): Block
    requires i < |bs| && s == SegmentAt(bs, i)
  {
    match s
    case Copy => bs[i]
    case ListSeg(ordered, n) =>
      ListRunItems(bs, i, ordered);
      assert AllItems(bs[i..i + n], ordered);
      ListBlock(page, idx, Items(bs[i..i + n], ordered), ordered)
    case CellSeg(sp, n) => TextTable(page, idx, Rows(bs[i..i + n], sp))
    case GeoSeg(lens) => GeoTable(page, idx, GeoRows(bs, i, lens))
  }

  /** reconstructListsAndTables from block i on, the next output block being number idx. */
  function Rebuilt(page: int, bs: seq<Block>, i: nat, idx: nat): seq<Block>
    requires i <= |bs|
    decreases |bs| - i
  {
    if i == |bs| then []
    else
      var s := SegmentAt(bs, i);
      [Built(page, idx, bs, i, s)] + Rebuilt(page, bs, i + Len(s), idx + 1)
  }

  function Reconstructed(page: int, bs: seq<Block>): seq<Block> { Rebuilt(page, bs, 0, 1) }

  // ---------- the loops ----------

  method UnionBBox(bs: seq<Block>) returns (b: BBox)
    ensures b == UnionBox(bs)
  {
    if |bs| == 0 {
      return NO_BOX;
    }
    b := bs[0].bbox;
    for k := 1 to |bs|
      invariant b == UnionBox(bs[..k])
    {
      assert bs[..k + 1][..k] == bs[..k];
      var c := bs[k].bbox;
      if c.x1 < b.x1 { b := b.(x1 := c.x1); }
      if c.y1 < b.y1 { b := b.(y1 := c.y1); }
      if c.x2 > b.x2 { b := b.(x2 := c.x2); }
      if c.y2 > b.y2 { b := b.(y2 := c.y2); }
    }
    assert bs[..|bs|] == bs;
  }

  method MinConfidence(bs: seq<Block>) returns (m: real)
    ensures m == MinConf(bs)
  {
    if |bs| == 0 {
      return 0.0;
    }
    m := bs[0].confidence;
    for k := 1 to |bs|
      invariant m == MinConf(bs[..k])
    {
      assert bs[..k + 1][..k] == bs[..k];
      if bs[k].confidence < m {
        m := bs[k].confidence;
      }
    }
    assert bs[..|bs|] == bs;
  }

  method CollectListRun(bs: seq<Block>, start: nat) returns (items: seq<Block>, n: nat, ordered: bool)
    requires start < |bs| && IsPlain(bs[start])
    ensures ordered == IsItem(true, bs[start])
    ensures n == ListRun(bs, start, ordered)
    ensures forall k :: start <= k < start + n ==> IsItem(ordered, bs[k])
    ensures |items| == n && forall k :: 0 <= k < n ==> items[k] == Item(bs[start + k], ordered)
  {
    hide ListBody, Item;
    items, n := [], 0;
    ordered := ListBody(true, bs[start].text).Some?;
    if !ordered && !ListBody(false, bs[start].text).Some? {
      return;
    }
    var i := start;
    while i < |bs|
      invariant start <= i <= |bs| && n == i - start == |items|
      invariant n + ListRun(bs, i, ordered) == ListRun(bs, start, ordered)
      invariant forall k :: start <= k < i ==> IsItem(ordered, bs[k])
      invariant forall k :: 0 <= k < n ==> items[k] == Item(bs[start + k], ordered)
    {
      if !IsItem(ordered, bs[i]) {
        break;
      }
      items := items + [Item(bs[i], ordered)];
      n := n + 1;
      i := i + 1;
    }
  }

  lemma {:induction false} RowsSnoc(bs: seq<Block>, b: Block, sp: Splitter)
    ensures Rows(bs + [b], sp) == Rows(bs, sp) + (if Skipped(sp, b) then [] else [CellsOf(sp, b.text)])
  {
    hide Skipped, CellsOf;
    if bs != [] {
      RowsSnoc(bs[1..], b, sp);
      assert (bs + [b])[1..] == bs[1..] + [b];
    }
  }

  lemma NoRows(sp: Splitter)
    ensures Rows([], sp) == []
  {}

  lemma RowAdded(bs: seq<Block>, start: nat, i: nat, sp: Splitter)
    requires start <= i < |bs|
    ensures
      Rows(bs[start..i + 1], sp)
        == Rows(bs[start..i], sp) + (if Skipped(sp, bs[i]) then [] else [CellsOf(sp, bs[i].text)])
  {
    hide Rows, Skipped, CellsOf;
    RowsSnoc(bs[start..i], bs[i], sp);
    assert bs[start..i + 1] == bs[start..i] + [bs[i]];
  }

  lemma RunStep(bs: seq<Block>, i: nat, sp: Splitter, cols: nat)
    requires i <= |bs|
    ensures RowRun(bs, i, sp, cols) == if i < |bs| && IsRow(sp, bs[i], cols) then 1 + RowRun(bs, i + 1, sp, cols) else 0
  {}

  /** collectPipeTableRun. */
  method CollectPipeTableRun(bs: seq<Block>, start: nat) returns (rows: seq<seq<string>>, n: nat)
    requires start < |bs| && IsPlain(bs[start])
    ensures n == TableRun(bs, start, Pipes)
    ensures rows == Rows(bs[start..start + n], Pipes)
  {
    hide PipeCells, SpaceCells, IsSeparator, Rows, RowRun;
    NoRows(Pipes);
    assert bs[start..start] == [];
    RunStep(bs, |bs|, Pipes, |CellsOf(Pipes, bs[start].text)|);
    rows, n := [], 0;
    var cols := -1;
    var i := start;
    var width := |PipeCells(bs[start].text)|;
    while i < |bs|
      invariant start <= i <= |bs| && n == i - start
      invariant cols == if i == start then -1 else width
      invariant i > start ==> width >= 2
      invariant n + RowRun(bs, i, Pipes, width) == RowRun(bs, start, Pipes, width)
      invariant rows == Rows(bs[start..i], Pipes)
    {
      RunStep(bs, i, Pipes, width);
      var blk := bs[i];
      if !IsPlain(blk) {
        break;
      }
      var cells := SplitPipeCells(blk.text);
      if |cells| < 2 {
        break;
      }
      if cols < 0 {
        cols := |cells|;
      } else if |cells| != cols {
        break;
      }
      RowAdded(bs, start, i, Pipes);
      var separator := IsMdSeparatorRow(cells);
      if !separator {
        rows := rows + [cells];
      }
      n := n + 1;
      i := i + 1;
    }
    if |rows| < 2 {
      rows, n := [], 0;
    }
  }

  /** collectSpaceTableRun. */
  method CollectSpaceTableRun(bs: seq<Block>, start: nat) returns (rows: seq<seq<string>>, n: nat)
    requires start < |bs| && IsPlain(bs[start])
    ensures n == TableRun(bs, start, Spaces)
    ensures rows == Rows(bs[start..start + n], Spaces)
  {
    hide PipeCells, SpaceCells, IsSeparator, Rows, RowRun;
    NoRows(Spaces);
    assert bs[start..start] == [];
    RunStep(bs, |bs|, Spaces, |CellsOf(Spaces, bs[start].text)|);
    rows, n := [], 0;
    var cols := -1;
    var i := start;
    var width := |SpaceCells(bs[start].text)|;
    while i < |bs|
      invariant start <= i <= |bs| && n == i - start
      invariant cols == if i == start then -1 else width
      invariant i > start ==> width >= 2
      invariant n + RowRun(bs, i, Spaces, width) == RowRun(bs, start, Spaces, width)
      invariant rows == Rows(bs[start..i], Spaces)
    {
      RunStep(bs, i, Spaces, width);
      var blk := bs[i];
      if !IsPlain(blk) {
        break;
      }
      var cells := SplitMultiSpaceCells(blk.text);
      if |cells| < 2 {
        break;
      }
      if cols < 0 {
        cols := |cells|;
      } else if |cells| != cols {
        break;
      }
      RowAdded(bs, start, i, Spaces);
      rows := rows + [cells];
      n := n + 1;
      i := i + 1;
    }
    if |rows| < 2 {
      rows, n := [], 0;
    }
  }

  lemma SameYStep(bs: seq<Block>, i: nat, yMid: real, lastX: real)
    requires i <= |bs|
    ensures
      SameY(bs, i, yMid, lastX)
        == if i < |bs| && IsPlain(bs[i]) && Abs(MidY(bs[i]) - yMid) <= 3.0 && bs[i].bbox.x1 + 1.0 >= lastX
           then 1 + SameY(bs, i + 1, yMid, bs[i].bbox.x1) else 0
  {}

  method TakeSameYRow(bs: seq<Block>, start: nat) returns (row: seq<Block>, n: nat)
    requires start <= |bs|
    ensures n == RowLen(bs, start) && row == bs[start..start + n]
  {
    if start >= |bs| || !IsPlain(bs[start]) {
      return [], 0;
    }
    hide SameY, Abs, MidY, IsPlain, RowLen;
    var base := bs[start];
    var yMid := MidY(base);
    row, n := [base], 1;
    RowLenIs(bs, start);
    ghost var all := 1 + SameY(bs, start + 1, yMid, base.bbox.x1);
    var i := start + 1;
    while i < |bs|
      invariant start + 1 <= i <= |bs| && n == i - start && row == bs[start..i]
      invariant n + SameY(bs, i, yMid, bs[i - 1].bbox.x1) == all
    {
      var blk := bs[i];
      SameYStep(bs, i, yMid, bs[i - 1].bbox.x1);
      if !IsPlain(blk) {
        break;
      }
      if Abs(MidY(blk) - yMid) > 3.0 {
        break;
      }
      if blk.bbox.x1 + 1.0 < row[|row| - 1].bbox.x1 {
        break;
      }
      row := row + [blk];
      n := n + 1;
      i := i + 1;
    }
    if i == |bs| {
      SameYStep(bs, i, yMid, bs[i - 1].bbox.x1);
    }
    if |row| < 2 {
      return [], 0;
    }
  }

  lemma RowLenIs(bs: seq<Block>, i: nat)
    requires i < |bs| && IsPlain(bs[i])
    ensures var n := 1 + SameY(bs, i + 1, MidY(bs[i]), bs[i].bbox.x1); RowLen(bs, i) == if n < 2 then 0 else n
  {}

  lemma NoRowAtEnd(bs: seq<Block>)
    ensures RowLen(bs, |bs|) == 0
  {}

  lemma GeoRowsFirst(bs: seq<Block>, i: nat, n: nat, more: seq<nat>)
    requires i + n + Sum(more) <= |bs|
    ensures Sum([n] + more) == n + Sum(more)
    ensures GeoRows(bs, i, [n] + more) == [bs[i..i + n]] + GeoRows(bs, i + n, more)
  {
    assert ([n] + more)[1..] == more;
  }

  lemma NoGeoRows(bs: seq<Block>)
    ensures Sum([]) == 0
    ensures forall i: nat :: i <= |bs| ==> GeoRows(bs, i, []) == []
  {}

  /** collectGeometricTableRun. */
  method CollectGeometricTableRun(bs: seq<Block>, start: nat) returns (rows: seq<seq<Block>>, consumed: nat)
    requires start <= |bs|
    ensures
      var lens := GeoRun(bs, start, []);
      if |lens| < 2 then rows == [] && consumed == 0
      else consumed == Sum(lens) && rows == GeoRows(bs, start, lens)
  {
    hide RowLen, Centers, Compatible, GeoRows, Sum;
    NoRowAtEnd(bs);
    NoGeoRows(bs);
    rows, consumed := [], 0;
    ghost var lens := GeoRun(bs, start, []);
    var i := start;
    var cols: seq<real> := [];
    while i < |bs|
      invariant start <= i <= |bs| && i == start + consumed
      invariant |rows| + |GeoRun(bs, i, cols)| == |lens| && consumed + Sum(GeoRun(bs, i, cols)) == Sum(lens)
      invariant rows + GeoRows(bs, i, GeoRun(bs, i, cols)) == GeoRows(bs, start, lens)
      invariant cols == [] <==> rows == []
    {
      var row, n := TakeSameYRow(bs, i);
      if n == 0 {
        break;
      }
      var centers := ColumnCenters(row);
      if cols == [] {
        cols := centers;
      } else {
        var compatible := CompatibleColumns(cols, centers, 12.0);
        if !compatible {
          break;
        }
      }
      ghost var more := GeoRun(bs, i + n, cols);
      GeoRowsFirst(bs, i, n, more);
      assert rows + ([row] + GeoRows(bs, i + n, more)) == (rows + [row]) + GeoRows(bs, i + n, more);
      rows := rows + [row];
      consumed := consumed + n;
      i := i + n;
    }
    if |rows| < 2 {
      rows, consumed := [], 0;
    }
  }

  method BuildListBlock(page: int, idx: nat, items: seq<Block>, ordered: bool) returns (b: Block)
    ensures b == ListBlock(page, idx, items, ordered)
  {
    var bbox := UnionBBox(items);
    var conf := MinConfidence(items);
    b := Block(ListId(page, idx), List, bbox, 0, conf, "", "", items, map["ordered" := Flag(ordered)]);
  }

  method BuildTableBlock(page: int, idx: nat, rows: seq<seq<string>>) returns (b: Block)
    ensures b == TextTable(page, idx, rows)
  {
    hide CellId, RowId;
    var children: seq<Block> := [];
    for r := 0 to |rows|
      invariant |children| == r && forall k :: 0 <= k < r ==> children[k] == TextRow(page, idx, k + 1, rows[k])
    {
      var row := rows[r];
      var cells: seq<Block> := [];
      for c := 0 to |row|
        invariant |cells| == c && forall k :: 0 <= k < c ==> cells[k] == TextCell(page, idx, r + 1, k + 1, row[k])
      {
        cells := cells + [Block(CellId(page, idx, r + 1, c + 1), TableCell, NO_BOX, 0, 0.75, "", row[c], [], map[])];
      }
      assert cells == TextCells(page, idx, r + 1, row);
      children := children + [Block(RowId(page, idx, r + 1), TableRow, NO_BOX, 0, 0.75, "", "", cells, map[])];
    }
    assert children == TextRows(page, idx, rows);
    b := Block(TableId(page, idx), Table, NO_BOX, 0, 0.75, "", "", children,
          map["reconstruction" := Word("pipe_or_space")]);
  }

  lemma {:induction false} AllCellsSnoc(page: int, idx: nat, from: nat, rows: seq<seq<Block>>, row: seq<Block>)
    ensures AllCells(page, idx, from, rows + [row])
         == AllCells(page, idx, from, rows) + GeoCells(page, idx, from + |rows|, row)
    decreases |rows|
  {
    hide GeoCells;
    if rows != [] {
      AllCellsSnoc(page, idx, from + 1, rows[1..], row);
      assert (rows + [row])[1..] == rows[1..] + [row];
    } else {
      assert (rows + [row])[1..] == [];
    }
  }

  /** buildTableBlockFromRows. */
  method BuildTableBlockFromRows(page: int, idx: nat, rows: seq<seq<Block>>) returns (b: Block)
    ensures b == GeoTable(page, idx, rows)
  {
    hide CellId, RowId, UnionBox, MinConf;
    var children: seq<Block> := [];
    var all: seq<Block> := [];
    for r := 0 to |rows|
      invariant |children| == r && forall k :: 0 <= k < r ==> children[k] == GeoRow(page, idx, k + 1, rows[k])
      invariant all == AllCells(page, idx, 1, rows[..r])
    {
      var row := rows[r];
      var cells: seq<Block> := [];
      ghost var before := all;
      for c := 0 to |row|
        invariant |cells| == c && forall k :: 0 <= k < c ==> cells[k] == GeoCell(page, idx, r + 1, k + 1, row[k])
        invariant all == before + cells
      {
        var cell := row[c].(id := CellId(page, idx, r + 1, c + 1), typ := TableCell, children := []);
        cells := cells + [cell];
        all := all + [cell];
      }
      assert cells == GeoCells(page, idx, r + 1, row);
      AllCellsSnoc(page, idx, 1, rows[..r], row);
      assert rows[..r + 1] == rows[..r] + [row];
      var bbox := UnionBBox(cells);
      var conf := MinConfidence(cells);
      children := children + [Block(RowId(page, idx, r + 1), TableRow, bbox, 0, conf, "", "", cells, map[])];
    }
    assert rows[..|rows|] == rows;
    assert children == GeoRowBlocks(page, idx, rows);
    var bbox := UnionBBox(all);
    var conf := MinConfidence(all);
    b := Block(TableId(page, idx), Table, bbox, 0, conf, "", "", children,
          map["reconstruction" := Word("geometric_columns")]);
  }

  /** What one turn of the loop appends, by the recogniser that took the run. */
  lemma OneTurn(page: int, bs: seq<Block>, i: nat, out: seq<Block>, b: Block, n: nat)
    requires i < |bs| && n == Len(SegmentAt(bs, i)) && b == Built(page, |out| + 1, bs, i, SegmentAt(bs, i))
    ensures out + Rebuilt(page, bs, i, |out| + 1) == (out + [b]) + Rebuilt(page, bs, i + n, |out + [b]| + 1)
  {
    hide SegmentAt, Built;
    var rest := Rebuilt(page, bs, i + n, |out| + 2);
    assert out + ([b] + rest) == (out + [b]) + rest;
  }

  lemma NothingLeft(page: int, bs: seq<Block>, idx: nat)
    ensures Rebuilt(page, bs, |bs|, idx) == []
  {}

  /** reconstructListsAndTables: page.Blocks before and after. */
  method ReconstructListsAndTables(page: int, bs: seq<Block>) returns (out: seq<Block>)
    ensures out == Reconstructed(page, bs)
  {
    hide Rebuilt, SegmentAt, Built;
    out := [];
    assert [] + Rebuilt(page, bs, 0, 1) == Rebuilt(page, bs, 0, 1);
    var i := 0;
    while i < |bs|
      invariant i <= |bs|
      invariant out + Rebuilt(page, bs, i, |out| + 1) == Reconstructed(page, bs)
      decreases |bs| - i
    {
      var b, n := NextBlock(page, bs, i, |out| + 1);
      OneTurn(page, bs, i, out, b, n);
      out := out + [b];
      i := i + n;
    }
    NothingLeft(page, bs, |out| + 1);
  }

  lemma {:induction false} SumAtLeast(lens: seq<nat>)
    requires forall k :: 0 <= k < |lens| ==> lens[k] >= 2
    ensures Sum(lens) >= 2 * |lens|
  {
    if lens != [] {
      SumAtLeast(lens[1..]);
    }
  }

  /** One turn of the loop: the recognisers in order, or the block itself. */
  method NextBlock(page: int, bs: seq<Block>, i: nat, idx: nat) returns (b: Block, n: nat)
    requires i < |bs|
    ensures n == Len(SegmentAt(bs, i)) && b == Built(page, idx, bs, i, SegmentAt(bs, i))
  {
    hide ListBlock, TextTable, GeoTable, GeoRows, Rows, Item, GeoRun, TableRun, BulletBody, OrderedBody;
    if IsPlain(bs[i]) {
      var items, k, ordered := CollectListRun(bs, i);
      if k > 1 || (k == 1 && LooksLikeItem(bs[i].text)) {
        assert items == Items(bs[i..i + k], ordered);
        b := BuildListBlock(page, idx, items, ordered);
        return b, k;
      }
      b, n := NextTable(page, bs, i, idx);
      return;
    }
    return bs[i], 1;
  }

  /** The three kinds of tables, tried where no list begins. */
  method NextTable(page: int, bs: seq<Block>, i: nat, idx: nat) returns (b: Block, n: nat)
    requires i < |bs| && IsPlain(bs[i]) && !IsItem(true, bs[i]) && !IsItem(false, bs[i])
    ensures n == Len(SegmentAt(bs, i)) && b == Built(page, idx, bs, i, SegmentAt(bs, i))
  {
    hide ListBlock, TextTable, GeoTable, GeoRows, Rows, IsItem, GeoRun, TableRun;
    var rows, m := CollectPipeTableRun(bs, i);
    if m >= 2 {
      b := BuildTableBlock(page, idx, rows);
      return b, m;
    }
    rows, m := CollectSpaceTableRun(bs, i);
    if m >= 2 {
      b := BuildTableBlock(page, idx, rows);
      return b, m;
    }
    var geo, consumed := CollectGeometricTableRun(bs, i);
    SumAtLeast(GeoRun(bs, i, []));
    if consumed >= 2 {
      b := BuildTableBlockFromRows(page, idx, geo);
      return b, consumed;
    }
    return bs[i], 1;
  }
}
