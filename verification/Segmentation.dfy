/** What the grouping loop means: the page is cut into consecutive segments, each
    of which is one thing, and no text but markers and rules is lost. */
module Segmentation {
  import opened Domain
  import opened Text
  import opened Cdom
  import opened Recognize
  import opened Reconstruct

  // ---------- what a segment is ----------

  predicate AllRows(src: seq<Block>, sp: Splitter, cols: nat) {
    forall k :: 0 <= k < |src| ==> IsRow(sp, src[k], cols)
  }

  /** One visual row: plain blocks on one height, left to right. */
  predicate VisualRow(row: seq<Block>) {
    && |row| >= 2
    && (forall c :: 0 <= c < |row| ==> IsPlain(row[c]) && Abs(MidY(row[c]) - MidY(row[0])) <= 3.0)
    && (forall c :: 0 < c < |row| ==> row[c - 1].bbox.x1 <= row[c].bbox.x1 + 1.0)
  }

  /** Rows with as many columns as the first, each column centred within 12 of it. */
  predicate Aligned(ref: seq<Block>, rows: seq<seq<Block>>) {
    forall r :: 0 <= r < |rows| ==>
      VisualRow(rows[r]) && |rows[r]| == |ref|
      && forall c :: 0 <= c < |ref| ==> Abs(MidX(ref[c]) - MidX(rows[r][c])) <= 12.0
  }

  /** A block that goes on the visual row before it. */
  predicate Follows(row: seq<Block>, b: Block)
    requires row != []
  {
    IsPlain(b) && Abs(MidY(b) - MidY(row[0])) <= 3.0 && row[|row| - 1].bbox.x1 <= b.bbox.x1 + 1.0
  }

  /** A visual row at the head of the page that does not go on. */
  predicate MaximalRow(bs: seq<Block>, n: nat) {
    2 <= n <= |bs| && VisualRow(bs[..n]) && (n < |bs| ==> !Follows(bs[..n], bs[n]))
  }

  /** A row with as many blocks as the reference, each centred within 12 of it. */
  predicate InColumns(ref: seq<Block>, row: seq<Block>) {
    |row| == |ref| && forall c :: 0 <= c < |ref| ==> Abs(MidX(ref[c]) - MidX(row[c])) <= 12.0
  }

  /** Two visual rows one after the other, the second in the columns of the first. */
  ghost predicate StartsGeo(bs: seq<Block>) {
    exists n: nat ::
      2 * n <= |bs| && MaximalRow(bs, n) && MaximalRow(bs[n..], n) && InColumns(bs[..n], bs[n..][..n])
  }

  /** One more visual row in the columns of the reference. */
  ghost predicate GoesOn(ref: seq<Block>, rest: seq<Block>) {
    exists n: nat :: n <= |rest| && MaximalRow(rest, n) && InColumns(ref, rest[..n])
  }

  /** Each row is a whole visual row, cut off by what follows it. */
  predicate WholeRows(rows: seq<seq<Block>>, rest: seq<Block>) {
    rows == [] || (rows[0] <= Joined(rows) + rest && MaximalRow(Joined(rows) + rest, |rows[0]|)
          && WholeRows(rows[1..], rest))
  }

  function Joined(rows: seq<seq<Block>>): seq<Block> {
    if rows == [] then [] else rows[0] + Joined(rows[1..])
  }

  /** The source blocks of a segment, and whatever follows them on the page. */
  ghost predicate SegmentOk(s: Segment, src: seq<Block>, rest: seq<Block>) {
    match s
    case Copy =>
      && |src| == 1
      && (IsPlain(src[0]) ==>
            && !IsItem(true, src[0]) && !IsItem(false, src[0])
            && !StartsTable(src + rest, Pipes) && !StartsTable(src + rest, Spaces) && !StartsGeo(src + rest))
    case ListSeg(ordered, n) =>
      && |src| == n >= 1 && AllItems(src, ordered) && (rest != [] ==> !IsItem(ordered, rest[0]))
    case CellSeg(sp, n) =>
      && |src| == n >= 1 && !IsItem(true, src[0]) && !IsItem(false, src[0])
      && (sp == Spaces ==> !StartsTable(src + rest, Pipes))
      && exists cols: nat :: cols >= 2 && AllRows(src, sp, cols) && |Rows(src, sp)| >= 2
                             && (rest != [] ==> !IsRow(sp, rest[0], cols))
    case GeoSeg(lens) =>
      && |src| >= 1 && !IsItem(true, src[0]) && !IsItem(false, src[0])
      && !StartsTable(src + rest, Pipes) && !StartsTable(src + rest, Spaces)
      && exists rows: seq<seq<Block>> ::
           && |rows| == |lens| >= 2 && (forall k :: 0 <= k < |rows| ==> |rows[k]| == lens[k])
           && Joined(rows) == src && Aligned(rows[0], rows) && WholeRows(rows, rest) && !GoesOn(rows[0], rest)
  }

  /** Some two rows of cells of one width at the head of the page. */
  ghost predicate StartsTable(bs: seq<Block>, sp: Splitter) {
    exists n: nat, cols: nat :: n <= |bs| && cols >= 2 && AllRows(bs[..n], sp, cols) && |Rows(bs[..n], sp)| >= 2
  }

  // ---------- the recognisers find exactly such segments ----------

  lemma {:induction false} RowRunRows(bs: seq<Block>, i: nat, sp: Splitter, cols: nat)
    requires i <= |bs|
    ensures forall k :: i <= k < i + RowRun(bs, i, sp, cols) ==> IsRow(sp, bs[k], cols)
    ensures i + RowRun(bs, i, sp, cols) < |bs| ==> !IsRow(sp, bs[i + RowRun(bs, i, sp, cols)], cols)
    decreases |bs| - i
  {
    hide IsRow;
    if i < |bs| && IsRow(sp, bs[i], cols) {
      RowRunRows(bs, i + 1, sp, cols);
    }
  }

  lemma {:induction false} RowRunLongest(bs: seq<Block>, i: nat, sp: Splitter, cols: nat, n: nat)
    requires i + n <= |bs| && forall k :: i <= k < i + n ==> IsRow(sp, bs[k], cols)
    ensures n <= RowRun(bs, i, sp, cols)
    decreases n
  {
    hide IsRow;
    if n > 0 {
      RowRunLongest(bs, i + 1, sp, cols, n - 1);
    }
  }

  lemma RowsFirst(b: Block, rest: seq<Block>, sp: Splitter)
    ensures Rows([b] + rest, sp) == (if Skipped(sp, b) then [] else [CellsOf(sp, b.text)]) + Rows(rest, sp)
  {
    hide Skipped, CellsOf;
    assert ([b] + rest)[1..] == rest;
  }

  lemma {:induction false} RowsAppend(a: seq<Block>, b: seq<Block>, sp: Splitter)
    ensures Rows(a + b, sp) == Rows(a, sp) + Rows(b, sp)
  {
    hide Skipped, CellsOf, Rows;
    if a == [] {
      NoRows(sp);
      assert a + b == b;
    } else {
      RowsAppend(a[1..], b, sp);
      RowsFirst(a[0], a[1..], sp);
      RowsFirst(a[0], a[1..] + b, sp);
      assert a == [a[0]] + a[1..] && a + b == [a[0]] + (a[1..] + b);
      var x, y, z := (if Skipped(sp, a[0]) then [] else [CellsOf(sp, a[0].text)]), Rows(a[1..], sp), Rows(b, sp);
      assert x + (y + z) == (x + y) + z;
    }
  }

  /** A table run is found exactly when the rest of the page starts with a table. */
  lemma TableRunIff(bs: seq<Block>, i: nat, sp: Splitter)
    requires i < |bs|
    ensures TableRun(bs, i, sp) > 0 <==> StartsTable(bs[i..], sp)
  {
    hide IsRow, Rows, CellsOf;
    var cols := |CellsOf(sp, bs[i].text)|;
    var n := RowRun(bs, i, sp, cols);
    RowRunRows(bs, i, sp, cols);
    if TableRun(bs, i, sp) > 0 {
      assert bs[i..][..n] == bs[i..i + n];
      assert AllRows(bs[i..][..n], sp, cols);
    }
    if StartsTable(bs[i..], sp) {
      var k: nat, w: nat :| k <= |bs[i..]| && w >= 2 && AllRows(bs[i..][..k], sp, w) && |Rows(bs[i..][..k], sp)| >= 2;
      assert bs[i..][..k] == bs[i..i + k];
      NoRows(sp);
      assert k > 0;
      RowWidth(sp, bs[i..][..k][0], w);
      assert w == cols;
      forall j | i <= j < i + k
        ensures IsRow(sp, bs[j], cols)
      {
        assert bs[j] == bs[i..][..k][j - i];
      }
      RowRunLongest(bs, i, sp, cols, k);
      assert bs[i..i + n] == bs[i..i + k] + bs[i + k..i + n];
      RowsAppend(bs[i..i + k], bs[i + k..i + n], sp);
    }
  }

  lemma RowWidth(sp: Splitter, b: Block, w: nat)
    requires IsRow(sp, b, w)
    ensures |CellsOf(sp, b.text)| == w
  {}

  lemma {:induction false} SameYRow(bs: seq<Block>, i: nat, yMid: real, lastX: real)
    requires i <= |bs|
    ensures
      var n := SameY(bs, i, yMid, lastX);
      && (forall k :: i <= k < i + n ==> IsPlain(bs[k]) && Abs(MidY(bs[k]) - yMid) <= 3.0)
      && (n > 0 ==> lastX <= bs[i].bbox.x1 + 1.0)
      && (forall k :: i < k < i + n ==> bs[k - 1].bbox.x1 <= bs[k].bbox.x1 + 1.0)
      && (i + n < |bs| ==>
            !(IsPlain(bs[i + n]) && Abs(MidY(bs[i + n]) - yMid) <= 3.0
              && (if n == 0 then lastX else bs[i + n - 1].bbox.x1) <= bs[i + n].bbox.x1 + 1.0))
    decreases |bs| - i
  {
    hide IsPlain, Abs;
    if SameY(bs, i, yMid, lastX) > 0 {
      SameYRow(bs, i + 1, yMid, bs[i].bbox.x1);
    }
  }

  lemma RowLenRow(bs: seq<Block>, i: nat)
    requires i <= |bs| && RowLen(bs, i) > 0
    ensures VisualRow(bs[i..i + RowLen(bs, i)])
  {
    hide IsPlain, SameY;
    SameYRow(bs, i + 1, MidY(bs[i]), bs[i].bbox.x1);
  }

  lemma {:induction false} SameYLongest(bs: seq<Block>, i: nat, yMid: real, lastX: real, n: nat)
    requires i + n <= |bs| && (n > 0 ==> lastX <= bs[i].bbox.x1 + 1.0)
    requires forall k :: i <= k < i + n ==> IsPlain(bs[k]) && Abs(MidY(bs[k]) - yMid) <= 3.0
    requires forall k :: i < k < i + n ==> bs[k - 1].bbox.x1 <= bs[k].bbox.x1 + 1.0
    ensures n <= SameY(bs, i, yMid, lastX)
    decreases n
  {
    hide IsPlain, Abs, MidY;
    if n > 0 {
      SameYLongest(bs, i + 1, yMid, bs[i].bbox.x1, n - 1);
    }
  }

  lemma RowLenMaximal(bs: seq<Block>, i: nat)
    requires i <= |bs| && RowLen(bs, i) > 0
    ensures MaximalRow(bs[i..], RowLen(bs, i))
  {
    RowLenRow(bs, i);
    SameYRow(bs, i + 1, MidY(bs[i]), bs[i].bbox.x1);
    var n := RowLen(bs, i);
    hide IsPlain, SameY, VisualRow, MidY, Abs;
    assert bs[i..][..n] == bs[i..i + n];
    assert n < |bs[i..]| ==> bs[i..][n] == bs[i + n];
  }

  /** Only one length makes a maximal row. */
  lemma MaximalIsRowLen(bs: seq<Block>, i: nat, n: nat)
    requires i <= |bs| && MaximalRow(bs[i..], n)
    ensures RowLen(bs, i) == n
  {
    var row := bs[i..][..n];
    assert row == bs[i..i + n];
    hide Abs, MidY;
    assert IsPlain(row[0]) && row[0] == bs[i];
    hide IsPlain;
    forall k | i + 1 <= k < i + n
      ensures IsPlain(bs[k]) && Abs(MidY(bs[k]) - MidY(bs[i])) <= 3.0 && bs[k - 1].bbox.x1 <= bs[k].bbox.x1 + 1.0
    {
      assert bs[k] == row[k - i] && bs[k - 1] == row[k - 1 - i];
    }
    SameYLongest(bs, i + 1, MidY(bs[i]), bs[i].bbox.x1, n - 1);
    SameYRow(bs, i + 1, MidY(bs[i]), bs[i].bbox.x1);
    hide SameY, VisualRow;
    assert n < |bs[i..]| ==> bs[i..][n] == bs[i + n] && row[n - 1] == bs[i + n - 1];
  }

  lemma ColumnsIff(ref: seq<Block>, row: seq<Block>)
    ensures Compatible(Centers(ref), Centers(row), 12.0) <==> InColumns(ref, row)
  {
    hide Abs, MidX;
    var a, b := Centers(ref), Centers(row);
    if |ref| == |row| {
      assert forall c :: 0 <= c < |ref| ==> a[c] == MidX(ref[c]) && b[c] == MidX(row[c]);
    }
  }

  /** The first two rows from i on, if they are rows and in columns. */
  predicate TwoRows(bs: seq<Block>, i: nat)
    requires i <= |bs|
  {
    var n := RowLen(bs, i);
    n > 0 && RowLen(bs, i + n) == n && InColumns(bs[i..i + n], bs[i + n..i + n + n])
  }

  lemma GeoRunTwoRows(bs: seq<Block>, i: nat)
    requires i <= |bs|
    ensures |GeoRun(bs, i, [])| >= 2 <==> TwoRows(bs, i)
  {
    hide RowLen, Centers, Compatible, InColumns;
    var n := RowLen(bs, i);
    if n > 0 {
      var row := bs[i..i + n];
      RowThere(bs, i);
      CentersThere(row);
      var m := RowLen(bs, i + n);
      var next := bs[i + n..i + n + m];
      ColumnsIff(row, next);
      SameWidth(row, next);
    }
  }

  lemma TwoRowsStart(bs: seq<Block>, i: nat)
    requires i <= |bs| && TwoRows(bs, i)
    ensures StartsGeo(bs[i..])
  {
    hide RowLen, MaximalRow, InColumns;
    var n := RowLen(bs, i);
    var rest := bs[i..];
    RowLenMaximal(bs, i);
    RowLenMaximal(bs, i + n);
    assert bs[i + n..] == rest[n..];
    assert bs[i..i + n] == rest[..n] && bs[i + n..i + n + n] == rest[n..][..n];
  }

  lemma StartIsTwoRows(bs: seq<Block>, i: nat)
    requires i <= |bs| && StartsGeo(bs[i..])
    ensures TwoRows(bs, i)
  {
    hide RowLen, MaximalRow, InColumns;
    var rest := bs[i..];
    var k: nat :| 2 * k <= |rest| && MaximalRow(rest, k) && MaximalRow(rest[k..], k)
        && InColumns(rest[..k], rest[k..][..k]);
    MaximalIsLong(rest, k);
    MaximalIsRowLen(bs, i, k);
    assert bs[i + k..] == rest[k..];
    MaximalIsRowLen(bs, i + k, k);
    assert bs[i..i + k] == rest[..k] && bs[i + k..i + k + k] == rest[k..][..k];
  }

  /** Aligned rows are found exactly when the rest of the page starts with two of them. */
  lemma GeoRunIff(bs: seq<Block>, i: nat)
    requires i <= |bs|
    ensures |GeoRun(bs, i, [])| >= 2 <==> StartsGeo(bs[i..])
  {
    hide GeoRun, TwoRows, StartsGeo;
    GeoRunTwoRows(bs, i);
    if TwoRows(bs, i) {
      TwoRowsStart(bs, i);
    }
    if StartsGeo(bs[i..]) {
      StartIsTwoRows(bs, i);
    }
  }

  lemma MaximalIsLong(bs: seq<Block>, n: nat)
    requires MaximalRow(bs, n)
    ensures 2 <= n <= |bs|
  {}

  lemma CentersThere(row: seq<Block>)
    requires row != []
    ensures Centers(row) != []
  {}

  lemma SameWidth(ref: seq<Block>, row: seq<Block>)
    ensures InColumns(ref, row) ==> |row| == |ref|
  {}

  /** Where a run of aligned rows ends, no further row is in the columns of the first. */
  lemma {:induction false} GeoRunEnds(bs: seq<Block>, i: nat, ref: seq<Block>)
    requires i <= |bs| && ref != []
    ensures var lens := GeoRun(bs, i, Centers(ref)); !GoesOn(ref, bs[i + Sum(lens)..])
    decreases |bs| - i
  {
    hide RowLen, Compatible, MaximalRow, InColumns;
    CentersThere(ref);
    var lens := GeoRun(bs, i, Centers(ref));
    var n := RowLen(bs, i);
    hide Centers;
    if n > 0 && Compatible(Centers(ref), Centers(bs[i..i + n]), 12.0) {
      GeoRunEnds(bs, i + n, ref);
    } else {
      var rest := bs[i + Sum(lens)..];
      assert rest == bs[i..];
      if GoesOn(ref, rest) {
        var k: nat :| k <= |rest| && MaximalRow(rest, k) && InColumns(ref, rest[..k]);
        MaximalIsRowLen(bs, i, k);
        MaximalIsLong(rest, k);
        assert rest[..k] == bs[i..i + k];
        ColumnsIff(ref, bs[i..i + k]);
      }
    }
  }

  lemma WholeMore(row: seq<Block>, rows: seq<seq<Block>>, rest: seq<Block>)
    requires MaximalRow(row + (Joined(rows) + rest), |row|) && WholeRows(rows, rest)
    ensures WholeRows([row] + rows, rest)
  {
    hide MaximalRow;
    var all := [row] + rows;
    assert all[1..] == rows;
    assert Joined(all) + rest == row + (Joined(rows) + rest);
  }

  lemma WholeStep(bs: seq<Block>, i: nat, n: nat, more: seq<nat>)
    requires i + n + Sum(more) <= |bs| && n > 0 && MaximalRow(bs[i..], n)
    requires WholeRows(GeoRows(bs, i + n, more), bs[i + n + Sum(more)..])
    ensures Sum([n] + more) == n + Sum(more)
    ensures WholeRows(GeoRows(bs, i, [n] + more), bs[i + n + Sum(more)..])
  {
    hide MaximalRow, Joined, GeoRows, Sum, WholeRows;
    GeoRowsFirst(bs, i, n, more);
    JoinedRows(bs, i + n, more);
    var row, rows, rest := bs[i..i + n], GeoRows(bs, i + n, more), bs[i + n + Sum(more)..];
    assert Joined(rows) + rest == bs[i + n..];
    assert row + bs[i + n..] == bs[i..];
    WholeMore(row, rows, rest);
  }

  lemma {:induction false} GeoRowsWhole(bs: seq<Block>, i: nat, ref: seq<real>)
    requires i <= |bs|
    ensures var lens := GeoRun(bs, i, ref); WholeRows(GeoRows(bs, i, lens), bs[i + Sum(lens)..])
    decreases |bs| - i
  {
    hide RowLen, Centers, Compatible, MaximalRow, Joined, GeoRows, WholeRows, Sum;
    var lens := GeoRun(bs, i, ref);
    NoGeoRows(bs);
    NothingWhole(bs[i..]);
    if lens != [] {
      var n := RowLen(bs, i);
      var next := if ref == [] then Centers(bs[i..i + n]) else ref;
      GeoRowsWhole(bs, i + n, next);
      RowLenMaximal(bs, i);
      WholeStep(bs, i, n, GeoRun(bs, i + n, next));
    }
  }

  lemma NothingWhole(rest: seq<Block>)
    ensures WholeRows([], rest)
  {}

  lemma {:induction false} GeoRowLengths(bs: seq<Block>, i: nat, lens: seq<nat>)
    requires i + Sum(lens) <= |bs|
    ensures forall k :: 0 <= k < |lens| ==> |GeoRows(bs, i, lens)[k]| == lens[k]
    decreases |lens|
  {
    if lens != [] {
      GeoRowLengths(bs, i + lens[0], lens[1..]);
    }
  }

  /** The first row of a run of aligned rows decides where it ends. */
  lemma GeoRunWhole(bs: seq<Block>, i: nat)
    requires i <= |bs| && GeoRun(bs, i, []) != []
    ensures
      var lens := GeoRun(bs, i, []);
      var rows := GeoRows(bs, i, lens);
      var rest := bs[i + Sum(lens)..];
      && WholeRows(rows, rest) && !GoesOn(rows[0], rest)
      && forall k :: 0 <= k < |lens| ==> |rows[k]| == lens[k]
  {
    hide RowLen, Centers, Compatible, WholeRows, GoesOn, Sum, GeoRows;
    var lens := GeoRun(bs, i, []);
    GeoRowsWhole(bs, i, []);
    GeoRowLengths(bs, i, lens);
    var n := RowLen(bs, i);
    var row := bs[i..i + n];
    var more := GeoRun(bs, i + n, Centers(row));
    assert lens == [n] + more;
    hide GeoRun;
    GeoRowsFirst(bs, i, n, more);
    RowThere(bs, i);
    GeoRunEnds(bs, i + n, row);
  }

  lemma RowThere(bs: seq<Block>, i: nat)
    requires i <= |bs| && RowLen(bs, i) > 0
    ensures bs[i..i + RowLen(bs, i)] != []
  {}

  lemma {:induction false} JoinedRows(bs: seq<Block>, i: nat, lens: seq<nat>)
    requires i + Sum(lens) <= |bs|
    ensures Joined(GeoRows(bs, i, lens)) == bs[i..i + Sum(lens)]
    decreases |lens|
  {
    if lens != [] {
      JoinedRows(bs, i + lens[0], lens[1..]);
      var rest := GeoRows(bs, i + lens[0], lens[1..]);
      assert ([bs[i..i + lens[0]]] + rest)[1..] == rest;
      var a, b, c := i, i + lens[0], i + Sum(lens);
      assert bs[a..b] + bs[b..c] == bs[a..c];
    }
  }

  lemma OnItself(ref: seq<real>)
    ensures Compatible(ref, ref, 12.0)
  {
    assert Abs(0.0) == 0.0;
  }

  predicate Fit(ref: seq<real>, rows: seq<seq<Block>>) {
    forall k :: 0 <= k < |rows| ==> VisualRow(rows[k]) && Compatible(ref, Centers(rows[k]), 12.0)
  }

  lemma FitMore(ref: seq<real>, row: seq<Block>, rows: seq<seq<Block>>)
    requires VisualRow(row) && Compatible(ref, Centers(row), 12.0) && Fit(ref, rows)
    ensures Fit(ref, [row] + rows)
  {
    hide VisualRow, Compatible, Centers;
  }

  lemma {:induction false} GeoRunRows(bs: seq<Block>, i: nat, ref: seq<real>)
    requires i <= |bs|
    ensures
      var rows := GeoRows(bs, i, GeoRun(bs, i, ref));
      Fit(if ref == [] && rows != [] then Centers(rows[0]) else ref, rows)
    decreases |bs| - i
  {
    hide RowLen, VisualRow, Centers, Compatible, GeoRows, Fit;
    var n := RowLen(bs, i);
    assert GeoRows(bs, i, []) == [] && Fit(ref, []) by { NoGeoRows(bs); FitNothing(ref); }
    if n > 0 {
      var row := bs[i..i + n];
      RowLenRow(bs, i);
      OnItself(Centers(row));
      if ref == [] || Compatible(ref, Centers(row), 12.0) {
        var next := if ref == [] then Centers(row) else ref;
        var more := GeoRun(bs, i + n, next);
        GeoRunRows(bs, i + n, next);
        GeoRowsFirst(bs, i, n, more);
        FitMore(next, row, GeoRows(bs, i + n, more));
      }
    }
  }

  lemma FitNothing(ref: seq<real>)
    ensures Fit(ref, [])
  {}

  lemma AlignedWith(ref: seq<Block>, row: seq<Block>)
    requires Compatible(Centers(ref), Centers(row), 12.0)
    ensures |row| == |ref| && forall c :: 0 <= c < |ref| ==> Abs(MidX(ref[c]) - MidX(row[c])) <= 12.0
  {
    assert |Centers(ref)| == |Centers(row)|;
    hide MidX, Abs, Compatible;
    forall c | 0 <= c < |ref|
      ensures c < |row| && Abs(MidX(ref[c]) - MidX(row[c])) <= 12.0
    {
      Apart(Centers(ref), Centers(row), c);
    }
  }

  lemma Apart(a: seq<real>, b: seq<real>, c: nat)
    requires Compatible(a, b, 12.0) && c < |a|
    ensures |a| == |b| && Abs(a[c] - b[c]) <= 12.0
  {
    hide Abs;
  }

  lemma GeoRunAligned(bs: seq<Block>, i: nat)
    requires i <= |bs| && GeoRun(bs, i, []) != []
    ensures
      var lens := GeoRun(bs, i, []);
      var rows := GeoRows(bs, i, lens);
      Joined(rows) == bs[i..i + Sum(lens)] && Aligned(rows[0], rows)
  {
    hide GeoRun, GeoRows, VisualRow, Compatible, Centers, MidX, Joined, Abs;
    var lens := GeoRun(bs, i, []);
    var rows := GeoRows(bs, i, lens);
    JoinedRows(bs, i, lens);
    GeoRunRows(bs, i, []);
    forall r | 0 <= r < |rows|
      ensures |rows[r]| == |rows[0]| && forall c :: 0 <= c < |rows[0]| ==>
        Abs(MidX(rows[0][c]) - MidX(rows[r][c])) <= 12.0
    {
      AlignedWith(rows[0], rows[r]);
    }
  }

  // Every turn of the loop takes a segment in the sense above.

  lemma CopyFound(bs: seq<Block>, i: nat)
    requires i < |bs| && SegmentAt(bs, i) == Copy
    ensures SegmentOk(Copy, [bs[i]], bs[i + 1..])
  {
    hide IsItem, StartsTable, StartsGeo, TableRun, GeoRun;
    TableRunIff(bs, i, Pipes);
    TableRunIff(bs, i, Spaces);
    RunsAreLong(bs, i, Pipes);
    RunsAreLong(bs, i, Spaces);
    GeoRunIff(bs, i);
    assert [bs[i]] + bs[i + 1..] == bs[i..];
  }

  lemma ListFound(bs: seq<Block>, i: nat, ordered: bool)
    requires i < |bs| && IsItem(ordered, bs[i])
    ensures var n := ListRun(bs, i, ordered); SegmentOk(ListSeg(ordered, n), bs[i..i + n], bs[i + n..])
  {
    hide IsItem;
    ListRunItems(bs, i, ordered);
  }

  lemma CellsFound(bs: seq<Block>, i: nat, sp: Splitter)
    requires i < |bs| && !IsItem(true, bs[i]) && !IsItem(false, bs[i]) && TableRun(bs, i, sp) >= 2
    requires sp == Spaces ==> TableRun(bs, i, Pipes) < 2
    ensures var n := TableRun(bs, i, sp); SegmentOk(CellSeg(sp, n), bs[i..i + n], bs[i + n..])
  {
    hide IsItem, IsRow, StartsTable, Rows, CellsOf;
    var cols := |CellsOf(sp, bs[i].text)|;
    var n := TableRun(bs, i, sp);
    TableRunIff(bs, i, Pipes);
    RunsAreLong(bs, i, Pipes);
    RowRunRows(bs, i, sp, cols);
    var src, rest := bs[i..i + n], bs[i + n..];
    assert src + rest == bs[i..];
    assert AllRows(src, sp, cols);
  }

  lemma {:induction false} RowsAtMost(bs: seq<Block>, sp: Splitter)
    ensures |Rows(bs, sp)| <= |bs|
  {
    hide Skipped, CellsOf;
    if bs != [] {
      RowsAtMost(bs[1..], sp);
    }
  }

  lemma RunsAreLong(bs: seq<Block>, i: nat, sp: Splitter)
    requires i < |bs|
    ensures TableRun(bs, i, sp) != 1
  {
    hide Rows, CellsOf, RowRun;
    RowsAtMost(bs[i..i + 1], sp);
  }

  lemma GeoSegmentOk(lens: seq<nat>, src: seq<Block>, rest: seq<Block>, rows: seq<seq<Block>>)
    requires |src| >= 1 && !IsItem(true, src[0]) && !IsItem(false, src[0])
    requires !StartsTable(src + rest, Pipes) && !StartsTable(src + rest, Spaces)
    requires |rows| == |lens| >= 2 && forall k :: 0 <= k < |rows| ==> |rows[k]| == lens[k]
    requires Joined(rows) == src && Aligned(rows[0], rows) && WholeRows(rows, rest) && !GoesOn(rows[0], rest)
    ensures SegmentOk(GeoSeg(lens), src, rest)
  {
    hide IsItem, StartsTable, Joined, Aligned, WholeRows, GoesOn;
  }

  lemma GeoFound(bs: seq<Block>, i: nat)
    requires i < |bs| && !IsItem(true, bs[i]) && !IsItem(false, bs[i])
    requires TableRun(bs, i, Pipes) < 2 && TableRun(bs, i, Spaces) < 2 && |GeoRun(bs, i, [])| >= 2
    ensures
      var lens := GeoRun(bs, i, []);
      SegmentOk(GeoSeg(lens), bs[i..i + Sum(lens)], bs[i + Sum(lens)..])
  {
    hide IsItem, StartsTable, TableRun, GeoRun, GeoRows, Joined, Aligned, WholeRows, GoesOn, SegmentOk, Sum;
    var lens := GeoRun(bs, i, []);
    GeoRunWhole(bs, i);
    TableRunIff(bs, i, Pipes);
    TableRunIff(bs, i, Spaces);
    RunsAreLong(bs, i, Pipes);
    RunsAreLong(bs, i, Spaces);
    GeoRunAligned(bs, i);
    SumAtLeast(lens);
    var src, rest := bs[i..i + Sum(lens)], bs[i + Sum(lens)..];
    assert src + rest == bs[i..];
    GeoSegmentOk(lens, src, rest, GeoRows(bs, i, lens));
  }

  lemma SegmentFound(bs: seq<Block>, i: nat)
    requires i < |bs|
    ensures
      var s := SegmentAt(bs, i);
      SegmentOk(s, bs[i..i + Len(s)], bs[i + Len(s)..])
  {
    hide SegmentOk, IsItem, TableRun, GeoRun;
    match SegmentAt(bs, i)
    case Copy =>
      CopyFound(bs, i);
      assert bs[i..i + 1] == [bs[i]];
    case ListSeg(ordered, n) => ListFound(bs, i, ordered);
    case CellSeg(sp, n) => CellsFound(bs, i, sp);
    case GeoSeg(lens) => GeoFound(bs, i);
  }

  // ---------- the whole page ----------

  function Segments(bs: seq<Block>, i: nat): seq<Segment>
    requires i <= |bs|
    decreases |bs| - i
  {
    if i == |bs| then [] else [SegmentAt(bs, i)] + Segments(bs, i + Len(SegmentAt(bs, i)))
  }

  function Span(segs: seq<Segment>): nat {
    if segs == [] then 0 else Len(segs[0]) + Span(segs[1..])
  }

  /** The k-th segment starts where the first k end; it is taken there, is a segment
      in the sense above, and becomes the k-th block. */
  ghost predicate Cut(page: int, bs: seq<Block>, i: nat, idx: nat, segs: seq<Segment>, out: seq<Block>, k: nat)
    requires k < |segs| == |out|
  {
    var at := i + Span(segs[..k]);
    && at < |bs| && segs[k] == SegmentAt(bs, at) && 1 <= Len(segs[k]) <= |bs| - at
    && SegmentOk(segs[k], bs[at..at + Len(segs[k])], bs[at + Len(segs[k])..])
    && out[k] == Built(page, idx + k, bs, at, segs[k])
  }

  lemma CutFirst(page: int, bs: seq<Block>, i: nat, idx: nat, more: seq<Segment>, rest: seq<Block>)
    requires i < |bs| && |more| == |rest|
    ensures
      var s := SegmentAt(bs, i);
      Cut(page, bs, i, idx, [s] + more, [Built(page, idx, bs, i, s)] + rest, 0)
  {
    hide SegmentAt, SegmentOk, Built, Len;
    SegmentFound(bs, i);
    SegmentFits(bs, i);
  }

  lemma CutLater(page: int, bs: seq<Block>, i: nat, idx: nat, s: Segment, more: seq<Segment>, b: Block,
                 rest: seq<Block>, k: nat)
    requires k < |more| == |rest| && Cut(page, bs, i + Len(s), idx + 1, more, rest, k)
    ensures Cut(page, bs, i, idx, [s] + more, [b] + rest, k + 1)
  {
    hide SegmentAt, SegmentOk, Built, Len;
    var all := [s] + more;
    assert all[..k + 1][0] == s && all[..k + 1][1..] == more[..k];
    assert all[k + 1] == more[k] && ([b] + rest)[k + 1] == rest[k];
  }

  lemma {:induction false} SegmentsCut(page: int, bs: seq<Block>, i: nat, idx: nat)
    requires i <= |bs|
    ensures |Segments(bs, i)| == |Rebuilt(page, bs, i, idx)|
    ensures i + Span(Segments(bs, i)) == |bs|
    ensures forall k :: 0 <= k < |Segments(bs, i)| ==>
      Cut(page, bs, i, idx, Segments(bs, i), Rebuilt(page, bs, i, idx), k)
    decreases |bs| - i
  {
    hide SegmentAt, SegmentOk, Built, Len, Cut;
    if i < |bs| {
      var s := SegmentAt(bs, i);
      SegmentFits(bs, i);
      var j := i + Len(s);
      SegmentsCut(page, bs, j, idx + 1);
      var more, rest := Segments(bs, j), Rebuilt(page, bs, j, idx + 1);
      SpanFirst(s, more);
      CutFirst(page, bs, i, idx, more, rest);
      var segs, out := Segments(bs, i), Rebuilt(page, bs, i, idx);
      hide Segments, Rebuilt, Span;
      forall k | 0 <= k < |segs|
        ensures Cut(page, bs, i, idx, segs, out, k)
      {
        if k > 0 {
          CutLater(page, bs, i, idx, s, more, out[0], rest, k - 1);
        }
      }
    }
  }

  lemma SpanFirst(s: Segment, more: seq<Segment>)
    ensures Span([s] + more) == Len(s) + Span(more)
  {
    hide Len;
    assert ([s] + more)[1..] == more;
  }

  lemma SegmentFits(bs: seq<Block>, i: nat)
    requires i < |bs|
    ensures 1 <= Len(SegmentAt(bs, i)) <= |bs| - i
  {}

  /** The page is cut into consecutive non-empty segments that cover it exactly once
      and in order; each becomes one block of the result. */
  lemma PageIsSegmented(page: int, bs: seq<Block>)
    ensures
      var segs := Segments(bs, 0);
      var out := Reconstructed(page, bs);
      && |segs| == |out| && Span(segs) == |bs|
      && forall k :: 0 <= k < |segs| ==> Cut(page, bs, 0, 1, segs, out, k)
  {
    SegmentsCut(page, bs, 0, 1);
  }

  // ---------- what the built blocks are ----------

  /** A table of at least two rows, all of one width of at least two. */
  predicate Rectangular(t: Block) {
    && t.typ == Table && |t.children| >= 2
    && |t.children[0].children| >= 2
    && forall r :: 0 <= r < |t.children| ==>
         t.children[r].typ == TableRow && |t.children[r].children| == |t.children[0].children|
         && forall c :: 0 <= c < |t.children[r].children| ==>
              t.children[r].children[c].typ == TableCell && t.children[r].children[c].children == []
  }

  /** The texts of a table, row by row. */
  function TextsOf(t: Block): seq<seq<string>> {
    seq(|t.children|, r requires 0 <= r < |t.children| => RowTexts(t.children[r]))
  }

  function RowTexts(row: Block): seq<string> {
    seq(|row.children|, c requires 0 <= c < |row.children| => row.children[c].text)
  }

  lemma {:induction false} RowsWide(bs: seq<Block>, sp: Splitter, cols: nat)
    requires AllRows(bs, sp, cols)
    ensures forall k :: 0 <= k < |Rows(bs, sp)| ==> |Rows(bs, sp)[k]| == cols
  {
    hide CellsOf, Skipped, IsPlain;
    if bs != [] {
      RowsWide(bs[1..], sp, cols);
    }
  }

  lemma TextTableIs(page: int, idx: nat, rows: seq<seq<string>>, cols: nat)
    requires |rows| >= 2 && cols >= 2 && forall k :: 0 <= k < |rows| ==> |rows[k]| == cols
    ensures Rectangular(TextTable(page, idx, rows)) && TextsOf(TextTable(page, idx, rows)) == rows
  {
    hide RowId, CellId;
    var t := TextTable(page, idx, rows);
    forall r | 0 <= r < |rows|
      ensures RowTexts(t.children[r]) == rows[r]
    {
      assert t.children[r] == TextRow(page, idx, r + 1, rows[r]);
    }
  }

  lemma GeoTableIs(page: int, idx: nat, rows: seq<seq<Block>>, cols: nat)
    requires |rows| >= 2 && cols >= 2 && forall k :: 0 <= k < |rows| ==> |rows[k]| == cols
    ensures Rectangular(GeoTable(page, idx, rows))
    ensures forall r, c :: 0 <= r < |rows| && 0 <= c < cols ==>
              var cell := GeoTable(page, idx, rows).children[r].children[c];
              cell.text == rows[r][c].text && cell.bbox == rows[r][c].bbox
  {
    hide RowId, CellId, UnionBox, MinConf;
  }

  lemma CellsRectangular(page: int, idx: nat, bs: seq<Block>, i: nat, sp: Splitter)
    requires i < |bs| && TableRun(bs, i, sp) >= 2
    ensures
      var rows := Rows(bs[i..i + TableRun(bs, i, sp)], sp);
      Rectangular(TextTable(page, idx, rows)) && TextsOf(TextTable(page, idx, rows)) == rows
  {
    hide IsRow, Rectangular, TextsOf, TextTable, Rows, CellsOf;
    var cols := |CellsOf(sp, bs[i].text)|;
    var n := TableRun(bs, i, sp);
    RowRunRows(bs, i, sp, cols);
    assert AllRows(bs[i..i + n], sp, cols);
    RowsWide(bs[i..i + n], sp, cols);
    TextTableIs(page, idx, Rows(bs[i..i + n], sp), cols);
  }

  lemma GeoRectangular(page: int, idx: nat, bs: seq<Block>, i: nat)
    requires i < |bs| && |GeoRun(bs, i, [])| >= 2
    ensures Rectangular(GeoTable(page, idx, GeoRows(bs, i, GeoRun(bs, i, []))))
  {
    hide Rectangular, GeoTable, GeoRun, Aligned, Joined;
    var rows := GeoRows(bs, i, GeoRun(bs, i, []));
    hide GeoRows;
    GeoRunAligned(bs, i);
    AlignedWidths(rows);
    GeoTableIs(page, idx, rows, |rows[0]|);
  }

  /** Tables made by the layout stage have at least two rows, all of one width of at
      least two; between pipes or wide gaps, their texts are the cells of the lines. */
  lemma LayoutTablesRectangular(page: int, idx: nat, bs: seq<Block>, i: nat)
    requires i < |bs| && (SegmentAt(bs, i).CellSeg? || SegmentAt(bs, i).GeoSeg?)
    ensures Rectangular(Built(page, idx, bs, i, SegmentAt(bs, i)))
    ensures
      SegmentAt(bs, i).CellSeg? ==>
        TextsOf(Built(page, idx, bs, i, SegmentAt(bs, i)))
          == Rows(bs[i..i + SegmentAt(bs, i).n], SegmentAt(bs, i).sp)
  {
    hide IsItem, IsPlain, GeoRun, TableRun, Rectangular, TextsOf, TextTable, GeoTable, Rows, GeoRows, Sum;
    match SegmentAt(bs, i)
    case CellSeg(sp, n) => CellsRectangular(page, idx, bs, i, sp);
    case GeoSeg(lens) => GeoRectangular(page, idx, bs, i);
    case _ =>
  }

  lemma AlignedWidths(rows: seq<seq<Block>>)
    requires rows != [] && Aligned(rows[0], rows)
    ensures |rows[0]| >= 2 && forall k :: 0 <= k < |rows| ==> |rows[k]| == |rows[0]|
  {
    assert VisualRow(rows[0]);
  }

  // ---------- nothing else is dropped ----------

  /** The text of a forest of blocks, white space and pipes apart. */
  function InkOf(bs: seq<Block>): string {
    if bs == [] then [] else Ink(bs[0].text) + InkOf(bs[0].children) + InkOf(bs[1..])
  }

  /** The text of the source blocks that a segment keeps. */
  function KeptInk(s: Segment, src: seq<Block>): string
    requires s.ListSeg? ==> AllItems(src, s.ordered)
    decreases |src|
  {
    if src == [] then []
    else
      (match s
       case ListSeg(ordered, _) => Ink(ListBody(ordered, src[0].text).value)
       case CellSeg(sp, _) => if Skipped(sp, src[0]) then [] else Ink(src[0].text)
       case _ => Ink(src[0].text) + InkOf(src[0].children)) + KeptInk(s, src[1..])
  }

  lemma InkOfFirst(b: Block, rest: seq<Block>)
    ensures InkOf([b] + rest) == Ink(b.text) + InkOf(b.children) + InkOf(rest)
  {
    hide Ink;
    assert ([b] + rest)[1..] == rest;
  }

  lemma {:induction false} InkOfAppend(a: seq<Block>, b: seq<Block>)
    ensures InkOf(a + b) == InkOf(a) + InkOf(b)
  {
    hide Ink, InkOf;
    if a == [] {
      InkOfNothing();
      assert a + b == b;
    } else {
      InkOfAppend(a[1..], b);
      InkOfFirst(a[0], a[1..]);
      InkOfFirst(a[0], a[1..] + b);
      assert a == [a[0]] + a[1..] && a + b == [a[0]] + (a[1..] + b);
      var x, y, z := Ink(a[0].text) + InkOf(a[0].children), InkOf(a[1..]), InkOf(b);
      assert x + (y + z) == (x + y) + z;
    }
  }

  lemma InkOfNothing()
    ensures InkOf([]) == []
  {}

  lemma {:induction false} InkOfItems(src: seq<Block>, ordered: bool, n: nat)
    requires AllItems(src, ordered)
    ensures InkOf(Items(src, ordered)) == KeptInk(ListSeg(ordered, n), src)
    decreases |src|
  {
    hide Ink, IsItem, ListBody, TrimSpace;
    if src != [] {
      InkOfItems(src[1..], ordered, n);
      InkOfItem(src[0], ordered);
      assert Items(src, ordered)[1..] == Items(src[1..], ordered);
    }
  }

  lemma InkOfItem(b: Block, ordered: bool)
    requires IsItem(ordered, b)
    ensures Ink(Item(b, ordered).text) == Ink(ListBody(ordered, b.text).value) && InkOf(Item(b, ordered).children) == []
  {
    InkTrim(ListBody(ordered, b.text).value);
  }

  lemma {:induction false} InkOfLeaves(bs: seq<Block>, texts: seq<string>)
    requires |bs| == |texts| && forall k :: 0 <= k < |bs| ==> bs[k].text == texts[k] && bs[k].children == []
    ensures InkOf(bs) == InkAll(texts)
    decreases |bs|
  {
    hide Ink;
    if bs != [] {
      InkOfLeaves(bs[1..], texts[1..]);
      assert InkOf([]) == [];
    }
  }

  function InkRows(rows: seq<seq<string>>): string {
    if rows == [] then [] else InkAll(rows[0]) + InkRows(rows[1..])
  }

  /** A row block that holds these texts and nothing of its own. */
  predicate HoldsTexts(row: Block, texts: seq<string>) {
    && row.text == "" && |row.children| == |texts|
    && forall c :: 0 <= c < |texts| ==> row.children[c].text == texts[c] && row.children[c].children == []
  }

  lemma InkOfRow(row: Block, texts: seq<string>)
    requires HoldsTexts(row, texts)
    ensures Ink(row.text) + InkOf(row.children) == InkAll(texts)
  {
    InkOfLeaves(row.children, texts);
    assert Ink("") == [];
  }

  lemma {:induction false} InkOfTextRows(rs: seq<Block>, rows: seq<seq<string>>)
    requires |rs| == |rows| && forall k :: 0 <= k < |rs| ==> HoldsTexts(rs[k], rows[k])
    ensures InkOf(rs) == InkRows(rows)
    decreases |rs|
  {
    hide InkAll, Ink, HoldsTexts;
    if rs != [] {
      InkOfTextRows(rs[1..], rows[1..]);
      InkOfRow(rs[0], rows[0]);
    }
  }

  lemma InkRowsFirst(row: seq<string>, rows: seq<seq<string>>)
    ensures InkRows([row] + rows) == InkAll(row) + InkRows(rows)
  {
    assert ([row] + rows)[1..] == rows;
  }

  lemma RowInk(b: Block, sp: Splitter, cols: nat)
    requires IsRow(sp, b, cols) && cols >= 2
    ensures InkAll(CellsOf(sp, b.text)) == Ink(b.text)
  {
    hide Ink, InkAll, PipeCells, SpaceCells, IsPlain;
    if sp == Pipes {
      PipeCellsKeepInk(b.text);
    } else {
      SpaceCellsKeepInk(b.text);
    }
  }

  lemma {:induction false} InkOfRows(src: seq<Block>, sp: Splitter, n: nat, cols: nat)
    requires AllRows(src, sp, cols) && cols >= 2
    ensures InkRows(Rows(src, sp)) == KeptInk(CellSeg(sp, n), src)
    decreases |src|
  {
    hide Ink, InkAll, Skipped, CellsOf, IsRow;
    if src != [] {
      InkOfRows(src[1..], sp, n, cols);
      RowInk(src[0], sp, cols);
      InkRowsFirst(CellsOf(sp, src[0].text), Rows(src[1..], sp));
      assert [] + Rows(src[1..], sp) == Rows(src[1..], sp);
      assert [] + KeptInk(CellSeg(sp, n), src[1..]) == KeptInk(CellSeg(sp, n), src[1..]);
    }
  }

  lemma InkOfOne(b: Block)
    ensures InkOf([b]) == Ink(b.text) + InkOf(b.children)
  {
    assert [b][1..] == [] && InkOf([]) == [];
  }

  lemma TextTableInk(page: int, idx: nat, rows: seq<seq<string>>)
    ensures InkOf([TextTable(page, idx, rows)]) == InkRows(rows)
  {
    hide RowId, CellId, TableId;
    var t := TextTable(page, idx, rows);
    forall k | 0 <= k < |rows|
      ensures HoldsTexts(t.children[k], rows[k])
    {
      assert t.children[k] == TextRow(page, idx, k + 1, rows[k]);
    }
    InkOfTextRows(t.children, rows);
    InkOfOne(t);
    assert Ink("") == [];
  }

  lemma InkOfGeoRow(page: int, idx: nat, r: nat, row: seq<Block>)
    requires Leafy(row)
    ensures Ink(GeoRow(page, idx, r, row).text) + InkOf(GeoRow(page, idx, r, row).children) == InkOf(row)
  {
    hide Ink, RowId, CellId, UnionBox, MinConf, InkOf;
    InkOfGeoCells(GeoCells(page, idx, r, row), row);
    EmptyInk();
    assert [] + InkOf(row) == InkOf(row);
  }

  predicate Leafy(row: seq<Block>) {
    forall c :: 0 <= c < |row| ==> row[c].children == []
  }

  lemma {:induction false} InkOfGeoRows(page: int, idx: nat, from: nat, rs: seq<Block>, rows: seq<seq<Block>>)
    requires |rs| == |rows| && forall k :: 0 <= k < |rs| ==> rs[k] == GeoRow(page, idx, from + k, rows[k])
    requires forall k :: 0 <= k < |rows| ==> Leafy(rows[k])
    ensures InkOf(rs) == InkOf(Joined(rows))
    decreases |rs|
  {
    hide Ink, GeoRow, Leafy;
    if rs != [] {
      assert forall k :: 0 <= k < |rs[1..]| ==> rs[1..][k] == GeoRow(page, idx, from + 1 + k, rows[1..][k]);
      InkOfGeoRows(page, idx, from + 1, rs[1..], rows[1..]);
      InkOfGeoRow(page, idx, from, rows[0]);
      assert InkOf(rs) == Ink(rs[0].text) + InkOf(rs[0].children) + InkOf(rs[1..]);
      assert Joined(rows) == rows[0] + Joined(rows[1..]);
      hide InkOf, Joined;
      InkOfAppend(rows[0], Joined(rows[1..]));
    }
  }

  lemma EmptyInk()
    ensures Ink("") == []
  {}

  lemma {:induction false} InkOfGeoCells(cells: seq<Block>, row: seq<Block>)
    requires |cells| == |row|
    requires forall c :: 0 <= c < |row| ==>
      cells[c].text == row[c].text && cells[c].children == [] && row[c].children == []
    ensures InkOf(cells) == InkOf(row)
    decreases |cells|
  {
    hide Ink;
    if cells != [] {
      InkOfGeoCells(cells[1..], row[1..]);
    }
  }

  lemma GeoTableParts(page: int, idx: nat, rows: seq<seq<Block>>)
    ensures GeoTable(page, idx, rows).text == "" && GeoTable(page, idx, rows).children == GeoRowBlocks(page, idx, rows)
  {
    hide GeoRowBlocks, UnionBox, MinConf, AllCells, TableId;
  }

  lemma GeoTableInk(page: int, idx: nat, rows: seq<seq<Block>>)
    requires forall k :: 0 <= k < |rows| ==> Leafy(rows[k])
    ensures InkOf([GeoTable(page, idx, rows)]) == InkOf(Joined(rows))
  {
    hide GeoTable, GeoRow, Joined, Ink, Leafy, InkOf;
    var t := GeoTable(page, idx, rows);
    GeoTableParts(page, idx, rows);
    InkOfGeoRows(page, idx, 1, t.children, rows);
    InkOfOne(t);
    EmptyInk();
    assert [] + InkOf(t.children) == InkOf(t.children);
  }

  lemma {:induction false} KeptIsAll(s: Segment, src: seq<Block>)
    requires s.Copy? || s.GeoSeg?
    ensures KeptInk(s, src) == InkOf(src)
    decreases |src|
  {
    hide Ink;
    if src != [] {
      KeptIsAll(s, src[1..]);
    }
  }

  lemma ListInk(page: int, idx: nat, items: seq<Block>, ordered: bool)
    ensures InkOf([ListBlock(page, idx, items, ordered)]) == InkOf(items)
  {
    hide Ink, ListId, UnionBox, MinConf;
    InkOfOne(ListBlock(page, idx, items, ordered));
    EmptyInk();
  }

  lemma AlignedPlain(rows: seq<seq<Block>>)
    requires rows != [] && Aligned(rows[0], rows)
    ensures forall k :: 0 <= k < |rows| ==> Leafy(rows[k])
  {
    hide Abs, MidX, MidY;
    forall k | 0 <= k < |rows|
      ensures Leafy(rows[k])
    {
      assert VisualRow(rows[k]);
    }
  }

  lemma ItemsInk(page: int, idx: nat, bs: seq<Block>, i: nat, ordered: bool)
    requires i < |bs|
    ensures
      var n := ListRun(bs, i, ordered);
      var src := bs[i..i + n];
      AllItems(src, ordered)
      && InkOf([ListBlock(page, idx, Items(src, ordered), ordered)]) == KeptInk(ListSeg(ordered, n), src)
  {
    hide IsItem, ListBlock, InkOf, KeptInk, Item, ListRun;
    var n := ListRun(bs, i, ordered);
    var src := bs[i..i + n];
    ListRunItems(bs, i, ordered);
    InkOfItems(src, ordered, n);
    ListInk(page, idx, Items(src, ordered), ordered);
  }

  lemma AlignedInk(page: int, idx: nat, bs: seq<Block>, i: nat)
    requires i < |bs| && |GeoRun(bs, i, [])| >= 2
    ensures
      var lens := GeoRun(bs, i, []);
      InkOf([GeoTable(page, idx, GeoRows(bs, i, lens))]) == KeptInk(GeoSeg(lens), bs[i..i + Sum(lens)])
  {
    hide GeoTable, GeoRows, GeoRun, InkOf, KeptInk, Aligned, Joined;
    var lens := GeoRun(bs, i, []);
    GeoRunAligned(bs, i);
    AlignedPlain(GeoRows(bs, i, lens));
    GeoTableInk(page, idx, GeoRows(bs, i, lens));
    KeptIsAll(GeoSeg(lens), bs[i..i + Sum(lens)]);
  }

  lemma SegmentCases(bs: seq<Block>, i: nat)
    requires i < |bs|
    ensures var s := SegmentAt(bs, i); s.ListSeg? ==> s.n == ListRun(bs, i, s.ordered)
    ensures var s := SegmentAt(bs, i); s.CellSeg? ==> s.n == TableRun(bs, i, s.sp) >= 2
    ensures var s := SegmentAt(bs, i); s.GeoSeg? ==> s.lens == GeoRun(bs, i, []) && |s.lens| >= 2
  {
    hide IsItem, IsPlain, ListRun, TableRun, GeoRun;
  }

  ghost predicate SaysTheSame(page: int, idx: nat, bs: seq<Block>, i: nat)
    requires i < |bs|
  {
    var s := SegmentAt(bs, i);
    var src := bs[i..i + Len(s)];
    && (s.ListSeg? ==> AllItems(src, s.ordered))
    && InkOf([Built(page, idx, bs, i, s)]) == KeptInk(s, src)
  }

  lemma CopySays(page: int, idx: nat, bs: seq<Block>, i: nat)
    requires i < |bs| && SegmentAt(bs, i).Copy?
    ensures SaysTheSame(page, idx, bs, i)
  {
    hide SegmentAt, IsItem, IsPlain, ListRun, TableRun, GeoRun, Rows, GeoRows, Items, Sum, InkOf, KeptInk, AllItems;
    hide ListBlock, TextTable, GeoTable;
    assert bs[i..i + 1] == [bs[i]];
    KeptIsAll(Copy, [bs[i]]);
  }

  lemma ListSays(page: int, idx: nat, bs: seq<Block>, i: nat)
    requires i < |bs| && SegmentAt(bs, i).ListSeg?
    ensures SaysTheSame(page, idx, bs, i)
  {
    hide SegmentAt, IsItem, IsPlain, ListRun, TableRun, GeoRun, Rows, GeoRows, Items, Sum, InkOf, KeptInk, AllItems;
    hide ListBlock, TextTable, GeoTable;
    SegmentCases(bs, i);
    ItemsInk(page, idx, bs, i, SegmentAt(bs, i).ordered);
  }

  lemma CellsSay(page: int, idx: nat, bs: seq<Block>, i: nat)
    requires i < |bs| && SegmentAt(bs, i).CellSeg?
    ensures SaysTheSame(page, idx, bs, i)
  {
    hide SegmentAt, IsItem, IsPlain, ListRun, TableRun, GeoRun, Rows, GeoRows, Items, Sum, InkOf, KeptInk, AllItems;
    hide ListBlock, TextTable, GeoTable;
    SegmentCases(bs, i);
    CellInk(page, idx, bs, i, SegmentAt(bs, i).sp);
  }

  lemma GeoSays(page: int, idx: nat, bs: seq<Block>, i: nat)
    requires i < |bs| && SegmentAt(bs, i).GeoSeg?
    ensures SaysTheSame(page, idx, bs, i)
  {
    hide SegmentAt, IsItem, IsPlain, ListRun, TableRun, GeoRun, Rows, GeoRows, Items, Sum, InkOf, KeptInk, AllItems;
    hide ListBlock, TextTable, GeoTable;
    SegmentCases(bs, i);
    AlignedInk(page, idx, bs, i);
  }

  /** The block a segment turns into says what its sources say, list markers, cell
      separators and separator lines apart. */
  lemma SegmentKeepsInk(page: int, idx: nat, bs: seq<Block>, i: nat)
    requires i < |bs|
    ensures SaysTheSame(page, idx, bs, i)
  {
    hide SegmentAt, SaysTheSame;
    match SegmentAt(bs, i)
    case Copy => CopySays(page, idx, bs, i);
    case ListSeg(_, _) => ListSays(page, idx, bs, i);
    case CellSeg(_, _) => CellsSay(page, idx, bs, i);
    case GeoSeg(_) => GeoSays(page, idx, bs, i);
  }

  lemma CellInk(page: int, idx: nat, bs: seq<Block>, i: nat, sp: Splitter)
    requires i < |bs| && TableRun(bs, i, sp) >= 2
    ensures
      var n := TableRun(bs, i, sp);
      var src := bs[i..i + n];
      InkOf([TextTable(page, idx, Rows(src, sp))]) == KeptInk(CellSeg(sp, n), src)
  {
    hide IsRow, TextTable, Rows, CellsOf, InkOf, KeptInk;
    var cols := |CellsOf(sp, bs[i].text)|;
    var n := TableRun(bs, i, sp);
    var src := bs[i..i + n];
    RowRunRows(bs, i, sp, cols);
    assert AllRows(src, sp, cols);
    InkOfRows(src, sp, n, cols);
    TextTableInk(page, idx, Rows(src, sp));
  }

  /** The characters of a separator line are rules, cell separators and white space. */
  lemma SkippedIsRule(b: Block)
    requires Skipped(Pipes, b) && PipeCells(b.text) != []
    ensures forall c :: c in Ink(b.text) ==> c == '-' || c == ':'
  {
    PipeCellsKeepInk(b.text);
    InkOfRules(PipeCells(b.text));
  }

  lemma {:induction false} InkOfRules(cells: seq<string>)
    requires IsSeparator(cells)
    ensures forall c :: c in InkAll(cells) ==> c == '-' || c == ':'
  {
    if cells != [] {
      InkOfRules(cells[1..]);
      InkTrim(cells[0]);
      InkOnlyFrom(TrimSpace(cells[0]));
    }
  }

  lemma {:induction false} InkOnlyFrom(s: string)
    requires forall i :: 0 <= i < |s| ==> s[i] == '-' || s[i] == ':' || s[i] == ' '
    ensures forall c :: c in Ink(s) ==> c == '-' || c == ':'
  {
    if s != [] {
      InkOnlyFrom(s[1..]);
    }
  }

  /** The kept text of all segments, in order. */
  function Essence(bs: seq<Block>, i: nat): string
    requires i <= |bs|
    decreases |bs| - i
  {
    if i == |bs| then []
    else
      var s := SegmentAt(bs, i);
      var src := bs[i..i + Len(s)];
      (if s.ListSeg? && !AllItems(src, s.ordered) then [] else KeptInk(s, src)) + Essence(bs, i + Len(s))
  }

  /** Over a whole page, the text of the result is the kept text of the source. */
  lemma {:induction false} PageKeepsInk(page: int, bs: seq<Block>, i: nat, idx: nat)
    requires i <= |bs|
    ensures InkOf(Rebuilt(page, bs, i, idx)) == Essence(bs, i)
    decreases |bs| - i
  {
    hide SegmentAt, Built, KeptInk, AllItems, Len;
    if i < |bs| {
      var s := SegmentAt(bs, i);
      SegmentFits(bs, i);
      SegmentKeepsInk(page, idx, bs, i);
      PageKeepsInk(page, bs, i + Len(s), idx + 1);
      InkOfAppend([Built(page, idx, bs, i, s)], Rebuilt(page, bs, i + Len(s), idx + 1));
    }
  }
}
