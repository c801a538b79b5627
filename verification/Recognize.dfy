/** The four recognisers of the layout stage: what counts as a list marker, as a
    row of cells, as a row of aligned blocks. */
module Recognize {
  import opened Domain
  import opened Text
  import opened Cdom

  // ---------- list markers: ^[-*•◦●]\s+(.*)$ and ^\(?\d+[).]\s+(.*)$ ----------

  predicate IsBullet(c: char) {
    c == '-' || c == '*' || c == '\U{2022}' || c == '\U{25E6}' || c == '\U{25CF}'
  }

  function DropRegexSpace(t: string): (r: string)
    ensures |r| <= |t|
  {
    if t != [] && IsRegexSpace(t[0]) then DropRegexSpace(t[1..]) else t
  }

  function DropDigits(t: string): (r: string)
    ensures |r| <= |t|
  {
    if t != [] && IsDigit(t[0]) then DropDigits(t[1..]) else t
  }

  /** \s+(.*)$: the dot does not match a newline. */
  function AfterSpaces(t: string): Option<string> {
    if t == [] || !IsRegexSpace(t[0]) then None
    else if '\n' in DropRegexSpace(t) then None
    else Some(DropRegexSpace(t))
  }

  function BulletBody(t: string): Option<string> {
    if t != [] && IsBullet(t[0]) then AfterSpaces(t[1..]) else None
  }

  function OrderedBody(t: string): Option<string> {
    var u := if t != [] && t[0] == '(' then t[1..] else t;
    var v := DropDigits(u);
    if |v| < |u| && v != [] && (v[0] == ')' || v[0] == '.') then AfterSpaces(v[1..]) else None
  }

  function ListBody(ordered: bool, text: string): Option<string> {
    var t := TrimSpace(text);
    if ordered then OrderedBody(t) else BulletBody(t)
  }

  predicate IsItem(ordered: bool, b: Block) {
    IsPlain(b) && ListBody(ordered, b.text).Some?
  }

  lemma {:induction false} SpacesDropped(t: string) returns (s: string)
    ensures t == s + DropRegexSpace(t) && AllSpace(s)
  {
    s := [];
    if t != [] && IsRegexSpace(t[0]) {
      s := SpacesDropped(t[1..]);
      s := [t[0]] + s;
    }
  }

  lemma {:induction false} DigitsDropped(t: string) returns (s: string)
    ensures t == s + DropDigits(t) && forall i :: 0 <= i < |s| ==> IsDigit(s[i])
  {
    s := [];
    if t != [] && IsDigit(t[0]) {
      s := DigitsDropped(t[1..]);
      s := [t[0]] + s;
    }
  }

  /** What precedes the white space before the body of a list item. */
  predicate IsMarker(ordered: bool, m: string) {
    if !ordered then |m| == 1 && IsBullet(m[0])
    else
      var d := if m != [] && m[0] == '(' then m[1..] else m;
      && |d| >= 2 && (d[|d| - 1] == ')' || d[|d| - 1] == '.')
      && forall i :: 0 <= i < |d| - 1 ==> IsDigit(d[i])
  }

  lemma BulletSplits(t: string) returns (marker: string, gap: string)
    requires BulletBody(t).Some?
    ensures t == marker + gap + BulletBody(t).value && IsMarker(false, marker) && AllSpace(gap) && gap != []
  {
    gap := SpacesDropped(t[1..]);
    marker := [t[0]];
    assert t == marker + t[1..];
  }

  lemma OrderedSplits(t: string) returns (open: string, digits: string, close: string, gap: string)
    requires OrderedBody(t).Some?
    ensures t == open + digits + close + gap + OrderedBody(t).value
    ensures (open == [] || open == "(") && (close == ")" || close == ".") && AllSpace(gap) && gap != []
    ensures digits != [] && forall i :: 0 <= i < |digits| ==> IsDigit(digits[i])
  {
    open := if t != [] && t[0] == '(' then "(" else [];
    var u := t[|open|..];
    assert t == open + u;
    digits := DigitsDropped(u);
    var v := DropDigits(u);
    assert OrderedBody(t) == Some(DropRegexSpace(v[1..])) && (v[0] == ')' || v[0] == '.');
    close := [v[0]];
    gap := SpacesDropped(v[1..]);
    hide OrderedBody, DropDigits, DropRegexSpace, AllSpace;
    assert v == close + v[1..];
    Flat(open, digits, close, gap, DropRegexSpace(v[1..]));
  }

  lemma Flat(a: string, b: string, c: string, d: string, e: string)
    ensures a + (b + (c + (d + e))) == a + b + c + d + e
  {}

  lemma OrderedMarker(open: string, digits: string, close: string)
    requires (open == [] || open == "(") && (close == ")" || close == ".")
    requires digits != [] && forall i :: 0 <= i < |digits| ==> IsDigit(digits[i])
    ensures IsMarker(true, open + digits + close)
  {
    var m := open + digits + close;
    assert m[0] == if open == [] then digits[0] else '(';
    assert (if m[0] == '(' then m[1..] else m) == digits + close;
  }

  /** A list item is its marker, white space and its body: nothing else is dropped. */
  lemma ItemSplits(ordered: bool, text: string) returns (marker: string, gap: string)
    requires ListBody(ordered, text).Some?
    ensures TrimSpace(text) == marker + gap + ListBody(ordered, text).value
    ensures IsMarker(ordered, marker) && AllSpace(gap) && gap != []
  {
    hide TrimSpace, OrderedBody, BulletBody;
    if ordered {
      var open, digits, close;
      open, digits, close, gap := OrderedSplits(TrimSpace(text));
      OrderedMarker(open, digits, close);
      marker := open + digits + close;
    } else {
      marker, gap := BulletSplits(TrimSpace(text));
    }
  }

  // ---------- exactly the lines with these parts ----------

  predicate Gap(s: string) { s != [] && forall i :: 0 <= i < |s| ==> s[i] in ['\t', '\n', '\U{000C}', '\r', ' '] }

  predicate BodyOk(s: string) { '\n' !in s && (s == [] || s[0] !in ['\t', '\n', '\U{000C}', '\r', ' ']) }

  predicate BulletParts(t: string, mark: char, gap: string, body: string) {
    && t == [mark] + gap + body && mark in ['-', '*', '\U{2022}', '\U{25E6}', '\U{25CF}']
    && Gap(gap) && BodyOk(body)
  }

  predicate OrderedParts(t: string, open: string, digits: string, close: char, gap: string, body: string) {
    && t == open + digits + [close] + gap + body && (open == "" || open == "(") && (close == ')' || close == '.')
    && digits != [] && (forall i :: 0 <= i < |digits| ==> '0' <= digits[i] <= '9')
    && Gap(gap) && BodyOk(body)
  }

  lemma {:induction false} GapDropped(gap: string, body: string)
    requires forall i :: 0 <= i < |gap| ==> IsRegexSpace(gap[i])
    requires body == [] || !IsRegexSpace(body[0])
    ensures DropRegexSpace(gap + body) == body
    decreases |gap|
  {
    hide IsRegexSpace;
    if gap == [] {
      assert gap + body == body;
    } else {
      assert (gap + body)[1..] == gap[1..] + body;
      GapDropped(gap[1..], body);
    }
  }

  lemma {:induction false} DropGap(t: string) returns (gap: string)
    ensures t == gap + DropRegexSpace(t) && forall i :: 0 <= i < |gap| ==> IsRegexSpace(gap[i])
    ensures DropRegexSpace(t) == [] || !IsRegexSpace(DropRegexSpace(t)[0])
    decreases |t|
  {
    hide IsRegexSpace;
    gap := [];
    if t != [] && IsRegexSpace(t[0]) {
      var g := DropGap(t[1..]);
      gap := [t[0]] + g;
    }
  }

  lemma AfterGap(t: string, gap: string, body: string)
    requires t == gap + body && Gap(gap) && BodyOk(body)
    ensures AfterSpaces(t) == Some(body)
  {
    GapDropped(gap, body);
    assert t[0] == gap[0];
  }

  lemma GapAhead(t: string) returns (gap: string)
    requires AfterSpaces(t).Some?
    ensures t == gap + AfterSpaces(t).value && Gap(gap) && BodyOk(AfterSpaces(t).value)
  {
    gap := DropGap(t);
  }

  /** The bullet lines are those of one of five marks, white space and a body on one line. */
  lemma BulletIff(t: string)
    ensures BulletBody(t).Some? <==> exists mark, gap, body :: BulletParts(t, mark, gap, body)
    ensures forall mark, gap, body :: BulletParts(t, mark, gap, body) ==> BulletBody(t) == Some(body)
  {
    hide AfterSpaces, Gap, BodyOk;
    if BulletBody(t).Some? {
      var gap := GapAhead(t[1..]);
      assert BulletParts(t, t[0], gap, BulletBody(t).value);
    }
    forall mark, gap, body | BulletParts(t, mark, gap, body)
      ensures BulletBody(t) == Some(body)
    {
      assert t[1..] == gap + body;
      AfterGap(t[1..], gap, body);
    }
  }

  /** The numbered lines are those of an optional bracket, digits, a bracket or a full stop,
      white space and a body on one line. */
  lemma OrderedIff(t: string)
    ensures
      OrderedBody(t).Some? <==> exists open, digits, close, gap, body :: OrderedParts(t, open, digits, close, gap, body)
    ensures
      forall open, digits, close, gap, body ::
        OrderedParts(t, open, digits, close, gap, body) ==> OrderedBody(t) == Some(body)
  {
    hide OrderedBody, OrderedParts;
    if OrderedBody(t).Some? {
      OrderedHas(t);
    }
    forall open, digits, close, gap, body | OrderedParts(t, open, digits, close, gap, body)
      ensures OrderedBody(t) == Some(body)
    {
      PartsAreOrdered(t, open, digits, close, gap, body);
    }
  }

  lemma {:induction false} DigitsGone(digits: string, rest: string)
    requires forall i :: 0 <= i < |digits| ==> IsDigit(digits[i])
    requires rest == [] || !IsDigit(rest[0])
    ensures DropDigits(digits + rest) == rest
    decreases |digits|
  {
    hide IsDigit;
    if digits == [] {
      assert digits + rest == rest;
    } else {
      assert (digits + rest)[1..] == digits[1..] + rest;
      DigitsGone(digits[1..], rest);
    }
  }

  lemma PartsAreOrdered(t: string, open: string, digits: string, close: char, gap: string, body: string)
    requires OrderedParts(t, open, digits, close, gap, body)
    ensures OrderedBody(t) == Some(body)
  {
    hide AfterSpaces, Gap, BodyOk, DropDigits;
    var v := [close] + (gap + body);
    assert t == open + (digits + v);
    assert t[0] == if open == "" then digits[0] else '(';
    assert (if t[0] == '(' then t[1..] else t) == digits + v;
    DigitsGone(digits, v);
    assert v[1..] == gap + body;
    AfterGap(v[1..], gap, body);
  }

  lemma OrderedHas(t: string)
    requires OrderedBody(t).Some?
    ensures exists open, digits, close, gap, body :: OrderedParts(t, open, digits, close, gap, body)
  {
    hide AfterSpaces, Gap, BodyOk, IsDigit, DropDigits;
    var open := if t != [] && t[0] == '(' then "(" else "";
    var u := t[|open|..];
    var digits := DigitsDropped(u);
    var v := DropDigits(u);
    var gap := GapAhead(v[1..]);
    var body := AfterSpaces(v[1..]).value;
    assert t == open + u && v == [v[0]] + v[1..];
    Flat(open, digits, [v[0]], gap, body);
    AreDigits(digits);
    assert OrderedParts(t, open, digits, v[0], gap, body);
  }

  lemma AreDigits(s: string)
    ensures (forall i :: 0 <= i < |s| ==> IsDigit(s[i])) <==> forall i :: 0 <= i < |s| ==> '0' <= s[i] <= '9'
  {}

  /** isPlainTextBlock. */
  predicate IsPlain(b: Block) {
    (b.typ == Paragraph || b.typ == Unknown || b.typ == Heading) && b.children == []
  }

  /** looksLikeListItem. */
  predicate LooksLikeItem(text: string) {
    BulletBody(TrimSpace(text)).Some? || OrderedBody(TrimSpace(text)).Some?
  }

  // ---------- pipe cells ----------

  function TrimPipesLeft(t: string): string {
    if t != [] && t[0] == '|' then TrimPipesLeft(t[1..]) else t
  }

  function TrimPipesRight(t: string): string {
    if t != [] && t[|t| - 1] == '|' then TrimPipesRight(t[..|t| - 1]) else t
  }

  function TrimAll(parts: seq<string>): (r: seq<string>)
    ensures |r| == |parts|
    ensures forall i :: 0 <= i < |r| ==> r[i] == TrimSpace(parts[i])
  {
    if parts == [] then [] else [TrimSpace(parts[0])] + TrimAll(parts[1..])
  }

  /** splitPipeCells; Go's nil is the empty sequence. */
  function PipeCells(text: string): (r: seq<string>)
    ensures r == [] || |r| >= 2
  {
    var t := TrimSpace(text);
    if '|' !in t then []
    else
      var cells := TrimAll(Split(TrimPipesRight(TrimPipesLeft(t)), '|'));
      if |cells| < 2 then [] else cells
  }

  /** The cells of one line of a markdown separator. */
  predicate IsRule(c: string) {
    var s := TrimSpace(c);
    s != [] && forall i :: 0 <= i < |s| ==> s[i] == '-' || s[i] == ':' || s[i] == ' '
  }

  predicate IsSeparator(cells: seq<string>) {
    forall i :: 0 <= i < |cells| ==> IsRule(cells[i])
  }

  /** The separator lines are those whose every cell shows dashes, colons and blanks, and at
      least one of them. */
  lemma SeparatorIff(cells: seq<string>)
    ensures
      IsSeparator(cells) <==>
        forall c :: c in cells ==> TrimSpace(c) != "" && forall x :: x in TrimSpace(c) ==> x in "-: "
  {
    hide TrimSpace;
    if IsSeparator(cells) {
      forall c | c in cells
        ensures TrimSpace(c) != "" && forall x :: x in TrimSpace(c) ==> x in "-: "
      {
        var i :| 0 <= i < |cells| && cells[i] == c;
        RuleIff(cells[i]);
      }
    } else {
      var i :| 0 <= i < |cells| && !IsRule(cells[i]);
      RuleIff(cells[i]);
      assert cells[i] in cells;
    }
  }

  lemma RuleIff(c: string)
    ensures IsRule(c) <==> TrimSpace(c) != "" && forall x :: x in TrimSpace(c) ==> x in "-: "
  {
    hide TrimSpace;
    var s := TrimSpace(c);
    assert forall i :: 0 <= i < |s| ==> s[i] in s;
    forall x | IsRule(c) && x in s
      ensures x in "-: "
    {
      var i :| 0 <= i < |s| && s[i] == x;
      assert "-: " == ['-', ':', ' '];
    }
    assert "-: " == ['-', ':', ' '];
  }

  lemma {:induction false} InkTrimPipesLeft(t: string)
    ensures Ink(TrimPipesLeft(t)) == Ink(t)
  {
    if t != [] && t[0] == '|' {
      InkTrimPipesLeft(t[1..]);
    }
  }

  lemma {:induction false} InkTrimPipesRight(t: string)
    ensures Ink(TrimPipesRight(t)) == Ink(t)
  {
    if t != [] && t[|t| - 1] == '|' {
      InkTrimPipesRight(t[..|t| - 1]);
      InkAppend(t[..|t| - 1], [t[|t| - 1]]);
      assert t == t[..|t| - 1] + [t[|t| - 1]];
    }
  }

  lemma {:induction false} InkTrimAll(parts: seq<string>)
    ensures InkAll(TrimAll(parts)) == InkAll(parts)
  {
    if parts != [] {
      InkTrimAll(parts[1..]);
      InkTrim(parts[0]);
      assert TrimAll(parts)[1..] == TrimAll(parts[1..]);
    }
  }

  lemma PipeCellsKeepInk(text: string)
    requires PipeCells(text) != []
    ensures InkAll(PipeCells(text)) == Ink(text)
  {
    var t := TrimSpace(text);
    var u := TrimPipesRight(TrimPipesLeft(t));
    InkTrimAll(Split(u, '|'));
    InkSplit(u);
    InkTrimPipesRight(TrimPipesLeft(t));
    InkTrimPipesLeft(t);
    InkTrim(text);
  }

  // ---------- cells two or more spaces apart ----------

  /** reMultiSpace.Split: cut at every maximal run of at least two \s. */
  function SplitMultiSpace(t: string): (parts: seq<string>)
    ensures |parts| >= 1
    decreases |t|
  {
    if t == [] then [[]]
    else if |t| >= 2 && IsRegexSpace(t[0]) && IsRegexSpace(t[1]) then [[]] + SplitMultiSpace(DropRegexSpace(t[2..]))
    else
      var rest := SplitMultiSpace(t[1..]);
      [[t[0]] + rest[0]] + rest[1..]
  }

  predicate HasMultiSpace(t: string) {
    exists i :: 0 <= i < |t| - 1 && IsRegexSpace(t[i]) && IsRegexSpace(t[i + 1])
  }

  function TrimmedNonEmpty(parts: seq<string>): (r: seq<string>)
    ensures forall i :: 0 <= i < |r| ==> r[i] != [] && Trimmed(r[i])
  {
    if parts == [] then []
    else
      var p := TrimSpace(parts[0]);
      (if p == [] then [] else [p]) + TrimmedNonEmpty(parts[1..])
  }

  /** splitMultiSpaceCells; Go's nil is the empty sequence. */
  function SpaceCells(text: string): (r: seq<string>)
    ensures r == [] || |r| >= 2
  {
    var t := TrimSpace(text);
    if t == [] || !HasMultiSpace(t) then []
    else
      var cells := TrimmedNonEmpty(SplitMultiSpace(t));
      if |cells| < 2 then [] else cells
  }

  lemma InkOnto(c: char, p: string, ps: seq<string>)
    ensures InkAll([[c] + p] + ps) == Ink([c]) + InkAll([p] + ps)
  {
    InkAllFirst([c] + p, ps);
    InkAllFirst(p, ps);
    InkAppend([c], p);
    hide Ink, InkAll;
    var x, y, z := Ink([c]), Ink(p), InkAll(ps);
    assert x + (y + z) == (x + y) + z;
  }

  lemma InkHead(t: string)
    requires t != []
    ensures Ink(t) == Ink([t[0]]) + Ink(t[1..])
  {
    assert [t[0]][1..] == [];
  }

  lemma {:induction false} InkSplitMultiSpace(t: string)
    ensures InkAll(SplitMultiSpace(t)) == Ink(t)
    decreases |t|
  {
    if t == [] {
    } else if |t| >= 2 && IsRegexSpace(t[0]) && IsRegexSpace(t[1]) {
      InkHead(t);
      InkHead(t[1..]);
      var rest := DropRegexSpace(t[2..]);
      InkSplitMultiSpace(rest);
      var gap := SpacesDropped(t[2..]);
      InkAppend(gap, rest);
      InkSpace(gap);
      assert t[1..][1..] == t[2..];
      assert ([[]] + SplitMultiSpace(rest))[1..] == SplitMultiSpace(rest);
    } else {
      InkSplitMultiSpace(t[1..]);
      var rest := SplitMultiSpace(t[1..]);
      assert [rest[0]] + rest[1..] == rest;
      InkOnto(t[0], rest[0], rest[1..]);
      InkHead(t);
    }
  }

  lemma {:induction false} InkTrimmedNonEmpty(parts: seq<string>)
    ensures InkAll(TrimmedNonEmpty(parts)) == InkAll(parts)
  {
    if parts != [] {
      InkTrimmedNonEmpty(parts[1..]);
      InkTrim(parts[0]);
      var p := TrimSpace(parts[0]);
      var head := if p == [] then [] else [p];
      InkAllAppend(head, TrimmedNonEmpty(parts[1..]));
      assert p != [] ==> head[1..] == [] && InkAll(head) == Ink(p) + [];
    }
  }

  lemma SpaceCellsKeepInk(text: string)
    requires SpaceCells(text) != []
    ensures InkAll(SpaceCells(text)) == Ink(text)
  {
    var t := TrimSpace(text);
    InkTrimmedNonEmpty(SplitMultiSpace(t));
    InkSplitMultiSpace(t);
    InkTrim(text);
  }

  // ---------- geometry ----------

  function Abs(v: real): real { if v < 0.0 then -v else v }

  /** The middle of a block, as far from its left edge as from its right one. */
  function MidX(b: Block): (m: real)
    ensures m - b.bbox.x1 == b.bbox.x2 - m
  {
    (b.bbox.x1 + b.bbox.x2) / 2.0
  }

  function MidY(b: Block): (m: real)
    ensures m - b.bbox.y1 == b.bbox.y2 - m
  {
    (b.bbox.y1 + b.bbox.y2) / 2.0
  }

  function Centers(row: seq<Block>): (r: seq<real>)
    ensures |r| == |row| && forall i :: 0 <= i < |r| ==> r[i] == MidX(row[i])
  {
    seq(|row|, i requires 0 <= i < |row| => MidX(row[i]))
  }

  /** compatibleColumns. */
  predicate Compatible(ref: seq<real>, got: seq<real>, tol: real) {
    |ref| == |got| && forall i :: 0 <= i < |ref| ==> Abs(ref[i] - got[i]) <= tol
  }

  // ---------- the loops ----------

  method SplitPipeCells(text: string) returns (cells: seq<string>)
    ensures cells == PipeCells(text)
  {
    hide TrimAll, Split, TrimSpace, TrimPipesLeft, TrimPipesRight;
    var t := TrimSpace(text);
    if '|' !in t {
      return [];
    }
    var parts := Split(TrimPipesRight(TrimPipesLeft(t)), '|');
    cells := [];
    hide PipeCells;
    for i := 0 to |parts|
      invariant cells == TrimAll(parts)[..i]
    {
      cells := cells + [TrimSpace(parts[i])];
    }
    assert cells == TrimAll(parts);
    PipeCellsAre(text, t, cells);
    if |cells| < 2 {
      cells := [];
    }
  }

  lemma PipeCellsAre(text: string, t: string, cells: seq<string>)
    requires t == TrimSpace(text) && '|' in t
    requires cells == TrimAll(Split(TrimPipesRight(TrimPipesLeft(t)), '|'))
    ensures PipeCells(text) == if |cells| < 2 then [] else cells
  {}

  lemma TrimmedFrom(parts: seq<string>, i: nat)
    requires i <= |parts|
    ensures
      i < |parts| ==>
        TrimmedNonEmpty(parts[i..])
            == (if TrimSpace(parts[i]) == [] then [] else [TrimSpace(parts[i])]) + TrimmedNonEmpty(parts[i + 1..])
    ensures i == |parts| ==> TrimmedNonEmpty(parts[i..]) == []
  {
    if i < |parts| {
      assert parts[i..][0] == parts[i] && parts[i..][1..] == parts[i + 1..];
    }
  }

  method SplitMultiSpaceCells(text: string) returns (cells: seq<string>)
    ensures cells == SpaceCells(text)
  {
    hide TrimmedNonEmpty, SplitMultiSpace, TrimSpace, HasMultiSpace;
    var t := TrimSpace(text);
    if t == "" || !HasMultiSpace(t) {
      return [];
    }
    var parts := SplitMultiSpace(t);
    cells := [];
    assert parts[0..] == parts;
    for i := 0 to |parts|
      invariant cells + TrimmedNonEmpty(parts[i..]) == TrimmedNonEmpty(parts)
    {
      TrimmedFrom(parts, i);
      var p := TrimSpace(parts[i]);
      ghost var one, rest := if p == [] then [] else [p], TrimmedNonEmpty(parts[i + 1..]);
      assert cells + (one + rest) == (cells + one) + rest;
      if p != "" {
        cells := cells + [p];
      }
    }
    TrimmedFrom(parts, |parts|);
    if |cells| < 2 {
      cells := [];
    }
  }

  method IsMdSeparatorRow(cells: seq<string>) returns (r: bool)
    ensures r == IsSeparator(cells)
  {
    hide TrimSpace;
    for k := 0 to |cells|
      invariant forall i :: 0 <= i < k ==> IsRule(cells[i])
    {
      var s := TrimSpace(cells[k]);
      if s == "" {
        return false;
      }
      for j := 0 to |s|
        invariant forall i :: 0 <= i < j ==> s[i] == '-' || s[i] == ':' || s[i] == ' '
      {
        if s[j] != '-' && s[j] != ':' && s[j] != ' ' {
          return false;
        }
      }
    }
    r := true;
  }

  method CompatibleColumns(ref: seq<real>, got: seq<real>, tol: real) returns (r: bool)
    ensures r == Compatible(ref, got, tol)
  {
    hide Abs;
    if |ref| != |got| {
      return false;
    }
    for i := 0 to |ref|
      invariant forall k :: 0 <= k < i ==> Abs(ref[k] - got[k]) <= tol
    {
      if Abs(ref[i] - got[i]) > tol {
        return false;
      }
    }
    r := true;
  }

  method ColumnCenters(row: seq<Block>) returns (centers: seq<real>)
    ensures centers == Centers(row)
  {
    hide MidX;
    centers := [];
    for i := 0 to |row|
      invariant |centers| == i && forall k :: 0 <= k < i ==> centers[k] == MidX(row[k])
    {
      centers := centers + [MidX(row[i])];
    }
  }
}
