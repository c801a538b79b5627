/** The parts of Go's strings and regexp packages that the layout, clean and
    export stages rely on, over sequences of code points. */
module Text {

  // ---------- white space ----------

  /** unicode.IsSpace, the class strings.TrimSpace removes. */
  predicate IsSpace(c: char) {
    || '\t' <= c <= '\r' || c == ' ' || c == '\U{0085}' || c == '\U{00A0}' || c == '\U{1680}'
    || '\U{2000}' <= c <= '\U{200A}' || c == '\U{2028}' || c == '\U{2029}' || c == '\U{202F}'
    || c == '\U{205F}' || c == '\U{3000}'
  }

  /** The class \s of Go's regexp package (ASCII, without the vertical tab). */
  predicate IsRegexSpace(c: char) {
    c == '\t' || c == '\n' || c == '\U{000C}' || c == '\r' || c == ' '
  }

  predicate AllSpace(s: string) {
    forall i :: 0 <= i < |s| ==> IsSpace(s[i])
  }

  predicate Trimmed(s: string) {
    s == [] || (!IsSpace(s[0]) && !IsSpace(s[|s| - 1]))
  }

  function TrimLeft(s: string): (r: string)
    ensures r == [] || !IsSpace(r[0])
    ensures AllSpace(s) ==> r == []
  {
    if s != [] && IsSpace(s[0]) then TrimLeft(s[1..]) else s
  }

  function TrimRight(s: string): (r: string)
    ensures r == [] || (!IsSpace(r[|r| - 1]) && s != [] && r[0] == s[0])
  {
    if s != [] && IsSpace(s[|s| - 1]) then TrimRight(s[..|s| - 1]) else s
  }

  /** strings.TrimSpace. */
  function TrimSpace(s: string): (r: string)
    ensures Trimmed(r)
    ensures AllSpace(s) ==> r == []
  {
    TrimRight(TrimLeft(s))
  }

  lemma {:induction false} TrimLeftSplits(s: string) returns (pre: string)
    ensures s == pre + TrimLeft(s) && AllSpace(pre)
  {
    pre := [];
    if s != [] && IsSpace(s[0]) {
      pre := TrimLeftSplits(s[1..]);
      pre := [s[0]] + pre;
    }
  }

  lemma {:induction false} TrimRightSplits(s: string) returns (post: string)
    ensures s == TrimRight(s) + post && AllSpace(post)
  {
    post := [];
    if s != [] && IsSpace(s[|s| - 1]) {
      post := TrimRightSplits(s[..|s| - 1]);
      post := post + [s[|s| - 1]];
    }
  }

  lemma TrimSplits(s: string) returns (pre: string, post: string)
    ensures s == pre + TrimSpace(s) + post && AllSpace(pre) && AllSpace(post)
  {
    pre := TrimLeftSplits(s);
    post := TrimRightSplits(TrimLeft(s));
  }

  lemma {:induction false} TrimLeftSkips(pre: string, s: string)
    requires AllSpace(pre)
    ensures TrimLeft(pre + s) == TrimLeft(s)
  {
    if pre == [] {
      assert pre + s == s;
    } else {
      TrimLeftSkips(pre[1..], s);
      assert (pre + s)[1..] == pre[1..] + s;
    }
  }

  lemma {:induction false} TrimRightSkips(s: string, post: string)
    requires AllSpace(post)
    ensures TrimRight(s + post) == TrimRight(s)
  {
    if post == [] {
      assert s + post == s;
    } else {
      TrimRightSkips(s, post[..|post| - 1]);
      assert (s + post)[..|s + post| - 1] == s + post[..|post| - 1];
    }
  }

  /** Trimming is determined: whatever white space surrounds a trimmed text is
      what TrimSpace takes away. */
  lemma TrimUnique(pre: string, s: string, post: string)
    requires AllSpace(pre) && AllSpace(post) && Trimmed(s)
    ensures TrimSpace(pre + s + post) == s
  {
    TrimLeftSkips(pre, s + post);
    assert pre + s + post == pre + (s + post);
    if s == [] {
      assert AllSpace(pre + s + post);
    } else {
      TrimRightSkips(s, post);
    }
  }

  lemma TrimIdempotent(s: string)
    ensures TrimSpace(TrimSpace(s)) == TrimSpace(s)
  {
    var t := TrimSpace(s);
    TrimUnique([], t, []);
    assert [] + t + [] == t;
  }

  // ---------- splitting and joining ----------

  /** strings.Split on a one-character separator. */
  function Split(s: string, sep: char): (parts: seq<string>)
    ensures |parts| >= 1
    ensures forall p :: p in parts ==> sep !in p
  {
    if s == [] then [[]]
    else if s[0] == sep then [[]] + Split(s[1..], sep)
    else
      var rest := Split(s[1..], sep);
      [[s[0]] + rest[0]] + rest[1..]
  }

  lemma {:induction false} SplitHead(a: string, sep: char, b: string)
    requires sep !in a
    ensures Split(a + [sep] + b, sep) == [a] + Split(b, sep)
  {
    if a == [] {
      assert a + [sep] + b == [sep] + b;
    } else {
      assert forall i :: 0 <= i < |a[1..]| ==> a[1..][i] == a[i + 1];
      SplitHead(a[1..], sep, b);
      assert (a + [sep] + b)[1..] == a[1..] + [sep] + b;
      assert [a[0]] + a[1..] == a;
    }
  }

  lemma {:induction false} SplitNone(a: string, sep: char)
    requires sep !in a
    ensures Split(a, sep) == [a]
  {
    if a != [] {
      assert forall i :: 0 <= i < |a[1..]| ==> a[1..][i] == a[i + 1];
      SplitNone(a[1..], sep);
      assert [a[0]] + a[1..] == a;
    }
  }

  function Join(parts: seq<string>, sep: char): string
    requires parts != []
  {
    if |parts| == 1 then parts[0] else parts[0] + [sep] + Join(parts[1..], sep)
  }

  /** Splitting at a separator loses nothing but the separators. */
  lemma {:induction false} JoinSplit(s: string, sep: char)
    ensures Join(Split(s, sep), sep) == s
  {
    if s != [] {
      JoinSplit(s[1..], sep);
      var rest := Split(s[1..], sep);
      if s[0] == sep {
        assert ([[]] + rest)[1..] == rest;
      } else {
        assert ([[s[0]] + rest[0]] + rest[1..])[1..] == rest[1..];
      }
    }
  }

  /** What was joined is split where it was joined. */
  lemma {:induction false} SplitJoin(parts: seq<string>, sep: char)
    requires parts != [] && forall i :: 0 <= i < |parts| ==> sep !in parts[i]
    ensures Split(Join(parts, sep), sep) == parts
  {
    if |parts| == 1 {
      SplitNone(parts[0], sep);
    } else {
      SplitJoin(parts[1..], sep);
      SplitHead(parts[0], sep, Join(parts[1..], sep));
    }
  }

  /** Lines, each ended by a newline. */
  function Lines(ls: seq<string>): string {
    if ls == [] then [] else ls[0] + "\n" + Lines(ls[1..])
  }

  lemma LinesFirst(l: string, ls: seq<string>)
    ensures Lines([l] + ls) == l + "\n" + Lines(ls)
  {
    assert ([l] + ls)[1..] == ls;
  }

  lemma {:induction false} LinesAppend(a: seq<string>, b: seq<string>)
    ensures Lines(a + b) == Lines(a) + Lines(b)
  {
    hide Lines;
    if a == [] {
      assert Lines(a) == [] by { NoLines(); }
      assert a + b == b;
    } else {
      LinesAppend(a[1..], b);
      LinesFirst(a[0], a[1..]);
      LinesFirst(a[0], a[1..] + b);
      assert a == [a[0]] + a[1..] && a + b == [a[0]] + (a[1..] + b);
      var x, y, z := a[0] + "\n", Lines(a[1..]), Lines(b);
      assert x + (y + z) == (x + y) + z;
    }
  }

  lemma NoLines()
    ensures Lines([]) == []
  {}

  lemma {:induction false} SplitLines(ls: seq<string>, s: string)
    requires forall i :: 0 <= i < |ls| ==> '\n' !in ls[i]
    ensures Split(Lines(ls) + s, '\n') == ls + Split(s, '\n')
  {
    if ls == [] {
      assert Lines(ls) + s == s;
      assert [] + Split(s, '\n') == Split(s, '\n');
    } else {
      SplitLines(ls[1..], s);
      SplitHead(ls[0], '\n', Lines(ls[1..]) + s);
      hide Split;
      assert ls[0] + "\n" + Lines(ls[1..]) + s == ls[0] + ['\n'] + (Lines(ls[1..]) + s);
      assert [ls[0]] + (ls[1..] + Split(s, '\n')) == ls + Split(s, '\n');
    }
  }

  function Concat(parts: seq<string>): string {
    if parts == [] then [] else parts[0] + Concat(parts[1..])
  }

  lemma {:induction false} ConcatAppend(a: seq<string>, b: seq<string>)
    ensures Concat(a + b) == Concat(a) + Concat(b)
  {
    if a == [] {
      assert a + b == b;
    } else {
      ConcatAppend(a[1..], b);
      assert (a + b)[0] == a[0] && (a + b)[1..] == a[1..] + b;
      var x, y, z := a[0], Concat(a[1..]), Concat(b);
      assert x + (y + z) == (x + y) + z;
    }
  }

  function ReplaceAll(s: string, c: char, with: string): string {
    if s == [] then [] else (if s[0] == c then with else [s[0]]) + ReplaceAll(s[1..], c, with)
  }

  lemma {:induction false} ReplaceNone(s: string, c: char, with: string)
    requires c !in s
    ensures ReplaceAll(s, c, with) == s
  {
    if s != [] {
      assert forall i :: 0 <= i < |s[1..]| ==> s[1..][i] == s[i + 1];
      ReplaceNone(s[1..], c, with);
    }
  }

  // ---------- what a text says ----------

  /** The characters of a text that are neither white space nor a cell separator. */
  function Ink(s: string): string {
    if s == [] then []
    else (if IsSpace(s[0]) || s[0] == '|' then [] else [s[0]]) + Ink(s[1..])
  }

  function InkChar(c: char): string { if IsSpace(c) || c == '|' then [] else [c] }

  lemma InkFirst(c: char, s: string)
    ensures Ink([c] + s) == InkChar(c) + Ink(s)
  {
    hide IsSpace;
    assert ([c] + s)[1..] == s;
  }

  lemma {:induction false} InkAppend(a: string, b: string)
    ensures Ink(a + b) == Ink(a) + Ink(b)
  {
    hide Ink, InkChar;
    if a == [] {
      assert Ink(a) == [] by { NoInk(); }
      assert a + b == b;
    } else {
      InkAppend(a[1..], b);
      InkFirst(a[0], a[1..]);
      InkFirst(a[0], a[1..] + b);
      assert a == [a[0]] + a[1..] && a + b == [a[0]] + (a[1..] + b);
      var x, y, z := InkChar(a[0]), Ink(a[1..]), Ink(b);
      assert x + (y + z) == (x + y) + z;
    }
  }

  lemma NoInk()
    ensures Ink([]) == []
  {}

  lemma {:induction false} InkSpace(s: string)
    requires AllSpace(s)
    ensures Ink(s) == []
  {
    if s != [] {
      InkSpace(s[1..]);
    }
  }

  lemma InkTrim(s: string)
    ensures Ink(TrimSpace(s)) == Ink(s)
  {
    var pre, post := TrimSplits(s);
    InkAppend(pre + TrimSpace(s), post);
    InkAppend(pre, TrimSpace(s));
    InkSpace(pre);
    InkSpace(post);
  }

  function InkAll(parts: seq<string>): string {
    if parts == [] then [] else Ink(parts[0]) + InkAll(parts[1..])
  }

  lemma {:induction false} InkAllAppend(a: seq<string>, b: seq<string>)
    ensures InkAll(a + b) == InkAll(a) + InkAll(b)
  {
    hide Ink, InkAll;
    if a == [] {
      assert InkAll(a) == [] by { NoInkAtAll(); }
      assert a + b == b;
    } else {
      InkAllAppend(a[1..], b);
      InkAllFirst(a[0], a[1..]);
      InkAllFirst(a[0], a[1..] + b);
      assert a == [a[0]] + a[1..] && a + b == [a[0]] + (a[1..] + b);
      var x, y, z := Ink(a[0]), InkAll(a[1..]), InkAll(b);
      assert x + (y + z) == (x + y) + z;
    }
  }

  lemma NoInkAtAll()
    ensures InkAll([]) == []
  {}

  lemma InkAllFirst(p: string, ps: seq<string>)
    ensures InkAll([p] + ps) == Ink(p) + InkAll(ps)
  {
    assert ([p] + ps)[1..] == ps;
  }

  lemma {:induction false} InkSplit(s: string)
    ensures InkAll(Split(s, '|')) == Ink(s)
  {
    if s != [] {
      InkSplit(s[1..]);
      var rest := Split(s[1..], '|');
      if s[0] == '|' {
        assert ([[]] + rest)[1..] == rest;
      } else {
        assert ([[s[0]] + rest[0]] + rest[1..])[1..] == rest[1..];
        InkAppend([s[0]], rest[0]);
        assert [s[0]][1..] == [];
      }
    }
  }

  // ---------- decimal numerals ----------

  predicate IsDigit(c: char) { '0' <= c <= '9' }

  function Digit(n: nat): (c: char)
    requires n < 10
    ensures IsDigit(c)
  {
    "0123456789"[n]
  }

  /** fmt's %d of a natural number. */
  function Dec(n: nat): (s: string)
    ensures s != [] && forall i :: 0 <= i < |s| ==> IsDigit(s[i])
  {
    if n < 10 then [Digit(n)] else Dec(n / 10) + [Digit(n % 10)]
  }

  lemma {:induction false} DecInjective(m: nat, n: nat)
    requires Dec(m) == Dec(n)
    ensures m == n
  {
    assert m >= 10 ==> |Dec(m)| == |Dec(m / 10)| + 1;
    assert n >= 10 ==> |Dec(n)| == |Dec(n / 10)| + 1;
    if m >= 10 {
      var a, b := Dec(m), Dec(n);
      assert a[..|a| - 1] == Dec(m / 10) && a[|a| - 1] == Digit(m % 10);
      assert b[..|b| - 1] == Dec(n / 10) && b[|b| - 1] == Digit(n % 10);
      DecInjective(m / 10, n / 10);
    }
  }

  /** A numeral followed by a non-digit can be read back from the front. */
  lemma DecPrefix(m: nat, x: string, n: nat, y: string)
    requires Dec(m) + x == Dec(n) + y
    requires (x == [] || !IsDigit(x[0])) && (y == [] || !IsDigit(y[0]))
    ensures m == n && x == y
  {
    var a, b := Dec(m), Dec(n);
    var s := a + x;
    assert s == b + y;
    assert forall k :: 0 <= k < |a| ==> IsDigit(s[k]);
    assert forall k :: 0 <= k < |b| ==> IsDigit(s[k]);
    assert |a| < |s| ==> s[|a|] == x[0];
    assert |b| < |s| ==> s[|b|] == y[0];
    assert |a| == |b|;
    assert a == s[..|a|] == b;
    assert x == s[|a|..] == y;
    DecInjective(m, n);
  }

  // ---------- visible characters ----------

  /** The characters that are not white space. */
  function Visible(s: string): string {
    if s == [] then [] else (if IsSpace(s[0]) then [] else [s[0]]) + Visible(s[1..])
  }

  function VisibleChar(c: char): string { if IsSpace(c) then [] else [c] }

  lemma VisibleFirst(c: char, s: string)
    ensures Visible([c] + s) == VisibleChar(c) + Visible(s)
    ensures Visible([]) == []
  {
    hide IsSpace;
    assert ([c] + s)[1..] == s;
  }

  lemma {:induction false} VisibleAppend(a: string, b: string)
    ensures Visible(a + b) == Visible(a) + Visible(b)
  {
    hide Visible, VisibleChar;
    if a == [] {
      VisibleFirst(' ', []);
      assert a + b == b;
    } else {
      VisibleAppend(a[1..], b);
      VisibleFirst(a[0], a[1..]);
      VisibleFirst(a[0], a[1..] + b);
      assert a == [a[0]] + a[1..] && a + b == [a[0]] + (a[1..] + b);
      var x, y, z := VisibleChar(a[0]), Visible(a[1..]), Visible(b);
      assert x + (y + z) == (x + y) + z;
    }
  }

  lemma {:induction false} VisibleSpace(s: string)
    requires AllSpace(s)
    ensures Visible(s) == []
  {
    if s != [] {
      VisibleSpace(s[1..]);
    }
  }

  lemma VisibleTrim(s: string)
    ensures Visible(TrimSpace(s)) == Visible(s)
  {
    var pre, post := TrimSplits(s);
    VisibleAppend(pre + TrimSpace(s), post);
    VisibleAppend(pre, TrimSpace(s));
    VisibleSpace(pre);
    VisibleSpace(post);
  }
}
