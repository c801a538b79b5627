/** Which file names and content types an upload may have, told without the path and case
    functions that decide it. */
module FileNames {
  import opened Text
  import opened Service

  /** A name is a PDF's when it ends in the extension, in either case of each letter, up to
      white space and then slashes of either kind at its end. */
  predicate PdfParts(name: string, stem: string, ext: string, space: string, slashes: string) {
    && name == stem + ext + space + slashes
    && |ext| == 4 && ext[0] == '.' && ext[1] in "pP" && ext[2] in "dD" && ext[3] in "fF"
    && AllSpace(space) && (forall i :: 0 <= i < |slashes| ==> slashes[i] == '/' || slashes[i] == '\\')
  }

  predicate IsExt(e: string) { |e| == 4 && e[0] == '.' && e[1] in "pP" && e[2] in "dD" && e[3] in "fF" }

  lemma ExtIs(n: string)
    requires |n| >= 4
    ensures Mapped(n, Lower)[|n| - 4..] == ".pdf" <==> IsExt(n[|n| - 4..])
  {
    var m, k := Mapped(n, Lower), |n| - 4;
    assert m[k..] == [m[k], m[k + 1], m[k + 2], m[k + 3]];
    assert n[k..] == [n[k], n[k + 1], n[k + 2], n[k + 3]];
    assert ".pdf" == ['.', 'p', 'd', 'f'];
    LetterIs(n[k]);
    LetterIs(n[k + 1]);
    LetterIs(n[k + 2]);
    LetterIs(n[k + 3]);
  }

  lemma LetterIs(c: char)
    ensures (Lower(c) == '.' <==> c == '.') && (Lower(c) == 'p' <==> c in "pP")
    ensures (Lower(c) == 'd' <==> c in "dD") && (Lower(c) == 'f' <==> c in "fF")
  {}

  predicate AllSlash(s: string) { forall i :: 0 <= i < |s| ==> s[i] == '/' }

  /** The slashes at the end are dropped, and no others. */
  lemma {:induction false} DroppedSlashes(s: string)
    ensures
      var d := DropSlashes(s);
      |d| <= |s| && d == s[..|d|] && AllSlash(s[|d|..]) && (d == "" || d[|d| - 1] != '/')
    decreases |s|
  {
    if s != "" && s[|s| - 1] == '/' {
      var t := s[..|s| - 1];
      DroppedSlashes(t);
      var n := |DropSlashes(s)|;
      assert s[..n] == t[..n] && s[n..] == t[n..] + ['/'];
    }
  }

  lemma {:induction false} DropsSlashes(s: string, slashes: string)
    requires s != "" && s[|s| - 1] != '/' && AllSlash(slashes)
    ensures DropSlashes(s + slashes) == s
    decreases |slashes|
  {
    if slashes == "" {
      assert s + slashes == s;
    } else {
      assert (s + slashes)[..|s + slashes| - 1] == s + slashes[..|slashes| - 1];
      DropsSlashes(s, slashes[..|slashes| - 1]);
    }
  }

  /** What follows the last slash is a suffix that holds none. */
  lemma {:induction false} AfterSlashIs(s: string)
    ensures var a := AfterSlash(s); |a| <= |s| && a == s[|s| - |a|..] && '/' !in a
    decreases |s|
  {
    if '/' in s {
      AfterSlashIs(s[1..]);
    }
  }

  lemma {:induction false} AfterSlashKeeps(s: string, t: string)
    requires '/' !in t
    ensures AfterSlash(s + t) == AfterSlash(s) + t
    decreases |s|
  {
    if '/' in s {
      assert (s + t)[1..] == s[1..] + t && '/' in s + t;
      AfterSlashKeeps(s[1..], t);
    }
  }

  /** The tail of a trimmed text is an extension exactly when some extension and white space end
      the text. */
  lemma TrimmedTail(a: string, stem: string, ext: string, space: string)
    requires a == stem + ext + space && IsExt(ext) && AllSpace(space)
    ensures var t := TrimSpace(a); |t| >= 4 && t[|t| - 4..] == ext
  {
    var pre := TrimLeftSplits(stem);
    var rest := TrimLeft(stem);
    assert !IsSpace(ext[0]) && !IsSpace(ext[3]);
    var t := rest + ext;
    assert Trimmed(t);
    assert a == pre + t + space;
    TrimUnique(pre, t, space);
    assert t[|t| - 4..] == ext;
  }

  /** PdfName: exactly the names with these parts. */
  lemma PdfNameIff(name: string)
    ensures PdfName(name) <==> exists stem, ext, space, slashes :: PdfParts(name, stem, ext, space, slashes)
  {
    hide PdfName;
    if PdfName(name) {
      PdfNameHasParts(name);
    }
    if stem, ext, space, slashes :| PdfParts(name, stem, ext, space, slashes) {
      PartsArePdfName(name, stem, ext, space, slashes);
    }
  }

  lemma PartsArePdfName(name: string, stem: string, ext: string, space: string, slashes: string)
    requires PdfParts(name, stem, ext, space, slashes)
    ensures PdfName(name)
  {
    hide PdfName, Base, DropSlashes, AfterSlash, TrimSpace, Slashed, IsExt;
    var m := Mapped(name, Slashed);
    var head, end := Mapped(stem, Slashed), Mapped(slashes, Slashed);
    var d := head + ext + space;
    assert "" + ext + space + slashes == ext + space + slashes;
    PlainMapped(ext, space, slashes);
    assert m == d + end;
    LastIsNoSlash(d, head + ext, space);
    DropsSlashes(d, end);
    NoSlashIn(ext, space);
    assert d == head + (ext + space);
    AfterSlashKeeps(head, ext + space);
    var a := AfterSlash(head) + ext + space;
    assert AfterSlash(d) == a;
    BaseIs(m);
    TrimmedTail(a, AfterSlash(head), ext, space);
    NamedByTail(name);
  }

  lemma PlainMapped(ext: string, space: string, slashes: string)
    requires PdfParts(ext + space + slashes, "", ext, space, slashes)
    ensures IsExt(ext) && Mapped(ext, Slashed) == ext && Mapped(space, Slashed) == space
    ensures AllSlash(Mapped(slashes, Slashed))
  {
    assert forall i :: 0 <= i < |space| ==> IsSpace(space[i]) && Slashed(space[i]) == space[i];
  }

  lemma NoSlashIn(ext: string, space: string)
    requires IsExt(ext) && AllSpace(space)
    ensures '/' !in ext + space
  {
    assert '/' !in ext && '/' !in space;
  }

  lemma LastIsNoSlash(d: string, front: string, space: string)
    requires d == front + space && AllSpace(space) && |front| >= 4 && IsExt(front[|front| - 4..])
    ensures d != "" && d[|d| - 1] != '/'
  {
    var e := front[|front| - 4..];
    assert space == "" ==> d[|d| - 1] == e[3];
    assert space != "" ==> d[|d| - 1] == space[|space| - 1] && IsSpace(d[|d| - 1]);
  }

  lemma PdfNameHasParts(name: string)
    requires PdfName(name)
    ensures exists stem, ext, space, slashes :: PdfParts(name, stem, ext, space, slashes)
  {
    hide PdfName, Base, IsExt, AllSlash, AllSpace, TrimSpace, DropSlashes, AfterSlash, Mapped;
    var m := Mapped(name, Slashed);
    NamedByTail(name);
    TrimIsShort(Base(m));
    BaseIs(m);
    var d := DropSlashes(m);
    DroppedSlashes(m);
    AfterSlashIs(d);
    var pre, post := TrimSplits(AfterSlash(d));
    PartsFound(name, m, d, AfterSlash(d), pre, TrimSpace(Base(m)), post);
  }

  lemma NamedByTail(name: string)
    ensures
      var t := TrimSpace(Base(Mapped(name, Slashed)));
      PdfName(name) <==> |t| >= 4 && IsExt(t[|t| - 4..])
  {
    hide Base, TrimSpace, IsExt;
    var t := TrimSpace(Base(Mapped(name, Slashed)));
    if |t| >= 4 {
      ExtIs(t);
    }
  }

  lemma BaseIs(s: string)
    ensures |Base(s)| > 1 ==> Base(s) == AfterSlash(DropSlashes(s))
    ensures DropSlashes(s) != "" ==> Base(s) == AfterSlash(DropSlashes(s))
  {}

  lemma TrimIsShort(s: string)
    ensures |TrimSpace(s)| <= |s|
  {
    var pre, post := TrimSplits(s);
  }

  lemma PartsFound(name: string, m: string, d: string, a: string, pre: string, t: string, post: string)
    requires m == Mapped(name, Slashed) && |d| <= |m| && d == m[..|d|] && AllSlash(m[|d|..])
    requires |a| <= |d| && a == d[|d| - |a|..] && a == pre + t + post && AllSpace(post)
    requires |t| >= 4 && IsExt(t[|t| - 4..])
    ensures exists stem, ext, space, slashes :: PdfParts(name, stem, ext, space, slashes)
  {
    hide Slashed, AllSlash, Plain, Mapped;
    var n, k := |d|, |d| - |post| - 4;
    var ext := t[|t| - 4..];
    TailOf(m, d, a, pre, t, post);
    PlainTail(ext, post);
    Unslashed(name, m, k, k + 4);
    Unslashed(name, m, k + 4, n);
    Unslashes(name, m, n);
    hide AllSpace, IsSpace;
    InFour(name, k, k + 4, n);
    assert PdfParts(name, name[..k], ext, post, name[n..]);
  }

  lemma InFour(s: string, i: nat, j: nat, k: nat)
    requires i <= j <= k <= |s|
    ensures s == s[..i] + s[i..j] + s[j..k] + s[k..]
  {}

  predicate Plain(s: string) { '/' !in s }

  lemma PlainTail(ext: string, post: string)
    requires IsExt(ext) && AllSpace(post)
    ensures Plain(ext) && Plain(post)
  {
    assert !IsSpace('/');
  }

  /** Where the extension and the white space stand. */
  lemma TailOf(m: string, d: string, a: string, pre: string, t: string, post: string)
    requires |d| <= |m| && d == m[..|d|]
    requires |a| <= |d| && a == d[|d| - |a|..] && a == pre + t + post && |t| >= 4
    ensures var k := |d| - |post| - 4; k >= 0 && m[k..k + 4] == t[|t| - 4..] && m[k + 4..|d|] == post
  {
    var q, n := |pre| + |t|, |d|;
    assert a[q - 4..q] == t[|t| - 4..] && a[q..] == post;
    assert a[q - 4..q] == m[n - |a| + q - 4..n - |a| + q];
    assert a[q..] == m[n - |a| + q..n];
  }

  lemma Unslashed(name: string, m: string, from: nat, to: nat)
    requires m == Mapped(name, Slashed) && from <= to <= |m| && Plain(m[from..to])
    ensures name[from..to] == m[from..to]
  {
    forall i | from <= i < to
      ensures name[i] == m[i]
    {
      assert m[from..to][i - from] == m[i];
      SlashedOnly(name[i]);
    }
  }

  lemma SlashedOnly(c: char)
    ensures Slashed(c) != '/' ==> Slashed(c) == c
    ensures Slashed(c) == '/' ==> c == '/' || c == '\\'
  {}

  lemma Unslashes(name: string, m: string, n: nat)
    requires m == Mapped(name, Slashed) && n <= |m| && AllSlash(m[n..])
    ensures forall i :: 0 <= i < |name[n..]| ==> name[n..][i] == '/' || name[n..][i] == '\\'
  {
    forall i | 0 <= i < |name[n..]|
      ensures name[n..][i] == '/' || name[n..][i] == '\\'
    {
      assert m[n..][i] == m[n + i];
      SlashedOnly(name[n + i]);
    }
  }

  // ---------- content types ----------

  /** The same text, the case of ASCII letters apart. */
  predicate SameLetters(s: string, t: string) {
    |s| == |t| && forall i :: 0 <= i < |s| ==> SameLetter(s[i], t[i])
  }

  predicate SameLetter(c: char, d: char) {
    c == d || ('A' <= c <= 'Z' && d as int == c as int + 32) || ('A' <= d <= 'Z' && c as int == d as int + 32)
  }

  predicate Ascii(s: string) { forall i :: 0 <= i < |s| ==> s[i] < '\U{0080}' }

  lemma Lowered(s: string, low: string)
    requires Ascii(s) && forall i :: 0 <= i < |low| ==> !('A' <= low[i] <= 'Z')
    ensures Mapped(s, Lower) == low <==> SameLetters(s, low)
    ensures Mapped(s, Fold) == low <==> SameLetters(s, low)
  {
    forall i | 0 <= i < |s| && |s| == |low|
      ensures Lower(s[i]) == low[i] <==> SameLetter(s[i], low[i])
      ensures Fold(s[i]) == low[i] <==> SameLetter(s[i], low[i])
    {
      OneLowered(s[i], low[i]);
    }
    hide Lower, Fold, SameLetter;
    if Mapped(s, Lower) == low {
      assert forall i :: 0 <= i < |s| ==> Lower(s[i]) == low[i];
    }
    if Mapped(s, Fold) == low {
      assert forall i :: 0 <= i < |s| ==> Fold(s[i]) == low[i];
    }
  }

  lemma OneLowered(c: char, d: char)
    requires c < '\U{0080}' && !('A' <= d <= 'Z')
    ensures Lower(c) == d <==> SameLetter(c, d)
    ensures Fold(c) == d <==> SameLetter(c, d)
  {}

  /** The content types of a PDF, whatever white space surrounds them and whatever the case of
      their letters: none, the generic one, and the two of PDF, the first with parameters too. */
  lemma PdfTypeIff(pre: string, contentType: string, post: string)
    requires Ascii(contentType) && Trimmed(contentType) && AllSpace(pre) && AllSpace(post)
    ensures
      PdfType(pre + contentType + post) <==>
        || contentType == "" || SameLetters(contentType, "application/octet-stream")
        || SameLetters(contentType, "application/pdf") || SameLetters(contentType, "application/x-pdf")
        || (|contentType| > 15 && SameLetters(contentType[..16], "application/pdf;"))
  {
    hide TrimSpace, AllSpace, Trimmed, Ascii, Mapped, SameLetters, Lower, Fold;
    TrimUnique(pre, contentType, post);
    Lowered(contentType, "application/octet-stream");
    Lowered(contentType, "application/pdf");
    Lowered(contentType, "application/x-pdf");
    LoweredPrefix(contentType);
  }

  lemma LoweredPrefix(t: string)
    requires Ascii(t)
    ensures
      "application/pdf;" <= Mapped(t, Lower) <==> |t| > 15 && SameLetters(t[..16], "application/pdf;")
  {
    hide Lower, Fold, SameLetters;
    var p := "application/pdf;";
    if |t| > 15 {
      Lowered(t[..16], p);
      assert Mapped(t, Lower)[..16] == Mapped(t[..16], Lower);
      assert p <= Mapped(t, Lower) <==> Mapped(t, Lower)[..16] == p;
    }
  }
}
