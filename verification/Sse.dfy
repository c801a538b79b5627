/** Job events: the frames the server writes, and the client that reads them from a
    stream cut into arbitrary chunks. Section 9.2 of the WHATWG HTML Standard. */
module Sse {
  import opened Domain
  import opened Text
  import opened JsText

  // ---------- frames ----------

  datatype Message = Message(typ: string, data: string)

  /** The lines of one event. */
  function Body(m: Message): string { "event: " + m.typ + "\ndata: " + m.data }

  function Stream(ms: seq<Message>): string {
    if ms == [] then [] else Body(ms[0]) + "\n\n" + Stream(ms[1..])
  }

  // ---------- String.split("\n\n") ----------

  function SplitBlank(s: string): (parts: seq<string>)
    ensures |parts| >= 1
    decreases |s|
  {
    if s == [] then [[]]
    else if |s| >= 2 && s[0] == '\n' && s[1] == '\n' then [[]] + SplitBlank(s[2..])
    else
      var rest := SplitBlank(s[1..]);
      [[s[0]] + rest[0]] + rest[1..]
  }

  function Last(parts: seq<string>): string
    requires parts != []
  {
    parts[|parts| - 1]
  }

  function Front(parts: seq<string>): seq<string>
    requires parts != []
  {
    parts[..|parts| - 1]
  }

  lemma SplitStep(s: string)
    requires s != []
    ensures s[0] == '\n' && |s| >= 2 && s[1] == '\n' ==> SplitBlank(s) == [[]] + SplitBlank(s[2..])
    ensures
      !(s[0] == '\n' && |s| >= 2 && s[1] == '\n') ==>
        var r := SplitBlank(s[1..]);
        SplitBlank(s) == [[s[0]] + r[0]] + r[1..]
  {}

  /** What is carried over after the last blank line is all that later text can touch. */
  lemma {:induction false} SplitResumes(x: string, y: string)
    ensures SplitBlank(x + y) == Front(SplitBlank(x)) + SplitBlank(Last(SplitBlank(x)) + y)
    decreases |x|
  {
    hide SplitBlank, Front, Last;
    if |SplitBlank(x)| == 1 {
      SplitWhole(x);
      FrontOfOne(x);
      assert [] + SplitBlank(x + y) == SplitBlank(x + y);
    } else {
      assert |x| >= 2 by { Long(x); }
      SplitStep(x);
      SplitStep(x + y);
      if x[0] == '\n' && x[1] == '\n' {
        SplitResumes(x[2..], y);
        assert (x + y)[2..] == x[2..] + y;
        NewFirst(SplitBlank(x[2..]), SplitBlank(Last(SplitBlank(x[2..])) + y));
      } else {
        SplitResumes(x[1..], y);
        assert (x + y)[1..] == x[1..] + y && (x + y)[0] == x[0] && (x + y)[1] == x[1];
        var r := SplitBlank(x[1..]);
        FirstGrows(x[0], r, SplitBlank(Last(r) + y));
      }
    }
  }

  lemma FrontOfOne(x: string)
    ensures Front([x]) == [] && Last([x]) == x
  {}

  lemma Long(x: string)
    requires |SplitBlank(x)| > 1
    ensures |x| >= 2
  {
    if |x| <= 1 {
      OnePart(x);
    }
  }

  lemma NewFirst(r: seq<string>, more: seq<string>)
    requires r != []
    ensures Front([[]] + r) + more == [[]] + (Front(r) + more) && Last([[]] + r) == Last(r)
  {
    assert Front([[]] + r) == [[]] + Front(r);
  }

  lemma OnePart(x: string)
    requires |x| <= 1
    ensures SplitBlank(x) == [x]
  {
    if |x| == 1 {
      assert x[1..] == [] && SplitBlank([]) == [[]];
      assert [x[0]] + [] == x;
    }
  }

  lemma {:induction false} SplitWhole(s: string)
    requires |SplitBlank(s)| == 1
    ensures SplitBlank(s) == [s]
    decreases |s|
  {
    if s != [] {
      SplitWhole(s[1..]);
      assert [s[0]] + s[1..] == s;
    }
  }

  lemma FirstGrows(c: char, r: seq<string>, more: seq<string>)
    requires |r| >= 2
    ensures
      var all := Front(r) + more;
      [[c] + all[0]] + all[1..] == Front([[c] + r[0]] + r[1..]) + more
      && Last([[c] + r[0]] + r[1..]) == Last(r)
  {}

  /** No blank line in it, and no newline at its end. */
  predicate Solid(s: string) {
    && (forall i :: 0 <= i < |s| - 1 ==> !(s[i] == '\n' && s[i + 1] == '\n'))
    && (s != [] ==> s[|s| - 1] != '\n')
  }

  lemma {:induction false} SplitAtBlank(a: string, s: string)
    requires Solid(a)
    ensures SplitBlank(a + "\n\n" + s) == [a] + SplitBlank(s)
    decreases |a|
  {
    var t := a + "\n\n" + s;
    if a == [] {
      assert t[2..] == s;
    } else {
      assert Solid(a[1..]) by {
        assert forall i :: 0 <= i < |a[1..]| ==> a[1..][i] == a[i + 1];
      }
      SplitAtBlank(a[1..], s);
      assert t[1..] == a[1..] + "\n\n" + s;
      assert [a[0]] + a[1..] == a;
      assert ([a[1..]] + SplitBlank(s))[1..] == SplitBlank(s);
    }
  }

  predicate NoBlank(s: string) {
    forall i :: 0 <= i < |s| - 1 ==> !(s[i] == '\n' && s[i + 1] == '\n')
  }

  lemma {:induction false} SplitNoBlank(s: string)
    requires NoBlank(s)
    ensures SplitBlank(s) == [s]
    decreases |s|
  {
    if s != [] {
      assert forall i :: 0 <= i < |s[1..]| ==> s[1..][i] == s[i + 1];
      SplitNoBlank(s[1..]);
      assert [s[0]] + s[1..] == s;
    }
  }

  // ---------- one block ----------

  function ParseLines(lines: seq<string>, m: Message): Message
    decreases |lines|
  {
    if lines == [] then m
    else
      var l := lines[0];
      var m1 := if "event:" <= l then m.(typ := JsTrim(l[6..])) else m;
      var m2 := if "data:" <= l then m1.(data := m1.data + JsTrim(l[5..])) else m1;
      ParseLines(lines[1..], m2)
  }

  function Parse(block: string): Message { ParseLines(Split(block, '\n'), Message("message", "")) }

  predicate EventLine(l: string) { "event:" <= l }

  /** What the data lines hold, in order. */
  function DataOf(lines: seq<string>): seq<string> {
    if lines == [] then []
    else (if "data:" <= lines[0] then [JsTrim(lines[0][5..])] else []) + DataOf(lines[1..])
  }

  /** The type of a block is what its last event line says, and "message" without one; its data is
      what its data lines hold, one after the other. */
  lemma BlockIs(block: string)
    ensures
      var lines := Split(block, '\n');
      && (NoEventLine(lines) ==> Parse(block).typ == "message")
      && (forall i :: LastEventLine(lines, i) ==> Parse(block).typ == JsTrim(lines[i][6..]))
      && Parse(block).data == Concat(DataOf(lines))
  {
    hide ParseLines, JsTrim, Split;
    var lines := Split(block, '\n');
    LinesAre(lines, Message("message", ""));
    assert "" + Concat(DataOf(lines)) == Concat(DataOf(lines));
  }

  predicate LastEventLine(lines: seq<string>, i: int) {
    0 <= i < |lines| && EventLine(lines[i]) && forall j :: i < j < |lines| ==> !EventLine(lines[j])
  }

  predicate NoEventLine(lines: seq<string>) { forall i :: 0 <= i < |lines| ==> !EventLine(lines[i]) }

  lemma LinesAre(lines: seq<string>, m: Message)
    ensures NoEventLine(lines) ==> ParseLines(lines, m).typ == m.typ
    ensures forall i :: LastEventLine(lines, i) ==> ParseLines(lines, m).typ == JsTrim(lines[i][6..])
    ensures ParseLines(lines, m).data == m.data + Concat(DataOf(lines))
  {
    hide ParseLines, DataOf, Concat, NoEventLine, JsTrim;
    TypeIs(lines, m);
    DataIs(lines, m);
  }

  lemma {:induction false} TypeIs(lines: seq<string>, m: Message)
    ensures NoEventLine(lines) ==> ParseLines(lines, m).typ == m.typ
    ensures forall i :: LastEventLine(lines, i) ==> ParseLines(lines, m).typ == JsTrim(lines[i][6..])
    decreases |lines|
  {
    hide JsTrim;
    if lines != [] {
      var l, rest := lines[0], lines[1..];
      var m2 := LineRead(lines, m);
      TypeIs(rest, m2);
      hide ParseLines;
      assert forall i :: 0 <= i < |rest| ==> rest[i] == lines[i + 1];
      forall i | LastEventLine(lines, i)
        ensures ParseLines(lines, m).typ == JsTrim(lines[i][6..])
      {
        assert if i > 0 then LastEventLine(rest, i - 1) else NoEventLine(rest);
      }
    }
  }

  lemma LineRead(lines: seq<string>, m: Message) returns (m2: Message)
    requires lines != []
    ensures ParseLines(lines, m) == ParseLines(lines[1..], m2)
    ensures m2.typ == if EventLine(lines[0]) then JsTrim(lines[0][6..]) else m.typ
    ensures m2.data == m.data + if "data:" <= lines[0] then JsTrim(lines[0][5..]) else ""
  {
    hide JsTrim;
    var l := lines[0];
    var m1 := if EventLine(l) then m.(typ := JsTrim(l[6..])) else m;
    m2 := if "data:" <= l then m1.(data := m1.data + JsTrim(l[5..])) else m1;
  }

  lemma {:induction false} DataIs(lines: seq<string>, m: Message)
    ensures ParseLines(lines, m).data == m.data + Concat(DataOf(lines))
    decreases |lines|
  {
    hide JsTrim;
    if lines != [] {
      var m2 := LineRead(lines, m);
      DataIs(lines[1..], m2);
      DataFirst(lines);
      hide ParseLines, DataOf, Concat;
      var x, more := if "data:" <= lines[0] then JsTrim(lines[0][5..]) else "", Concat(DataOf(lines[1..]));
      assert (m.data + x) + more == m.data + (x + more);
    }
  }

  lemma DataFirst(lines: seq<string>)
    requires lines != []
    ensures
      var more := Concat(DataOf(lines[1..]));
      Concat(DataOf(lines)) == (if "data:" <= lines[0] then JsTrim(lines[0][5..]) else "") + more
  {
    hide JsTrim;
    var more := DataOf(lines[1..]);
    if "data:" <= lines[0] {
      assert ([JsTrim(lines[0][5..])] + more)[1..] == more;
    } else {
      assert [] + more == more && "" + Concat(more) == Concat(more);
    }
  }

  /** The events of some blocks; a block without data is no event. */
  function Events(blocks: seq<string>): seq<Message> {
    if blocks == [] then []
    else (if Parse(blocks[0]).data == "" then [] else [Parse(blocks[0])]) + Events(blocks[1..])
  }

  function EventOf(block: string): seq<Message> { if Parse(block).data == "" then [] else [Parse(block)] }

  lemma EventsFirst(block: string, rest: seq<string>)
    ensures Events([block] + rest) == EventOf(block) + Events(rest)
  {
    hide Parse;
    assert ([block] + rest)[1..] == rest;
  }

  lemma {:induction false} EventsAppend(a: seq<string>, b: seq<string>)
    ensures Events(a + b) == Events(a) + Events(b)
  {
    hide Events, EventOf;
    if a == [] {
      NoEvents();
      assert a + b == b;
    } else {
      EventsAppend(a[1..], b);
      EventsFirst(a[0], a[1..]);
      EventsFirst(a[0], a[1..] + b);
      assert a == [a[0]] + a[1..] && a + b == [a[0]] + (a[1..] + b);
      var x, y, z := EventOf(a[0]), Events(a[1..]), Events(b);
      assert x + (y + z) == (x + y) + z;
    }
  }

  // ---------- the client ----------

  /** The inner loops of subscribeJobEvents, for one complete block. */
  method ReadBlock(block: string) returns (m: Message)
    ensures m == Parse(block)
  {
    hide JsTrim;
    m := Message("message", "");
    var lines := Split(block, '\n');
    assert lines[0..] == lines;
    for k := 0 to |lines|
      invariant ParseLines(lines[k..], m) == Parse(block)
    {
      var line := lines[k];
      assert lines[k..][0] == line && lines[k..][1..] == lines[k + 1..];
      if "event:" <= line {
        m := m.(typ := JsTrim(line[6..]));
      }
      if "data:" <= line {
        m := m.(data := m.data + JsTrim(line[5..]));
      }
    }
  }

  /** subscribeJobEvents, over the decoded chunks in the order they arrive: what is handed
      to the callback, and what is still in the buffer. */
  method Subscribe(chunks: seq<string>) returns (out: seq<Message>, buf: string)
    ensures
      var parts := SplitBlank(Concat(chunks));
      out == Events(Front(parts)) && buf == Last(parts)
  {
    hide SplitBlank, Events, Parse;
    out, buf := [], "";
    OnePart("");
    assert Events([]) == [] by { NoEvents(); }
    assert Concat(chunks[..0]) == "" by { NoChunks(); }
    for c := 0 to |chunks|
      invariant
        var parts := SplitBlank(Concat(chunks[..c]));
        out == Events(Front(parts)) && buf == Last(parts)
    {
      ghost var before := Concat(chunks[..c]);
      SplitResumes(before, chunks[c]);
      NextChunk(chunks, c);
      buf := buf + chunks[c];
      var parts := SplitBlank(buf);
      buf := Last(parts);
      var blocks := Front(parts);
      EventsAppend(Front(SplitBlank(before)), blocks);
      assert Front(Front(SplitBlank(before)) + parts) == Front(SplitBlank(before)) + blocks;
      out := EmitAll(blocks, out);
    }
    assert chunks[..|chunks|] == chunks;
  }

  lemma NoEvents()
    ensures Events([]) == []
  {}

  lemma NoChunks()
    ensures Concat([]) == ""
  {}

  lemma NextChunk(chunks: seq<string>, c: nat)
    requires c < |chunks|
    ensures Concat(chunks[..c + 1]) == Concat(chunks[..c]) + chunks[c]
  {
    assert chunks[..c + 1] == chunks[..c] + [chunks[c]];
    ConcatAppend(chunks[..c], [chunks[c]]);
    assert Concat([chunks[c]]) == chunks[c] + Concat([]);
  }

  method EmitAll(blocks: seq<string>, before: seq<Message>) returns (out: seq<Message>)
    ensures out == before + Events(blocks)
  {
    hide Parse;
    out := before;
    assert blocks[0..] == blocks;
    for b := 0 to |blocks|
      invariant before + Events(blocks) == out + Events(blocks[b..])
    {
      assert blocks[b..][0] == blocks[b] && blocks[b..][1..] == blocks[b + 1..];
      var m := ReadBlock(blocks[b]);
      ghost var one, rest := if m.data == "" then [] else [m], Events(blocks[b + 1..]);
      assert out + (one + rest) == (out + one) + rest;
      if m.data == "" {
        assert out + one == out;
        continue;
      }
      out := out + [m];
    }
    assert out + [] == out;
  }

  // ---------- reading undoes writing ----------

  /** What the server frames: one line, trimmed, and with something in it. */
  predicate MessageOk(m: Message) {
    '\n' !in m.typ && '\n' !in m.data && JsTrimmed(m.typ) && JsTrimmed(m.data) && m.data != ""
  }

  lemma ParseUndoesBody(m: Message)
    requires MessageOk(m)
    ensures Parse(Body(m)) == m
  {
    var l1, l2 := "event: " + m.typ, "data: " + m.data;
    assert Body(m) == l1 + ['\n'] + l2;
    SplitHead(l1, '\n', l2);
    SplitNone(l2, '\n');
    assert l1[6..] == " " + m.typ && l2[5..] == " " + m.data;
    TrimField(m.typ);
    TrimField(m.data);
    ParseTwo(m, l1, l2);
  }

  lemma ParseTwo(m: Message, l1: string, l2: string)
    requires |l1| >= 6 && |l2| >= 5 && "event:" <= l1 && "data:" <= l2 && JsTrim(l1[6..]) == m.typ
      && JsTrim(l2[5..]) == m.data
    ensures ParseLines([l1] + [l2], Message("message", "")) == m
  {
    assert l1[0] == 'e' && l2[0] == 'd';
    hide JsTrim;
    var m0 := Message("message", "");
    assert "" + m.data == m.data;
    assert [l1, l2][1..] == [l2] && [l2][1..] == [];
    assert ParseLines([l2], m0.(typ := m.typ)) == ParseLines([], m);
    assert ParseLines([l1, l2], m0) == ParseLines([l2], m0.(typ := m.typ));
    assert [l1] + [l2] == [l1, l2];
  }

  lemma BodySolid(m: Message)
    requires MessageOk(m)
    ensures Solid(Body(m))
  {
    var b := Body(m);
    var n := |"event: " + m.typ|;
    assert b[n] == '\n';
    assert forall i :: 0 <= i < |b| && b[i] == '\n' ==> i == n;
    assert b[n + 1] == 'd' && b[|b| - 1] == m.data[|m.data| - 1];
  }

  /** A cut-off frame has no blank line yet. */
  lemma CutOffNoBlank(m: Message, s: string)
    requires MessageOk(m) && s < Body(m) + "\n\n"
    ensures NoBlank(s)
  {
    hide Body;
    BodySolid(m);
    var f := Body(m) + "\n\n";
    assert forall i :: 0 <= i < |s| ==> s[i] == f[i];
    assert forall i :: 0 <= i < |Body(m)| ==> f[i] == Body(m)[i];
  }

  lemma StreamStep(ms: seq<Message>)
    requires ms != []
    ensures Stream(ms) == Body(ms[0]) + "\n\n" + Stream(ms[1..])
  {}

  /** How many frames are complete in a prefix of the stream. */
  lemma {:induction false} EventsOfPrefix(ms: seq<Message>, s: string) returns (k: nat)
    requires (forall i :: 0 <= i < |ms| ==> MessageOk(ms[i])) && s <= Stream(ms)
    ensures k <= |ms| && Events(Front(SplitBlank(s))) == ms[..k]
    ensures Stream(ms[..k]) <= s
    ensures k < |ms| ==> |s| < |Stream(ms[..k + 1])|
    ensures s == Stream(ms) ==> k == |ms|
    decreases |ms|
  {
    hide MessageOk, Parse, Events, Body, SplitBlank, Front, Solid, NoBlank;
    FrontOfOne(s);
    if ms == [] {
      OnePart(s);
      NoEvents();
      k := 0;
    } else {
      StreamStep(ms);
      var f := Body(ms[0]) + "\n\n";
      if |s| < |f| {
        assert s < f;
        CutOffNoBlank(ms[0], s);
        SplitNoBlank(s);
        NoEvents();
        k := 0;
        assert Stream(ms[..1]) == f by { OneFrame(ms[0]); assert ms[..1] == [ms[0]]; }
        assert Stream(ms[..0]) == "";
      } else {
        var t := s[|f|..];
        assert s == f + t;
        Framed(ms[0]);
        k := EventsOfPrefix(ms[1..], t);
        BodySolid(ms[0]);
        SplitAtBlank(Body(ms[0]), t);
        ParseUndoesBody(ms[0]);
        FirstEvent(ms[0], Body(ms[0]), SplitBlank(t));
        assert [ms[0]] + ms[1..][..k] == ms[..k + 1];
        StreamFirst(ms, k);
        if k < |ms| - 1 {
          StreamFirst(ms, k + 1);
        }
        k := k + 1;
      }
    }
  }

  lemma Framed(m: Message)
    requires MessageOk(m)
    ensures m.data != ""
  {}

  lemma OneFrame(m: Message)
    ensures Stream([m]) == Body(m) + "\n\n"
  {
    assert [m][1..] == [] && Stream([]) == [];
  }

  lemma StreamFirst(ms: seq<Message>, k: nat)
    requires ms != [] && k < |ms|
    ensures Stream(ms[..k + 1]) == Body(ms[0]) + "\n\n" + Stream(ms[1..][..k])
  {
    assert ms[..k + 1][1..] == ms[1..][..k];
  }

  lemma FirstEvent(m: Message, block: string, more: seq<string>)
    requires more != [] && Parse(block) == m && m.data != ""
    ensures Events(Front([block] + more)) == [m] + Events(Front(more))
  {
    assert Front([block] + more)[1..] == Front(more);
  }

  /** For every chunking of the stream, or of any part of it that has arrived, the client
      hands out exactly the framed messages, one for every frame that is complete. */
  lemma ClientReadsFrames(ms: seq<Message>, chunks: seq<string>) returns (k: nat)
    requires (forall i :: 0 <= i < |ms| ==> MessageOk(ms[i])) && Concat(chunks) <= Stream(ms)
    ensures k <= |ms| && Events(Front(SplitBlank(Concat(chunks)))) == ms[..k]
    ensures Stream(ms[..k]) <= Concat(chunks) && (k < |ms| ==> |Concat(chunks)| < |Stream(ms[..k + 1])|)
    ensures Concat(chunks) == Stream(ms) ==> Events(Front(SplitBlank(Concat(chunks)))) == ms
  {
    k := EventsOfPrefix(ms, Concat(chunks));
    assert ms[..|ms|] == ms;
  }

  // ---------- the server ----------

  /** What the change detection of jobEvents compares. */
  datatype Snapshot = Snapshot(status: JobStatus, stage: Stage, progress: int)

  /** One read of the job: what is compared, and the text of all its other fields. */
  datatype Reading = Reading(view: Snapshot, rest: string)

  datatype Sent = Progress(job: Reading) | Done(job: Reading) | Errored

  predicate Over(j: Reading) { j.view.status == Completed || j.view.status == Failed || j.view.status == Cancelled }

  /** What is sent from a poll on; None is a failed read, which ends the stream. */
  function SentAfter(last: Snapshot, polls: seq<Option<Reading>>): seq<Sent>
    decreases |polls|
  {
    if polls == [] || polls[0] == None then []
    else
      var j := polls[0].value;
      (if j.view != last then [Progress(j)] else []) + (if Over(j) then [Done(j)] else SentAfter(j.view, polls[1..]))
  }

  /** A first read that fails is told to the client, a later one ends the stream. */
  function SentFor(polls: seq<Option<Reading>>): seq<Sent> {
    if polls == [] then []
    else if polls[0] == None then [Errored]
    else
      var j := polls[0].value;
      [Progress(j)] + (if Over(j) then [Done(j)] else SentAfter(j.view, polls[1..]))
  }

  /** jobEvents over what it reads: the first read, then one per tick until the client goes. */
  method JobEvents(polls: seq<Option<Reading>>) returns (out: seq<Sent>)
    ensures out == SentFor(polls)
  {
    out := [];
    if |polls| == 0 {
      return;
    }
    if polls[0] == None {
      return [Errored];
    }
    var job := polls[0].value;
    out := [Progress(job)];
    if Over(job) {
      out := out + [Done(job)];
      return;
    }
    var last := job.view;
    for i := 1 to |polls|
      invariant SentFor(polls) == out + SentAfter(last, polls[i..])
    {
      SentStep(out, last, polls, i);
      hide SentAfter, SentFor;
      if polls[i] == None {
        return;
      }
      job := polls[i].value;
      if job.view != last {
        last := job.view;
        out := out + [Progress(job)];
      }
      if Over(job) {
        out := out + [Done(job)];
        return;
      }
    }
    assert out + [] == out;
  }

  /** One tick. */
  lemma SentStep(out: seq<Sent>, last: Snapshot, polls: seq<Option<Reading>>, i: nat)
    requires i < |polls|
    ensures polls[i] == None ==> out + SentAfter(last, polls[i..]) == out
    ensures
      polls[i].Some? ==>
        var j := polls[i].value;
        var sent := if j.view != last then out + [Progress(j)] else out;
        out + SentAfter(last, polls[i..])
          == if Over(j) then sent + [Done(j)] else sent + SentAfter(j.view, polls[i + 1..])
  {
    assert polls[i..][0] == polls[i] && polls[i..][1..] == polls[i + 1..];
    if polls[i].Some? {
      var j := polls[i].value;
      var a := if j.view != last then [Progress(j)] else [];
      var b := if Over(j) then [Done(j)] else SentAfter(j.view, polls[i + 1..]);
      assert SentAfter(last, polls[i..]) == a + b;
      hide SentAfter;
      assert out + (a + b) == (out + a) + b;
      assert out + [] == out;
    }
  }

  /** The reads up to the first failed or final one. */
  function Watched(polls: seq<Option<Reading>>): seq<Reading> {
    if polls == [] || polls[0] == None then []
    else [polls[0].value] + (if Over(polls[0].value) then [] else Watched(polls[1..]))
  }

  /** The first reading, and every other whose status, stage or progress is not that of the
      reading before it. */
  function Changes(s: seq<Reading>): seq<Reading> {
    if |s| <= 1 then s
    else Changes(s[..|s| - 1]) + (if s[|s| - 1].view != s[|s| - 2].view then [s[|s| - 1]] else [])
  }

  /** The changes in s after a reading with this view. */
  function Later(last: Snapshot, s: seq<Reading>): seq<Reading>
    decreases |s|
  {
    if s == [] then [] else (if s[0].view != last then [s[0]] else []) + Later(s[0].view, s[1..])
  }

  lemma LaterFirst(last: Snapshot, j: Reading, v: seq<Reading>)
    ensures Later(last, [j] + v) == (if j.view != last then [j] else []) + Later(j.view, v)
    ensures Later(last, []) == []
  {
    assert ([j] + v)[1..] == v;
  }

  lemma {:induction false} LaterSnoc(last: Snapshot, s: seq<Reading>, z: Reading)
    ensures
      Later(last, s + [z])
        == Later(last, s) + (if z.view != (if s == [] then last else s[|s| - 1].view) then [z] else [])
    decreases |s|
  {
    hide Later;
    var one := if z.view != (if s == [] then last else s[|s| - 1].view) then [z] else [];
    if s == [] {
      LaterFirst(last, z, []);
      LaterFirst(z.view, z, []);
      assert [] + [z] == [z] && [z] + [] == [z];
    } else {
      var x, t := s[0], s[1..];
      LaterSnoc(x.view, t, z);
      LaterFirst(last, x, t);
      LaterFirst(last, x, t + [z]);
      assert s == [x] + t && s + [z] == [x] + (t + [z]);
      var a := if x.view != last then [x] else [];
      assert (a + Later(x.view, t)) + one == a + (Later(x.view, t) + one);
    }
  }

  lemma ChangesSnoc(s: seq<Reading>, z: Reading)
    ensures s != [] ==> Changes(s + [z]) == Changes(s) + (if z.view != s[|s| - 1].view then [z] else [])
    ensures Changes([z]) == [z]
  {
    assert (s + [z])[..|s|] == s;
  }

  lemma {:induction false} ChangesLater(x: Reading, s: seq<Reading>)
    ensures Changes([x] + s) == [x] + Later(x.view, s)
    decreases |s|
  {
    hide Changes, Later;
    if s == [] {
      ChangesSnoc([], x);
      LaterFirst(x.view, x, []);
      assert [x] + [] == [x];
    } else {
      var i, z := s[..|s| - 1], s[|s| - 1];
      var t, u := [x] + i, Later(x.view, i);
      ChangesLater(x, i);
      LaterSnoc(x.view, i, z);
      ChangesSnoc(t, z);
      assert s == i + [z] && [x] + s == t + [z];
      assert t[|t| - 1] == if i == [] then x else i[|i| - 1];
      var more := if z.view != (if i == [] then x.view else i[|i| - 1].view) then [z] else [];
      assert ([x] + u) + more == [x] + (u + more);
    }
  }

  function AllProgress(s: seq<Reading>): seq<Sent> {
    if s == [] then [] else [Progress(s[0])] + AllProgress(s[1..])
  }

  lemma AllProgressFirst(x: Reading, s: seq<Reading>)
    ensures AllProgress([x] + s) == [Progress(x)] + AllProgress(s)
    ensures AllProgress([]) == []
  {
    assert ([x] + s)[1..] == s;
  }

  /** The final event, when the last state seen is final. */
  function Ending(w: seq<Reading>): seq<Sent> {
    if w != [] && Over(w[|w| - 1]) then [Done(w[|w| - 1])] else []
  }

  lemma EndingTail(j: Reading, v: seq<Reading>)
    ensures !Over(j) ==> Ending([j] + v) == Ending(v)
    ensures Ending([j]) == if Over(j) then [Done(j)] else []
  {}

  /** What is sent after a reading are the changes after it and the ending. */
  lemma {:induction false} SentIsLater(last: Snapshot, polls: seq<Option<Reading>>)
    ensures var w := Watched(polls); SentAfter(last, polls) == AllProgress(Later(last, w)) + Ending(w)
    decreases |polls|
  {
    if polls == [] || polls[0] == None {
      LaterFirst(last, Reading(last, ""), []);
      AllProgressFirst(Reading(last, ""), []);
    } else {
      var j := polls[0].value;
      SentIsLater(j.view, polls[1..]);
      var v := if Over(j) then [] else Watched(polls[1..]);
      var after := if Over(j) then [Done(j)] else SentAfter(j.view, polls[1..]);
      assert Watched(polls) == [j] + v;
      assert SentAfter(last, polls) == (if j.view != last then [Progress(j)] else []) + after;
      hide Watched, SentAfter;
      OneSent(last, j, v, after);
    }
  }

  lemma OneSent(last: Snapshot, j: Reading, v: seq<Reading>, after: seq<Sent>)
    requires if Over(j) then v == [] && after == [Done(j)] else after == AllProgress(Later(j.view, v)) + Ending(v)
    ensures
      (if j.view != last then [Progress(j)] else []) + after == AllProgress(Later(last, [j] + v)) + Ending([j] + v)
    ensures [Progress(j)] + after == AllProgress([j] + Later(j.view, v)) + Ending([j] + v)
  {
    LaterFirst(last, j, v);
    var l, end := Later(j.view, v), Ending([j] + v);
    AfterReading(j, v, after);
    AllProgressFirst(j, l);
    hide Later, AllProgress, Ending, Over;
    assert [] + l == l && [] + after == after;
    assert ([Progress(j)] + AllProgress(l)) + end == [Progress(j)] + (AllProgress(l) + end);
  }

  lemma AfterReading(j: Reading, v: seq<Reading>, after: seq<Sent>)
    requires if Over(j) then v == [] && after == [Done(j)] else after == AllProgress(Later(j.view, v)) + Ending(v)
    ensures after == AllProgress(Later(j.view, v)) + Ending([j] + v)
  {
    LaterFirst(j.view, j, []);
    EndingTail(j, v);
    AllProgressFirst(j, []);
    hide Later, AllProgress, Ending, Over;
    assert [j] + [] == [j] && [] + [Done(j)] == [Done(j)];
  }

  lemma NoChanges()
    ensures Changes([]) == [] && AllProgress([]) == [] && Ending([]) == []
  {}

  /** The stream is exactly the changes seen, each once and in order, then one final event
      if and only if the job was seen to be over. */
  lemma StreamIsChanges(polls: seq<Option<Reading>>)
    ensures
      var w := Watched(polls);
      SentFor(polls) == if polls != [] && polls[0] == None then [Errored] else AllProgress(Changes(w)) + Ending(w)
  {
    hide Changes, AllProgress, Ending, Later;
    if polls == [] || polls[0] == None {
      NoChanges();
    } else {
      var j := polls[0].value;
      SentIsLater(j.view, polls[1..]);
      var v := if Over(j) then [] else Watched(polls[1..]);
      OneSent(j.view, j, v, if Over(j) then [Done(j)] else SentAfter(j.view, polls[1..]));
      ChangesLater(j, v);
    }
  }

  // ---------- from end to end ----------

  function TypeOf(s: Sent): string {
    match s
    case Progress(_) => "progress"
    case Done(_) => "done"
    case Errored => "error"
  }

  /** The frames of what is sent; `json` is the encoder. */
  function MessagesOf(sent: seq<Sent>, json: Sent -> string): (ms: seq<Message>)
    ensures |ms| == |sent| && forall i :: 0 <= i < |ms| ==> ms[i] == Message(TypeOf(sent[i]), json(sent[i]))
  {
    seq(|sent|, i requires 0 <= i < |sent| => Message(TypeOf(sent[i]), json(sent[i])))
  }

  predicate Final(status: JobStatus) { status in {Completed, Failed, Cancelled} }

  /** However the stream is cut up on its way, the client hears a "progress" for every change of
      the job that the server saw, once and in order, and then a "done" if and only if the job
      was seen to be over. */
  lemma ClientHearsChanges(polls: seq<Option<Reading>>, json: Sent -> string, chunks: seq<string>)
    requires forall s: Sent :: '\n' !in json(s) && JsTrimmed(json(s)) && json(s) != ""
    requires polls != [] && polls[0].Some? && Concat(chunks) == Stream(MessagesOf(SentFor(polls), json))
    ensures
      var w := Watched(polls);
      var changes := Changes(w);
      var heard := Events(Front(SplitBlank(Concat(chunks))));
      && w != [] && |heard| == |changes| + (if Final(w[|w| - 1].view.status) then 1 else 0)
      && (forall k :: 0 <= k < |changes| ==> heard[k] == Message("progress", json(Progress(changes[k]))))
      && (Final(w[|w| - 1].view.status) ==> heard[|changes|] == Message("done", json(Done(w[|w| - 1]))))
  {
    hide SentFor, Changes, AllProgress, Ending, Watched, Stream, Events, SplitBlank, Front, JsTrimmed;
    StreamIsChanges(polls);
    HeardAll(SentFor(polls), json, chunks);
    WatchedSome(polls);
    HeardAre(Watched(polls), json);
  }

  lemma HeardAre(w: seq<Reading>, json: Sent -> string)
    requires w != []
    ensures
      var changes := Changes(w);
      var heard := MessagesOf(AllProgress(changes) + Ending(w), json);
      && |heard| == |changes| + (if Final(w[|w| - 1].view.status) then 1 else 0)
      && (forall k :: 0 <= k < |changes| ==> heard[k] == Message("progress", json(Progress(changes[k]))))
      && (Final(w[|w| - 1].view.status) ==> heard[|changes|] == Message("done", json(Done(w[|w| - 1]))))
  {
    AllProgressAt(Changes(w));
    EndingIs(w);
    hide Changes, AllProgress, Ending, Final;
  }

  /** A first read that fails is all that the client hears, as an "error". */
  lemma ClientHearsError(polls: seq<Option<Reading>>, json: Sent -> string, chunks: seq<string>)
    requires forall s: Sent :: '\n' !in json(s) && JsTrimmed(json(s)) && json(s) != ""
    requires polls != [] && polls[0] == None && Concat(chunks) == Stream(MessagesOf(SentFor(polls), json))
    ensures Events(Front(SplitBlank(Concat(chunks)))) == [Message("error", json(Errored))]
  {
    assert SentFor(polls) == [Errored];
    hide SentFor, Stream, Events, SplitBlank, Front;
    HeardAll(SentFor(polls), json, chunks);
  }

  lemma HeardAll(sent: seq<Sent>, json: Sent -> string, chunks: seq<string>)
    requires forall s: Sent :: '\n' !in json(s) && JsTrimmed(json(s)) && json(s) != ""
    requires Concat(chunks) == Stream(MessagesOf(sent, json))
    ensures Events(Front(SplitBlank(Concat(chunks)))) == MessagesOf(sent, json)
  {
    hide Stream, Events, SplitBlank, Front;
    var ms := MessagesOf(sent, json);
    forall i | 0 <= i < |ms|
      ensures MessageOk(ms[i])
    {
      TypesFramed(sent[i]);
    }
    var k := ClientReadsFrames(ms, chunks);
  }

  lemma WatchedSome(polls: seq<Option<Reading>>)
    requires polls != [] && polls[0].Some?
    ensures Watched(polls) != []
  {}

  lemma {:induction false} AllProgressAt(s: seq<Reading>)
    ensures |AllProgress(s)| == |s| && forall k :: 0 <= k < |s| ==> AllProgress(s)[k] == Progress(s[k])
    decreases |s|
  {
    if s != [] {
      AllProgressAt(s[1..]);
    }
  }

  lemma EndingIs(w: seq<Reading>)
    requires w != []
    ensures Ending(w) == if Final(w[|w| - 1].view.status) then [Done(w[|w| - 1])] else []
  {}

  lemma TypesFramed(s: Sent)
    ensures '\n' !in TypeOf(s) && JsTrimmed(TypeOf(s))
  {}
}
