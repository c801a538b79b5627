/** The markdown preview, and a reader of its output that knows nothing of the renderer. */
module Preview {
  import opened Text
  import opened JsText

  // ---------- reading HTML ----------

  datatype Tag = Ul | Li | H1 | H2 | H3 | P | Pre | Code

  function NameOf(t: Tag): string {
    match t
    case Ul => "ul"
    case Li => "li"
    case H1 => "h1"
    case H2 => "h2"
    case H3 => "h3"
    case P => "p"
    case Pre => "pre"
    case Code => "code"
  }

  datatype Found = NoTag | IsTag(tag: Tag)

  function TagOf(name: string): Found {
    if |name| == 1 && name[0] == 'p' then IsTag(P)
    else if |name| == 2 && name[0] == 'u' && name[1] == 'l' then IsTag(Ul)
    else if |name| == 2 && name[0] == 'l' && name[1] == 'i' then IsTag(Li)
    else if |name| == 2 && name[0] == 'h' && name[1] == '1' then IsTag(H1)
    else if |name| == 2 && name[0] == 'h' && name[1] == '2' then IsTag(H2)
    else if |name| == 2 && name[0] == 'h' && name[1] == '3' then IsTag(H3)
    else if |name| == 3 && name[0] == 'p' && name[1] == 'r' && name[2] == 'e' then IsTag(Pre)
    else if |name| == 4 && name[0] == 'c' && name[1] == 'o' && name[2] == 'd' && name[3] == 'e' then IsTag(Code)
    else NoTag
  }

  /** Where the first > is; past the end when there is none. */
  function FirstGt(s: string): (k: nat)
    ensures k <= |s| && (k < |s| ==> s[k] == '>')
  {
    if s == [] || s[0] == '>' then 0 else 1 + FirstGt(s[1..])
  }

  /** What may open inside what: blocks at the top, items in lists, code in pre. Lists and
      code can therefore never be open at once. */
  predicate MayOpen(stack: seq<Tag>, t: Tag) {
    match t
    case Li => stack == [Ul]
    case Code => stack == [Pre]
    case _ => stack == []
  }

  datatype Outcome = Bad | Open(stack: seq<Tag>)

  /** One tag, without its brackets. */
  function Apply(stack: seq<Tag>, body: string): Outcome {
    if |body| == 3 && body[0] == 'b' && body[1] == 'r' && body[2] == '/' then
      if stack == [] then Open(stack) else Bad
    else if body != [] && body[0] == '/' then
      if stack != [] && TagOf(body[1..]) == IsTag(stack[|stack| - 1]) then Open(stack[..|stack| - 1]) else Bad
    else
      if TagOf(body).IsTag? && MayOpen(stack, TagOf(body).tag) then Open(stack + [TagOf(body).tag]) else Bad
  }

  /** Reads to the end: every < begins a tag that fits, every > ends one. */
  function Scan(s: string, stack: seq<Tag>): Outcome
    decreases |s|
  {
    if s == [] then Open(stack)
    else if s[0] == '>' then Bad
    else if s[0] != '<' then Scan(s[1..], stack)
    else
      var k := FirstGt(s);
      if k == 0 || k == |s| then Bad
      else if Apply(stack, s[1..k]) == Bad then Bad
      else Scan(s[k + 1..], Apply(stack, s[1..k]).stack)
  }

  /** What a reader comes across: tags by their names, line breaks, and characters. */
  datatype Event = Opened(name: string) | Closed(name: string) | Broke | Shows(c: char)

  function EventOf(body: string): Event {
    if |body| == 3 && body[0] == 'b' && body[1] == 'r' && body[2] == '/' then Broke
    else if body != [] && body[0] == '/' then Closed(body[1..])
    else Opened(body)
  }

  /** The events of the output, entities decoded. */
  function EventsOf(s: string): seq<Event>
    decreases |s|
  {
    if s == [] then []
    else if s[0] == '<' then (var k := FirstGt(s); if k == |s| then [] else [EventOf(s[1..k])] + EventsOf(s[k + 1..]))
    else if s[0] == '&' then
      if |s| >= 5 && s[1] == 'a' && s[2] == 'm' && s[3] == 'p' && s[4] == ';' then [Shows('&')] + EventsOf(s[5..])
      else if |s| >= 4 && s[1] == 'l' && s[2] == 't' && s[3] == ';' then [Shows('<')] + EventsOf(s[4..])
      else if |s| >= 4 && s[1] == 'g' && s[2] == 't' && s[3] == ';' then [Shows('>')] + EventsOf(s[4..])
      else if |s| >= 6 && s[1] == 'q' && s[2] == 'u' && s[3] == 'o' && s[4] == 't' && s[5] == ';' then
        [Shows('"')] + EventsOf(s[6..])
      else [Shows('&')] + EventsOf(s[1..])
    else [Shows(s[0])] + EventsOf(s[1..])
  }

  /** The characters among some events. */
  function TextIn(es: seq<Event>): string {
    if es == [] then [] else (if es[0].Shows? then [es[0].c] else []) + TextIn(es[1..])
  }

  /** The text outside the tags, entities decoded. */
  function TextOf(s: string): string { TextIn(EventsOf(s)) }

  function Chars(t: string): (es: seq<Event>)
    ensures |es| == |t| && forall i :: 0 <= i < |t| ==> es[i] == Shows(t[i])
  {
    seq(|t|, i requires 0 <= i < |t| => Shows(t[i]))
  }

  // ---------- reading elements ----------

  /** Blocks by the name of their tag, line breaks, lists and code. */
  datatype Element = Block(name: string, text: string) | Break | Items(texts: seq<string>) | CodeText(text: string)

  /** The characters up to the next tag. */
  function TextAhead(es: seq<Event>): (t: string)
    ensures |t| <= |es|
  {
    if es == [] || !es[0].Shows? then [] else [es[0].c] + TextAhead(es[1..])
  }

  /** The items of a list, and what follows its end. */
  function ReadItems(es: seq<Event>): (r: (seq<string>, seq<Event>))
    ensures |r.1| <= |es|
    decreases |es|
  {
    if es == [] then ([], [])
    else if es[0] == Closed("ul") then ([], es[1..])
    else
      var t := TextAhead(es[1..]);
      if |es| < |t| + 2 then ([], [])
      else
        var (more, rest) := ReadItems(es[|t| + 2..]);
        ([t] + more, rest)
  }

  function ReadElements(es: seq<Event>): seq<Element>
    decreases |es|
  {
    if es == [] then []
    else if es[0] == Broke then [Break] + ReadElements(es[1..])
    else if es[0] == Opened("ul") then
      var (items, rest) := ReadItems(es[1..]);
      [Items(items)] + ReadElements(rest)
    else if es[0] == Opened("pre") then
      if |es| < 2 then []
      else
        var t := TextAhead(es[2..]);
        if |es| < |t| + 4 then [] else [CodeText(t)] + ReadElements(es[|t| + 4..])
    else if es[0].Opened? then
      var t := TextAhead(es[1..]);
      if |es| < |t| + 2 then [] else [Block(es[0].name, t)] + ReadElements(es[|t| + 2..])
    else []
  }

  // ---------- what elements are written as ----------

  function ItemEvents(texts: seq<string>): seq<Event> {
    if texts == [] then [] else [Opened("li")] + Chars(texts[0]) + [Closed("li")] + ItemEvents(texts[1..])
  }

  function ElementEvents(e: Element): seq<Event> {
    match e
    case Block(n, t) => [Opened(n)] + Chars(t) + [Closed(n)]
    case Break => [Broke]
    case Items(ts) => [Opened("ul")] + ItemEvents(ts) + [Closed("ul")]
    case CodeText(t) => [Opened("pre"), Opened("code")] + Chars(t) + [Closed("code"), Closed("pre")]
  }

  function Flatten(es: seq<Element>): seq<Event> {
    if es == [] then [] else ElementEvents(es[0]) + Flatten(es[1..])
  }

  lemma {:induction false} AheadOfTag(t: string, rest: seq<Event>)
    requires rest != [] && !rest[0].Shows?
    ensures TextAhead(Chars(t) + rest) == t
    decreases |t|
  {
    if t == [] {
      assert Chars(t) + rest == rest;
    } else {
      AheadOfTag(t[1..], rest);
      assert (Chars(t) + rest)[1..] == Chars(t[1..]) + rest;
    }
  }

  lemma {:induction false} ItemsRead(ts: seq<string>, rest: seq<Event>)
    ensures ReadItems(ItemEvents(ts) + ([Closed("ul")] + rest)) == (ts, rest)
    decreases |ts|
  {
    hide ReadItems, Chars;
    if ts == [] {
      assert ItemEvents(ts) + ([Closed("ul")] + rest) == [Closed("ul")] + rest;
      NoItemsRead(rest);
    } else {
      ItemsRead(ts[1..], rest);
      var after := ItemEvents(ts[1..]) + ([Closed("ul")] + rest);
      OneItemRead(ts[0], after);
      ItemThenItems(ts, [Closed("ul")] + rest);
      assert ts == [ts[0]] + ts[1..];
    }
  }

  lemma ItemThenItems(ts: seq<string>, end: seq<Event>)
    requires ts != []
    ensures
      ItemEvents(ts) + end == [Opened("li")] + (Chars(ts[0]) + ([Closed("li")] + (ItemEvents(ts[1..]) + end)))
  {
    hide Chars;
    RegroupFour([Opened("li")], Chars(ts[0]), [Closed("li")], ItemEvents(ts[1..]), end);
  }

  lemma RegroupFour(a: seq<Event>, b: seq<Event>, c: seq<Event>, d: seq<Event>, e: seq<Event>)
    ensures a + b + c + d + e == a + (b + (c + (d + e)))
  {
    assert a + b + c + (d + e) == a + (b + (c + (d + e)));
  }

  lemma NoItemsRead(rest: seq<Event>)
    ensures ReadItems([Closed("ul")] + rest) == ([], rest)
  {
    assert ([Closed("ul")] + rest)[1..] == rest;
  }

  lemma OneItemRead(t: string, after: seq<Event>)
    ensures
      var (more, rest) := ReadItems(after);
      ReadItems([Opened("li")] + (Chars(t) + ([Closed("li")] + after))) == ([t] + more, rest)
  {
    var tail := Chars(t) + ([Closed("li")] + after);
    var es := [Opened("li")] + tail;
    AheadOfTag(t, [Closed("li")] + after);
    assert es[1..] == tail && es[|t| + 2..] == after;
  }

  predicate Named(e: Element) { e.Block? ==> e.name != "ul" && e.name != "pre" }

  lemma OneRead(e: Element, rest: seq<Event>)
    requires Named(e)
    ensures ReadElements(ElementEvents(e) + rest) == [e] + ReadElements(rest)
  {
    hide ReadElements, ItemEvents, Chars;
    match e
    case Block(n, t) =>
      BlockRead(n, t, rest);
      var c := Chars(t);
      assert [Opened(n)] + c + [Closed(n)] + rest == [Opened(n)] + (c + ([Closed(n)] + rest));
    case Break => BreakRead(rest);
    case Items(ts) =>
      ListRead(ts, rest);
      var c := ItemEvents(ts);
      assert [Opened("ul")] + c + [Closed("ul")] + rest == [Opened("ul")] + (c + ([Closed("ul")] + rest));
    case CodeText(t) =>
      CodeRead(t, rest);
      var b, c, d := [Opened("pre"), Opened("code")], Chars(t), [Closed("code"), Closed("pre")];
      assert b + c + d + rest == b + (c + (d + rest));
  }

  lemma BlockRead(n: string, t: string, rest: seq<Event>)
    requires n != "ul" && n != "pre"
    ensures ReadElements([Opened(n)] + (Chars(t) + ([Closed(n)] + rest))) == [Block(n, t)] + ReadElements(rest)
  {
    AheadOfTag(t, [Closed(n)] + rest);
    var c := Chars(t);
    var tail := c + ([Closed(n)] + rest);
    var es := [Opened(n)] + tail;
    hide TextAhead, ReadItems, Chars;
    assert es[0] == Opened(n) && es[1..] == tail && es[|t| + 2..] == rest;
  }

  lemma BreakRead(rest: seq<Event>)
    ensures ReadElements([Broke] + rest) == [Break] + ReadElements(rest)
  {
    hide TextAhead, ReadItems;
    assert ([Broke] + rest)[0] == Broke && ([Broke] + rest)[1..] == rest;
  }

  lemma ListRead(ts: seq<string>, rest: seq<Event>)
    ensures
      ReadElements([Opened("ul")] + (ItemEvents(ts) + ([Closed("ul")] + rest))) == [Items(ts)] + ReadElements(rest)
  {
    ItemsRead(ts, rest);
    hide TextAhead, ReadItems, ItemEvents;
    var tail := ItemEvents(ts) + ([Closed("ul")] + rest);
    var es := [Opened("ul")] + tail;
    assert es[0] == Opened("ul") && es[1..] == tail;
  }

  lemma CodeRead(t: string, rest: seq<Event>)
    ensures
      ReadElements([Opened("pre"), Opened("code")] + (Chars(t) + ([Closed("code"), Closed("pre")] + rest)))
        == [CodeText(t)] + ReadElements(rest)
  {
    AheadOfTag(t, [Closed("code"), Closed("pre")] + rest);
    var c := Chars(t);
    var tail := c + ([Closed("code"), Closed("pre")] + rest);
    var es := [Opened("pre"), Opened("code")] + tail;
    hide TextAhead, ReadItems, Chars;
    assert es[0] == Opened("pre") && es[2..] == tail && es[|t| + 4..] == rest;
  }

  /** The reader finds the elements that were written. */
  lemma {:induction false} ElementsRead(es: seq<Element>)
    requires forall i :: 0 <= i < |es| ==> Named(es[i])
    ensures ReadElements(Flatten(es)) == es
    decreases |es|
  {
    hide ReadElements, ElementEvents;
    if es == [] {
      NothingRead();
    } else {
      ElementsRead(es[1..]);
      OneRead(es[0], Flatten(es[1..]));
      assert es == [es[0]] + es[1..];
    }
  }

  lemma NothingRead()
    ensures ReadElements([]) == []
  {}

  // ---------- escapeHtml ----------

  function EscapeHtml(s: string): string {
    ReplaceAll(ReplaceAll(ReplaceAll(ReplaceAll(s, '&', "&amp;"), '<', "&lt;"), '>', "&gt;"), '"', "&quot;")
  }

  function Entity(c: char): string {
    if c == '&' then "&amp;" else if c == '<' then "&lt;" else if c == '>' then "&gt;" else if c == '"' then "&quot;"
        else [c]
  }

  lemma ReplaceFirst(a: string, b: string, c: char, with: string)
    requires c !in a
    ensures ReplaceAll(a + b, c, with) == a + ReplaceAll(b, c, with)
    decreases |a|
  {
    if a == [] {
      assert a + b == b;
      assert [] + ReplaceAll(b, c, with) == ReplaceAll(b, c, with);
    } else {
      var rest := a[1..];
      assert c !in rest && a[0] != c && a == [a[0]] + rest;
      ReplaceFirst(rest, b, c, with);
      ReplaceStep(a[0], rest + b, c, with);
      hide ReplaceAll;
      assert a + b == [a[0]] + (rest + b);
      assert [a[0]] + (rest + ReplaceAll(b, c, with)) == a + ReplaceAll(b, c, with);
    }
  }

  /** One character through one replacement. */
  lemma ReplaceStep(x: char, s: string, c: char, with: string)
    ensures ReplaceAll([x] + s, c, with) == (if x == c then with else [x]) + ReplaceAll(s, c, with)
  {
    assert ([x] + s)[1..] == s;
  }

  /** Although four replacements run one after the other, each character is replaced once:
      the ampersands that the later ones put in come after the first has run. */
  lemma EscapeStep(s: string)
    requires s != []
    ensures EscapeHtml(s) == Entity(s[0]) + EscapeHtml(s[1..])
  {
    var x, t := s[0], s[1..];
    assert s == [x] + t;
    var t1 := ReplaceAll(t, '&', "&amp;");
    var t2 := ReplaceAll(t1, '<', "&lt;");
    var t3 := ReplaceAll(t2, '>', "&gt;");
    hide ReplaceAll;
    ReplaceStep(x, t, '&', "&amp;");
    var h1 := if x == '&' then "&amp;" else [x];
    if x == '<' {
      ReplaceStep(x, t1, '<', "&lt;");
    } else {
      ReplaceFirst(h1, t1, '<', "&lt;");
    }
    var h2 := if x == '<' then "&lt;" else h1;
    if x == '>' {
      ReplaceStep(x, t2, '>', "&gt;");
    } else {
      ReplaceFirst(h2, t2, '>', "&gt;");
    }
    var h3 := if x == '>' then "&gt;" else h2;
    if x == '"' {
      ReplaceStep(x, t3, '"', "&quot;");
    } else {
      ReplaceFirst(h3, t3, '"', "&quot;");
    }
  }

  // ---------- pieces of output ----------

  /** Wherever it stands, this piece takes the reader from one set of open tags to another,
      through these events. */
  ghost predicate Piece(a: string, from: seq<Tag>, to: seq<Tag>, shown: seq<Event>) {
    forall rest :: Scan(a + rest, from) == Scan(rest, to) && EventsOf(a + rest) == shown + EventsOf(rest)
  }

  lemma Joined(a: string, b: string, s0: seq<Tag>, s1: seq<Tag>, s2: seq<Tag>, x: seq<Event>, y: seq<Event>)
    requires Piece(a, s0, s1, x) && Piece(b, s1, s2, y)
    ensures Piece(a + b, s0, s2, x + y)
  {
    hide Scan, EventsOf;
    forall rest
      ensures Scan(a + b + rest, s0) == Scan(rest, s2) && EventsOf(a + b + rest) == x + y + EventsOf(rest)
    {
      assert a + b + rest == a + (b + rest);
      assert x + (y + EventsOf(rest)) == x + y + EventsOf(rest);
    }
  }

  lemma {:induction false} GtAfter(name: string, rest: string)
    requires '>' !in name
    ensures FirstGt(name + ">" + rest) == |name|
  {
    if name == [] {
      assert name + ">" + rest == ">" + rest;
    } else {
      assert forall i :: 0 <= i < |name[1..]| ==> name[1..][i] == name[i + 1];
      GtAfter(name[1..], rest);
      assert (name + ">" + rest)[1..] == name[1..] + ">" + rest;
    }
  }

  /** A tag with this text between its brackets. */
  lemma TagPiece(body: string, from: seq<Tag>, to: seq<Tag>)
    requires '>' !in body && Apply(from, body) == Open(to)
    ensures Piece("<" + body + ">", from, to, [EventOf(body)])
  {
    hide Apply, EventOf;
    forall rest
      ensures Scan("<" + body + ">" + rest, from) == Scan(rest, to)
      ensures EventsOf("<" + body + ">" + rest) == [EventOf(body)] + EventsOf(rest)
    {
      var s := "<" + body + ">" + rest;
      GtAfter("<" + body, rest);
      assert s[1..|body| + 1] == body && s[|body| + 2..] == rest;
    }
  }

  lemma NamesRead(t: Tag)
    ensures TagOf(NameOf(t)) == IsTag(t) && '>' !in NameOf(t) && NameOf(t) != [] && NameOf(t)[0] != '/'
    ensures NameOf(t)[0] != 'b' && EventOf(NameOf(t)) == Opened(NameOf(t))
      && EventOf("/" + NameOf(t)) == Closed(NameOf(t))
  {}

  function OpenTag(t: Tag): string { "<" + NameOf(t) + ">" }

  function CloseTag(t: Tag): string { "<" + ("/" + NameOf(t)) + ">" }

  lemma Opens(t: Tag, stack: seq<Tag>)
    requires MayOpen(stack, t)
    ensures Piece(OpenTag(t), stack, stack + [t], [Opened(NameOf(t))])
  {
    NamesRead(t);
    hide NameOf, TagOf, EventOf;
    TagPiece(NameOf(t), stack, stack + [t]);
  }

  lemma Closes(t: Tag, stack: seq<Tag>)
    ensures Piece(CloseTag(t), stack + [t], stack, [Closed(NameOf(t))])
  {
    NamesRead(t);
    var body := "/" + NameOf(t);
    hide NameOf, TagOf, EventOf;
    assert body[1..] == NameOf(t);
    assert (stack + [t])[..|stack|] == stack;
    TagPiece(body, stack + [t], stack);
  }

  lemma Breaks()
    ensures Piece("<br/>", [], [], [Broke])
  {
    TagPiece("br/", [], []);
    assert "<" + "br/" + ">" == "<br/>";
  }

  lemma EntityShows(c: char, rest: string)
    ensures EventsOf(Entity(c) + rest) == [Shows(c)] + EventsOf(rest)
  {
    var s := Entity(c) + rest;
    assert s[|Entity(c)|..] == rest;
    assert s[0] == Entity(c)[0];
    if c == '&' {
      assert s[1] == 'a' && s[2] == 'm' && s[3] == 'p' && s[4] == ';';
    } else if c == '<' {
      assert s[1] == 'l' && s[2] == 't' && s[3] == ';';
    } else if c == '>' {
      assert s[1] == 'g' && s[2] == 't' && s[3] == ';';
    } else if c == '"' {
      assert s[1] == 'q' && s[2] == 'u' && s[3] == 'o' && s[4] == 't' && s[5] == ';';
    }
  }

  lemma EntityPlain(c: char)
    ensures '<' !in Entity(c) && '>' !in Entity(c)
  {}

  lemma EntityPiece(c: char, stack: seq<Tag>)
    ensures Piece(Entity(c), stack, stack, [Shows(c)])
  {
    hide Scan, EventsOf, Entity;
    EntityPlain(c);
    forall rest
      ensures Scan(Entity(c) + rest, stack) == Scan(rest, stack)
      ensures EventsOf(Entity(c) + rest) == [Shows(c)] + EventsOf(rest)
    {
      PlainPrefix(Entity(c), rest, stack);
      EntityShows(c, rest);
    }
  }

  lemma {:induction false} PlainPrefix(a: string, rest: string, stack: seq<Tag>)
    requires '<' !in a && '>' !in a
    ensures Scan(a + rest, stack) == Scan(rest, stack)
  {
    if a == [] {
      assert a + rest == rest;
    } else {
      assert forall i :: 0 <= i < |a[1..]| ==> a[1..][i] == a[i + 1];
      PlainPrefix(a[1..], rest, stack);
      assert (a + rest)[1..] == a[1..] + rest;
    }
  }

  /** Whatever a text holds, escaped it opens and closes nothing and reads back as itself. */
  lemma {:induction false} EscapedPiece(s: string, stack: seq<Tag>)
    ensures Piece(EscapeHtml(s), stack, stack, Chars(s))
  {
    hide EscapeHtml, Entity, Piece;
    if s == [] {
      assert EscapeHtml(s) == "" by { NothingEscaped(); }
      NothingShown(stack);
      assert Chars(s) == [];
    } else {
      EscapeStep(s);
      EscapedPiece(s[1..], stack);
      EntityPiece(s[0], stack);
      Joined(Entity(s[0]), EscapeHtml(s[1..]), stack, stack, stack, [Shows(s[0])], Chars(s[1..]));
      assert [Shows(s[0])] + Chars(s[1..]) == Chars(s);
    }
  }

  lemma NothingEscaped()
    ensures EscapeHtml("") == ""
  {}

  lemma NothingShown(stack: seq<Tag>)
    ensures Piece("", stack, stack, [])
  {
    hide Scan, EventsOf;
    forall rest
      ensures Scan("" + rest, stack) == Scan(rest, stack) && EventsOf("" + rest) == [] + EventsOf(rest)
    {
      assert "" + rest == rest;
      assert [] + EventsOf(rest) == EventsOf(rest);
    }
  }

  /** The events of a text within a tag. */
  function InTag(name: string, text: string): seq<Event> { [Opened(name)] + Chars(text) + [Closed(name)] }

  lemma Within(t: Tag, text: string, stack: seq<Tag>)
    requires MayOpen(stack, t)
    ensures Piece(OpenTag(t) + EscapeHtml(text) + CloseTag(t), stack, stack, InTag(NameOf(t), text))
  {
    hide EscapeHtml, Piece, OpenTag, CloseTag, NameOf, Chars;
    Opens(t, stack);
    EscapedPiece(text, stack + [t]);
    Joined(OpenTag(t), EscapeHtml(text), stack, stack + [t], stack + [t], [Opened(NameOf(t))], Chars(text));
    Closes(t, stack);
    Joined(OpenTag(t) + EscapeHtml(text), CloseTag(t), stack, stack + [t], stack,
           [Opened(NameOf(t))] + Chars(text), [Closed(NameOf(t))]);
  }

  // ---------- the renderer ----------

  function DropJsSpace(s: string): (r: string)
    ensures |r| <= |s|
  {
    if s != [] && IsJsSpace(s[0]) then DropJsSpace(s[1..]) else s
  }

  /** ^\s*[-*]\s+ */
  predicate IsBulletLine(line: string) {
    var t := DropJsSpace(line);
    |t| >= 2 && (t[0] == '-' || t[0] == '*') && IsJsSpace(t[1])
  }

  function BulletText(line: string): string
    requires IsBulletLine(line)
  {
    DropJsSpace(DropJsSpace(line)[1..])
  }

  predicate AllJsSpace(s: string) { forall i :: 0 <= i < |s| ==> IsJsSpace(s[i]) }

  predicate NoJsSpaceAhead(s: string) { s == [] || !IsJsSpace(s[0]) }

  /** An indentation, a dash or a star, white space, and the item. */
  predicate BulletParts(line: string, indent: string, mark: char, gap: string, item: string) {
    && line == indent + [mark] + gap + item
    && AllJsSpace(indent) && (mark == '-' || mark == '*')
    && gap != [] && AllJsSpace(gap) && NoJsSpaceAhead(item)
  }

  lemma {:induction false} SpaceDropped(s: string, t: string)
    requires AllJsSpace(s) && NoJsSpaceAhead(t)
    ensures DropJsSpace(s + t) == t
    decreases |s|
  {
    if s == [] {
      assert s + t == t;
    } else {
      assert (s + t)[1..] == s[1..] + t;
      SpaceDropped(s[1..], t);
    }
  }

  /** How much white space a text starts with. */
  function JsIndent(s: string): (n: nat)
    ensures n <= |s| && AllJsSpace(s[..n]) && NoJsSpaceAhead(s[n..])
  {
    if s != [] && IsJsSpace(s[0]) then
      var n := JsIndent(s[1..]);
      assert s[1..][..n] == s[1..n + 1] && s[1..][n..] == s[n + 1..];
      n + 1
    else 0
  }

  lemma {:induction false} DroppedSpace(s: string)
    ensures DropJsSpace(s) == s[JsIndent(s)..]
    decreases |s|
  {
    hide IsJsSpace, AllJsSpace;
    if s != [] && IsJsSpace(s[0]) {
      DroppedSpace(s[1..]);
      assert s[1..][JsIndent(s[1..])..] == s[JsIndent(s)..];
    }
  }

  /** The lines taken for bullets are those with these parts, and the item is what is left. */
  lemma BulletIs(line: string)
    ensures IsBulletLine(line) <==> exists a, m, g, t :: BulletParts(line, a, m, g, t)
    ensures forall a, m, g, t :: BulletParts(line, a, m, g, t) ==> IsBulletLine(line) && BulletText(line) == t
  {
    if IsBulletLine(line) {
      BulletHasParts(line);
    }
    forall a, m, g, t | BulletParts(line, a, m, g, t)
      ensures IsBulletLine(line) && BulletText(line) == t
    {
      PartsAreBullet(line, a, m, g, t);
    }
  }

  lemma PartsAreBullet(line: string, indent: string, mark: char, gap: string, item: string)
    requires BulletParts(line, indent, mark, gap, item)
    ensures IsBulletLine(line) && BulletText(line) == item
  {
    hide IsJsSpace;
    var t := [mark] + (gap + item);
    assert line == indent + t;
    assert !IsJsSpace(mark) by { MarksAreInk(); }
    SpaceDropped(indent, t);
    assert t[1..] == gap + item;
    SpaceDropped(gap, item);
  }

  lemma MarksAreInk()
    ensures !IsJsSpace('-') && !IsJsSpace('*')
  {}

  lemma BulletHasParts(line: string)
    requires IsBulletLine(line)
    ensures exists a, m, g, t :: BulletParts(line, a, m, g, t)
  {
    hide IsJsSpace, DropJsSpace, AllJsSpace, JsIndent, NoJsSpaceAhead;
    DroppedSpace(line);
    var n := JsIndent(line);
    var t := line[n + 1..];
    assert line[n..] == [line[n]] + t && t[0] == line[n + 1];
    var m := JsIndent(t);
    assert m > 0 by { SpaceBelow(t); }
    assert line == line[..n] + [line[n]] + t[..m] + t[m..];
    assert BulletParts(line, line[..n], line[n], t[..m], t[m..]);
  }

  lemma SpaceBelow(t: string)
    requires t != [] && IsJsSpace(t[0])
    ensures JsIndent(t) > 0
  {}

  /** ^#{n}\s+ */
  predicate IsHeadingLine(n: nat, line: string) {
    |line| > n && (forall i :: 0 <= i < n ==> line[i] == '#') && IsJsSpace(line[n])
  }

  function DropCr(raw: string): string {
    if raw != [] && raw[|raw| - 1] == '\r' then raw[..|raw| - 1] else raw
  }

  /** What a line outside code shows: its text without the marker. */
  function LineText(line: string): string {
    if IsBulletLine(line) then BulletText(line)
    else if IsHeadingLine(3, line) then line[4..]
    else if IsHeadingLine(2, line) then line[3..]
    else if IsHeadingLine(1, line) then line[2..]
    else if JsTrim(line) == "" then ""
    else line
  }

  /** What a document shows, line by line; inCode says whether a fence is open. */
  function Shown(raws: seq<string>, inCode: bool): string {
    if raws == [] then []
    else
      var line := DropCr(raws[0]);
      if "```" <= line then Shown(raws[1..], !inCode)
      else (if inCode then line + "\n" else LineText(line)) + Shown(raws[1..], inCode)
  }

  // ---------- the elements of a document ----------

  /** How many hashes a line starts with. */
  function Hashes(s: string): (n: nat)
    ensures n <= |s|
  {
    if s != [] && s[0] == '#' then 1 + Hashes(s[1..]) else 0
  }

  /** A line of its own, outside code and lists: a heading by its hashes, one to three of them
      before white space, an empty line a break, any other a paragraph. */
  function LineElement(line: string): Element {
    var n := Hashes(line);
    if 1 <= n <= 3 && n < |line| && IsJsSpace(line[n]) then Block("h" + Dec(n), line[n + 1..])
    else if JsTrim(line) == "" then Break
    else Block("p", line)
  }

  predicate IsFence(raw: string) { "```" <= DropCr(raw) }

  /** The lines up to the next fence. */
  function BeforeFence(raws: seq<string>): (n: nat)
    ensures n <= |raws|
  {
    if raws == [] || IsFence(raws[0]) then 0 else 1 + BeforeFence(raws[1..])
  }

  /** Consecutive bullets. */
  function BulletRun(raws: seq<string>): (n: nat)
    ensures n <= |raws|
  {
    if raws == [] || IsFence(raws[0]) || !IsBulletLine(DropCr(raws[0])) then 0 else 1 + BulletRun(raws[1..])
  }

  function CodeOf(raws: seq<string>): string {
    if raws == [] then [] else DropCr(raws[0]) + "\n" + CodeOf(raws[1..])
  }

  function BulletTexts(raws: seq<string>): seq<string>
    requires forall i :: 0 <= i < |raws| ==> IsBulletLine(DropCr(raws[i]))
  {
    if raws == [] then [] else [BulletText(DropCr(raws[0]))] + BulletTexts(raws[1..])
  }

  lemma {:induction false} RunOfBullets(raws: seq<string>)
    ensures forall i :: 0 <= i < BulletRun(raws) ==> IsBulletLine(DropCr(raws[i]))
  {
    hide IsBulletLine, DropCr;
    if raws != [] {
      RunOfBullets(raws[1..]);
    }
  }

  /** The elements of a document: the lines between two fences are code, consecutive bullets
      are one list, any other line is an element of its own. */
  function Elements(raws: seq<string>): seq<Element>
    decreases |raws|
  {
    if raws == [] then []
    else if IsFence(raws[0]) then
      var n := BeforeFence(raws[1..]);
      [CodeText(CodeOf(raws[1..][..n]))]
      + if n + 1 < |raws| then Elements(raws[n + 2..]) else []
    else if IsBulletLine(DropCr(raws[0])) then
      var n := BulletRun(raws);
      RunOfBullets(raws);
      [Items(BulletTexts(raws[..n]))] + Elements(raws[n..])
    else [LineElement(DropCr(raws[0]))] + Elements(raws[1..])
  }

  // ---------- the same, line by line ----------

  /** What a line outside code and lists is written as. */
  function LineEvents(line: string): seq<Event> {
    if IsHeadingLine(3, line) then InTag("h3", line[4..])
    else if IsHeadingLine(2, line) then InTag("h2", line[3..])
    else if IsHeadingLine(1, line) then InTag("h1", line[2..])
    else if JsTrim(line) == "" then [Broke]
    else InTag("p", line)
  }

  const CODE_BEGINS: seq<Event> := [Opened("pre"), Opened("code")]
  const CODE_ENDS: seq<Event> := [Closed("code"), Closed("pre")]

  function ListEnd(listOpen: bool): seq<Event> { if listOpen then [Closed("ul")] else [] }

  /** The events from here on, given what is open. */
  function Ahead(raws: seq<string>, inCode: bool, listOpen: bool): seq<Event>
    decreases |raws|
  {
    if raws == [] then ListEnd(listOpen) + if inCode then CODE_ENDS else []
    else
      var line := DropCr(raws[0]);
      if "```" <= line then
        ListEnd(listOpen) + (if inCode then CODE_ENDS else CODE_BEGINS) + Ahead(raws[1..], !inCode, false)
      else if inCode then Chars(line + "\n") + Ahead(raws[1..], true, listOpen)
      else if IsBulletLine(line) then
        (if listOpen then [] else [Opened("ul")]) + InTag("li", BulletText(line)) + Ahead(raws[1..], false, true)
      else ListEnd(listOpen) + LineEvents(line) + Ahead(raws[1..], false, false)
  }

  lemma {:induction false} HashesAre(n: nat, line: string)
    requires IsHeadingLine(n, line)
    ensures Hashes(line) == n
    decreases n
  {
    if n > 0 {
      assert line[1..][n - 1] == line[n];
      assert forall i :: 0 <= i < n - 1 ==> line[1..][i] == line[i + 1];
      HashesAre(n - 1, line[1..]);
    }
  }

  lemma {:induction false} HashesHead(line: string)
    ensures var n := Hashes(line); n < |line| && IsJsSpace(line[n]) ==> IsHeadingLine(n, line)
    decreases |line|
  {
    if line != [] && line[0] == '#' {
      HashesHead(line[1..]);
      var n := Hashes(line[1..]);
      if n < |line[1..]| && IsJsSpace(line[1..][n]) {
        assert line[n + 1] == line[1..][n];
        forall i | 0 <= i < n + 1
          ensures line[i] == '#'
        {
          assert i > 0 ==> line[i] == line[1..][i - 1];
        }
      }
    }
  }

  lemma HeadingNames()
    ensures "h" + Dec(1) == "h1" && "h" + Dec(2) == "h2" && "h" + Dec(3) == "h3"
  {
    assert Dec(1) == "1" && Dec(2) == "2" && Dec(3) == "3";
  }

  lemma HeadingElement(n: nat, line: string)
    requires 1 <= n <= 3 && IsHeadingLine(n, line)
    ensures LineElement(line) == Block("h" + Dec(n), line[n + 1..])
    ensures forall m :: IsHeadingLine(m, line) ==> m == n
  {
    HashesAre(n, line);
    forall m | IsHeadingLine(m, line)
      ensures m == n
    {
      HashesAre(m, line);
    }
    hide Hashes, Dec, JsTrim;
  }

  lemma OtherElement(line: string)
    requires !IsHeadingLine(1, line) && !IsHeadingLine(2, line) && !IsHeadingLine(3, line)
    ensures LineElement(line) == if JsTrim(line) == "" then Break else Block("p", line)
  {
    HashesHead(line);
    hide IsHeadingLine, Hashes, Dec, JsTrim;
  }

  /** A line is written as its element. */
  lemma LineIsElement(line: string)
    ensures LineEvents(line) == ElementEvents(LineElement(line)) && Named(LineElement(line))
  {
    hide IsHeadingLine, LineElement, JsTrim, Dec, Chars;
    HeadingNames();
    if IsHeadingLine(3, line) {
      HeadingElement(3, line);
    } else if IsHeadingLine(2, line) {
      HeadingElement(2, line);
    } else if IsHeadingLine(1, line) {
      HeadingElement(1, line);
    } else {
      OtherElement(line);
    }
  }

  /** An open list goes on as far as there are bullets, and ends. */
  lemma {:induction false} ListAhead(raws: seq<string>)
    ensures
      var n := BulletRun(raws);
      && (forall i :: 0 <= i < n ==> IsBulletLine(DropCr(raws[i])))
      && Ahead(raws, false, true)
          == ItemEvents(BulletTexts(raws[..n])) + [Closed("ul")] + Ahead(raws[n..], false, false)
    decreases |raws|
  {
    hide Ahead, IsFence, IsBulletLine, DropCr, BulletText, InTag;
    var n := BulletRun(raws);
    RunOfBullets(raws);
    if n == 0 {
      assert raws[n..] == raws && raws[..n] == [];
      assert ItemEvents(BulletTexts(raws[..n])) == [];
      ListEnds(raws);
      assert [] + [Closed("ul")] == [Closed("ul")];
    } else {
      ListAhead(raws[1..]);
      assert raws[..n][1..] == raws[1..][..n - 1] && raws[1..][n - 1..] == raws[n..];
      NextBullet(raws);
      var t, ts := BulletText(DropCr(raws[0])), BulletTexts(raws[1..][..n - 1]);
      assert BulletTexts(raws[..n]) == [t] + ts;
      hide BulletRun, BulletTexts;
      ItemFirst(t, ts);
      RegroupList(InTag("li", t), ItemEvents(ts), Ahead(raws[n..], false, false));
    }
  }

  lemma RegroupList(x: seq<Event>, y: seq<Event>, z: seq<Event>)
    ensures x + (y + [Closed("ul")] + z) == (x + y) + [Closed("ul")] + z
  {}

  lemma NextBullet(raws: seq<string>)
    requires raws != [] && !IsFence(raws[0]) && IsBulletLine(DropCr(raws[0]))
    ensures Ahead(raws, false, true) == InTag("li", BulletText(DropCr(raws[0]))) + Ahead(raws[1..], false, true)
  {
    hide IsBulletLine, DropCr, BulletText, InTag;
    var x := InTag("li", BulletText(DropCr(raws[0])));
    assert [] + x == x;
  }

  lemma ItemFirst(t: string, ts: seq<string>)
    ensures ItemEvents([t] + ts) == InTag("li", t) + ItemEvents(ts)
  {
    assert ([t] + ts)[1..] == ts;
  }

  lemma ListEnds(raws: seq<string>)
    requires BulletRun(raws) == 0
    ensures Ahead(raws, false, true) == [Closed("ul")] + Ahead(raws, false, false)
  {
    hide IsBulletLine, DropCr, LineEvents, BulletText, Chars;
    if raws != [] {
      var line, rest := DropCr(raws[0]), raws[1..];
      if "```" <= line {
        var x, y := CODE_BEGINS, Ahead(rest, true, false);
        assert [Closed("ul")] + x + y == [Closed("ul")] + ([] + x + y);
      } else {
        var x, y := LineEvents(line), Ahead(rest, false, false);
        assert [Closed("ul")] + x + y == [Closed("ul")] + ([] + x + y);
      }
    }
  }

  lemma {:induction false} CodeAhead(raws: seq<string>)
    ensures
      var n := BeforeFence(raws);
      Ahead(raws, true, false)
        == Chars(CodeOf(raws[..n])) + (CODE_ENDS + if n < |raws| then Ahead(raws[n + 1..], false, false) else [])
    decreases |raws|
  {
    hide Ahead, DropCr, Chars, CodeOf;
    var n := BeforeFence(raws);
    if n == 0 {
      assert raws[..n] == [];
      CodeStops(raws);
    } else {
      CodeAhead(raws[1..]);
      CodeLineFirst(raws);
      assert raws[..n][1..] == raws[1..][..n - 1] && raws[..n][0] == raws[0];
      assert n < |raws| ==> raws[1..][n..] == raws[n + 1..];
      CodeTextFirst(raws[..n]);
      var line, more := Chars(DropCr(raws[0]) + "\n"), Chars(CodeOf(raws[1..][..n - 1]));
      var rest := CODE_ENDS + if n < |raws| then Ahead(raws[n + 1..], false, false) else [];
      assert line + (more + rest) == (line + more) + rest;
    }
  }

  lemma CodeTextFirst(raws: seq<string>)
    requires raws != []
    ensures Chars(CodeOf(raws)) == Chars(DropCr(raws[0]) + "\n") + Chars(CodeOf(raws[1..]))
  {
    hide DropCr;
    var a, b := DropCr(raws[0]) + "\n", CodeOf(raws[1..]);
    assert Chars(a + b) == Chars(a) + Chars(b);
  }

  lemma CodeLineFirst(raws: seq<string>)
    requires raws != [] && !IsFence(raws[0])
    ensures Ahead(raws, true, false) == Chars(DropCr(raws[0]) + "\n") + Ahead(raws[1..], true, false)
  {
    hide DropCr, Chars;
  }

  lemma CodeStops(raws: seq<string>)
    requires raws == [] || IsFence(raws[0])
    ensures
      Ahead(raws, true, false)
        == Chars(CodeOf([])) + (CODE_ENDS + if raws != [] then Ahead(raws[1..], false, false) else [])
  {
    hide DropCr;
    assert CodeOf([]) == [] && Chars([]) == [];
    if raws == [] {
      assert [] + CODE_ENDS == [] + (CODE_ENDS + []);
    } else {
      var x := Ahead(raws[1..], false, false);
      assert [] + CODE_ENDS + x == [] + (CODE_ENDS + x);
    }
  }

  lemma {:induction false} AheadIsElements(raws: seq<string>)
    ensures Ahead(raws, false, false) == Flatten(Elements(raws))
    ensures forall i :: 0 <= i < |Elements(raws)| ==> Named(Elements(raws)[i])
    decreases |raws|
  {
    hide Ahead, Elements, Flatten, IsBulletLine, DropCr, LineElement, LineEvents, Named, BulletText, BulletTexts;
    if raws == [] {
      NothingAhead();
    } else if IsFence(raws[0]) {
      var n := BeforeFence(raws[1..]);
      AheadIsElements(if n + 1 < |raws| then raws[n + 2..] else []);
      CodeBegins(raws);
    } else if IsBulletLine(DropCr(raws[0])) {
      AheadIsElements(raws[BulletRun(raws)..]);
      ListBegins(raws);
    } else {
      AheadIsElements(raws[1..]);
      LineBegins(raws);
    }
  }

  lemma CodeBegins(raws: seq<string>)
    requires raws != [] && IsFence(raws[0])
    ensures
      var n := BeforeFence(raws[1..]);
      var rest := if n + 1 < |raws| then raws[n + 2..] else [];
      var t := CodeOf(raws[1..][..n]);
      && Elements(raws) == [CodeText(t)] + Elements(rest)
      && Named(CodeText(t))
      && (Ahead(rest, false, false) == Flatten(Elements(rest)) ==> Ahead(raws, false, false) == Flatten(Elements(raws)))
  {
    hide *;
    ElementsOfCode(raws);
    CodeOnward(raws);
    var n := BeforeFence(raws[1..]);
    var t := CodeOf(raws[1..][..n]);
    CodeFirst(t, Elements(if n + 1 < |raws| then raws[n + 2..] else []));
  }

  lemma CodeFirst(t: string, es: seq<Element>)
    ensures Flatten([CodeText(t)] + es) == CODE_BEGINS + Chars(t) + CODE_ENDS + Flatten(es) && Named(CodeText(t))
  {
    FlattenFirst(CodeText(t), es);
    hide Flatten, Chars;
  }

  /** Code and what follows it. */
  lemma CodeOnward(raws: seq<string>)
    requires raws != [] && IsFence(raws[0])
    ensures
      var n := BeforeFence(raws[1..]);
      Ahead(raws, false, false)
        == CODE_BEGINS + Chars(CodeOf(raws[1..][..n])) + CODE_ENDS
          + Ahead(if n + 1 < |raws| then raws[n + 2..] else [], false, false)
  {
    hide Ahead, DropCr, Chars, CodeOf, BeforeFence;
    var n := BeforeFence(raws[1..]);
    var t := CodeOf(raws[1..][..n]);
    FenceFirst(raws);
    CodeAhead(raws[1..]);
    if n + 1 < |raws| {
      assert raws[1..][n + 1..] == raws[n + 2..];
      RegroupCode(Chars(t), Ahead(raws[n + 2..], false, false));
    } else {
      NothingAhead();
      RegroupCode(Chars(t), []);
    }
  }

  lemma RegroupCode(c: seq<Event>, f: seq<Event>)
    ensures CODE_BEGINS + (c + (CODE_ENDS + f)) == CODE_BEGINS + c + CODE_ENDS + f
  {
  }

  lemma ElementsOfCode(raws: seq<string>)
    requires raws != [] && IsFence(raws[0])
    ensures
      var n := BeforeFence(raws[1..]);
      Elements(raws)
        == [CodeText(CodeOf(raws[1..][..n]))] + Elements(if n + 1 < |raws| then raws[n + 2..] else [])
  {
    hide IsBulletLine, LineElement, CodeOf, BulletTexts, DropCr;
  }

  lemma FenceFirst(raws: seq<string>)
    requires raws != [] && IsFence(raws[0])
    ensures Ahead(raws, false, false) == CODE_BEGINS + Ahead(raws[1..], true, false)
  {
    hide DropCr;
    assert [] + CODE_BEGINS == CODE_BEGINS;
  }

  lemma ListBegins(raws: seq<string>)
    requires raws != [] && !IsFence(raws[0]) && IsBulletLine(DropCr(raws[0]))
    ensures 0 < BulletRun(raws) && forall i :: 0 <= i < BulletRun(raws) ==> IsBulletLine(DropCr(raws[i]))
    ensures
      var rest := raws[BulletRun(raws)..];
      var e := Items(BulletTexts(raws[..BulletRun(raws)]));
      && Elements(raws) == [e] + Elements(rest)
      && Named(e)
      && (Ahead(rest, false, false) == Flatten(Elements(rest)) ==> Ahead(raws, false, false) == Flatten(Elements(raws)))
  {
    hide Ahead, Flatten, DropCr, IsBulletLine, LineElement, CodeOf, ItemEvents, BulletTexts;
    ListAhead(raws);
    var rest := raws[BulletRun(raws)..];
    var ts := BulletTexts(raws[..BulletRun(raws)]);
    assert Elements(raws) == [Items(ts)] + Elements(rest);
    hide Elements;
    BulletFirst(raws);
    FlattenFirst(Items(ts), Elements(rest));
    var c, f := ItemEvents(ts), Ahead(rest, false, false);
    assert [Opened("ul")] + (c + [Closed("ul")] + f) == [Opened("ul")] + c + [Closed("ul")] + f;
  }

  lemma LineBegins(raws: seq<string>)
    requires raws != [] && !IsFence(raws[0]) && !IsBulletLine(DropCr(raws[0]))
    ensures
      var e := LineElement(DropCr(raws[0]));
      && Elements(raws) == [e] + Elements(raws[1..])
      && Named(e)
      && (Ahead(raws[1..], false, false) == Flatten(Elements(raws[1..]))
          ==> Ahead(raws, false, false) == Flatten(Elements(raws)))
  {
    hide Flatten, DropCr, IsBulletLine, LineElement, LineEvents, CodeOf, BulletTexts, ElementEvents, Named;
    LineIsElement(DropCr(raws[0]));
    FlattenFirst(LineElement(DropCr(raws[0])), Elements(raws[1..]));
    var x := LineEvents(DropCr(raws[0]));
    assert [] + x == x;
  }

  lemma NothingAhead()
    ensures Ahead([], false, false) == [] && Elements([]) == [] && Flatten([]) == []
  {}

  lemma BulletFirst(raws: seq<string>)
    requires raws != [] && !IsFence(raws[0]) && IsBulletLine(DropCr(raws[0]))
    ensures Ahead(raws, false, false) == [Opened("ul")] + Ahead(raws, false, true)
  {
    hide IsBulletLine, DropCr, LineEvents, BulletText, InTag;
    var x, y := InTag("li", BulletText(DropCr(raws[0]))), Ahead(raws[1..], false, true);
    assert [Opened("ul")] + x + y == [Opened("ul")] + ([] + x + y);
  }

  lemma FlattenFirst(e: Element, es: seq<Element>)
    ensures Flatten([e] + es) == ElementEvents(e) + Flatten(es)
  {
    hide ElementEvents;
    assert ([e] + es)[1..] == es;
  }

  // ---------- the text of the events ----------

  lemma {:induction false} TextInAppend(a: seq<Event>, b: seq<Event>)
    ensures TextIn(a + b) == TextIn(a) + TextIn(b)
    decreases |a|
  {
    if a == [] {
      assert a + b == b && [] + TextIn(b) == TextIn(b);
    } else {
      var e, t := a[0], a[1..];
      assert a == [e] + t && a + b == [e] + (t + b);
      TextInAppend(t, b);
      TextInFirst(e, t);
      TextInFirst(e, t + b);
      hide TextIn;
      var x := if e.Shows? then [e.c] else [];
      assert x + (TextIn(t) + TextIn(b)) == (x + TextIn(t)) + TextIn(b);
    }
  }

  lemma TextInFirst(e: Event, es: seq<Event>)
    ensures TextIn([e] + es) == (if e.Shows? then [e.c] else []) + TextIn(es)
  {
    assert ([e] + es)[1..] == es;
  }

  lemma {:induction false} TextInChars(t: string)
    ensures TextIn(Chars(t)) == t
    decreases |t|
  {
    if t != [] {
      TextInChars(t[1..]);
      assert Chars(t)[1..] == Chars(t[1..]);
    }
  }

  lemma TextInTag(name: string, t: string)
    ensures TextIn(InTag(name, t)) == t
  {
    TextInAppend([Opened(name)] + Chars(t), [Closed(name)]);
    TextInAppend([Opened(name)], Chars(t));
    TextInChars(t);
    TextInNone(name);
    hide TextIn, Chars;
    assert "" + t + "" == t;
  }

  lemma TextInNone(name: string)
    ensures TextIn([Opened(name)]) == "" && TextIn([Closed(name)]) == "" && TextIn([Broke]) == "" && TextIn([]) == ""
    ensures TextIn(CODE_BEGINS) == "" && TextIn(CODE_ENDS) == ""
  {
    assert CODE_BEGINS[1..][1..] == [] && CODE_ENDS[1..][1..] == [];
  }

  /** Its text is that of the lines. */
  lemma {:induction false} AheadShows(raws: seq<string>, inCode: bool, listOpen: bool)
    ensures TextIn(Ahead(raws, inCode, listOpen)) == Shown(raws, inCode)
    decreases |raws|
  {
    hide TextIn, DropCr, IsBulletLine, JsTrim, Chars, InTag, IsHeadingLine;
    TextInNone("ul");
    TextInAppend(ListEnd(listOpen), if inCode then CODE_ENDS else []);
    if raws != [] {
      var line, rest := DropCr(raws[0]), raws[1..];
      if "```" <= line {
        AheadShows(rest, !inCode, false);
        var c := if inCode then CODE_ENDS else CODE_BEGINS;
        ThreeTexts(ListEnd(listOpen), c, Ahead(rest, !inCode, false));
      } else if inCode {
        AheadShows(rest, true, listOpen);
        TextInChars(line + "\n");
        TextInAppend(Chars(line + "\n"), Ahead(rest, true, listOpen));
      } else if IsBulletLine(line) {
        AheadShows(rest, false, true);
        TextInTag("li", BulletText(line));
        ThreeTexts(if listOpen then [] else [Opened("ul")], InTag("li", BulletText(line)), Ahead(rest, false, true));
      } else {
        AheadShows(rest, false, false);
        LineShows(line);
        ThreeTexts(ListEnd(listOpen), LineEvents(line), Ahead(rest, false, false));
      }
    }
  }

  lemma ThreeTexts(a: seq<Event>, b: seq<Event>, c: seq<Event>)
    requires TextIn(a) == ""
    ensures TextIn(a + b + c) == TextIn(b) + TextIn(c)
  {
    TextInAppend(a + b, c);
    TextInAppend(a, b);
  }

  lemma LineShows(line: string)
    requires !IsBulletLine(line)
    ensures TextIn(LineEvents(line)) == LineText(line)
  {
    hide TextIn, IsBulletLine, JsTrim, InTag;
    TextInNone("");
    if IsHeadingLine(3, line) {
      TextInTag("h3", line[4..]);
    } else if IsHeadingLine(2, line) {
      TextInTag("h2", line[3..]);
    } else if IsHeadingLine(1, line) {
      TextInTag("h1", line[2..]);
    } else {
      TextInTag("p", line);
    }
  }

  // ---------- the loop ----------

  function StackOf(inCode: bool, listOpen: bool): seq<Tag> {
    if inCode then [Pre, Code] else if listOpen then [Ul] else []
  }

  class Html {
    var text: string
    var inCode: bool
    var listOpen: bool

    constructor ()
      ensures text == "" && !inCode && !listOpen
    {
      text, inCode, listOpen := "", false, false;
    }

    /** The output so far reads as these tags open after these events. */
    ghost predicate Reads(shown: seq<Event>)
      reads this
    {
      !(inCode && listOpen) && Piece(text, [], StackOf(inCode, listOpen), shown)
    }

    method CloseList(ghost shown: seq<Event>)
      requires Reads(shown)
      modifies this
      ensures Reads(shown + ListEnd(old(listOpen))) && !listOpen && inCode == old(inCode)
    {
      hide Piece;
      assert shown + [] == shown && [] + [Ul] == [Ul];
      if listOpen {
        Closes(Ul, []);
        Joined(text, CloseTag(Ul), [], [Ul], [], shown, [Closed("ul")]);
        text := text + CloseTag(Ul);
        listOpen := false;
      }
    }

    method Fence(ghost shown: seq<Event>)
      requires Reads(shown)
      modifies this
      ensures inCode == !old(inCode) && !listOpen
      ensures Reads(shown + ListEnd(old(listOpen)) + if old(inCode) then CODE_ENDS else CODE_BEGINS)
    {
      ghost var before := shown + ListEnd(listOpen);
      CloseList(shown);
      hide Piece;
      if inCode {
        EndsCode();
        Joined(text, CloseTag(Code) + CloseTag(Pre), [], [Pre, Code], [], before, CODE_ENDS);
        text := text + (CloseTag(Code) + CloseTag(Pre));
        inCode := false;
      } else {
        BeginsCode();
        Joined(text, OpenTag(Pre) + OpenTag(Code), [], [], [Pre, Code], before, CODE_BEGINS);
        text := text + (OpenTag(Pre) + OpenTag(Code));
        inCode := true;
      }
    }

    method CodeLine(line: string, ghost shown: seq<Event>)
      requires Reads(shown) && inCode
      modifies this
      ensures Reads(shown + Chars(line + "\n")) && inCode && !listOpen
    {
      hide Piece, EscapeHtml;
      EscapedPiece(line, [Pre, Code]);
      NewlinePiece([Pre, Code]);
      Joined(EscapeHtml(line), "\n", [Pre, Code], [Pre, Code], [Pre, Code], Chars(line), Chars("\n"));
      assert Chars(line) + Chars("\n") == Chars(line + "\n");
      Joined(text, EscapeHtml(line) + "\n", [], [Pre, Code], [Pre, Code], shown, Chars(line + "\n"));
      text := text + (EscapeHtml(line) + "\n");
    }

    method OpenList(ghost shown: seq<Event>)
      requires Reads(shown) && !inCode
      modifies this
      ensures Reads(shown + if old(listOpen) then [] else [Opened("ul")]) && !inCode && listOpen
    {
      hide Piece;
      assert shown + [] == shown && [] + [Ul] == [Ul];
      if !listOpen {
        Opens(Ul, []);
        Joined(text, OpenTag(Ul), [], [], [Ul], shown, [Opened("ul")]);
        text := text + OpenTag(Ul);
        listOpen := true;
      }
    }

    method Bullet(item: string, ghost shown: seq<Event>)
      requires Reads(shown) && !inCode
      modifies this
      ensures Reads(shown + (if old(listOpen) then [] else [Opened("ul")]) + InTag("li", item)) && !inCode && listOpen
    {
      hide Piece, EscapeHtml, InTag;
      ghost var before := shown + if listOpen then [] else [Opened("ul")];
      OpenList(shown);
      Within(Li, item, [Ul]);
      Joined(text, OpenTag(Li) + EscapeHtml(item) + CloseTag(Li), [], [Ul], [Ul], before, InTag("li", item));
      text := text + (OpenTag(Li) + EscapeHtml(item) + CloseTag(Li));
    }

    /** A heading or a paragraph. */
    method PushBlock(t: Tag, body: string, ghost shown: seq<Event>)
      requires Reads(shown) && !inCode && !listOpen && MayOpen([], t)
      modifies this
      ensures Reads(shown + InTag(NameOf(t), body)) && inCode == old(inCode) && listOpen == old(listOpen)
    {
      hide Piece, EscapeHtml, InTag, NameOf;
      Within(t, body, []);
      Joined(text, OpenTag(t) + EscapeHtml(body) + CloseTag(t), [], [], [], shown, InTag(NameOf(t), body));
      text := text + (OpenTag(t) + EscapeHtml(body) + CloseTag(t));
    }

    method PushBreak(ghost shown: seq<Event>)
      requires Reads(shown) && !inCode && !listOpen
      modifies this
      ensures Reads(shown + [Broke]) && inCode == old(inCode) && listOpen == old(listOpen)
    {
      hide Piece;
      Breaks();
      Joined(text, "<br/>", [], [], [], shown, [Broke]);
      text := text + "<br/>";
    }

    /** A line outside code. */
    method PushLine(line: string, ghost shown: seq<Event>)
      requires Reads(shown) && !inCode
      modifies this
      ensures !inCode && listOpen == IsBulletLine(line)
      ensures
        Reads(if IsBulletLine(line) then
                shown + (if old(listOpen) then [] else [Opened("ul")]) + InTag("li", BulletText(line))
              else shown + ListEnd(old(listOpen)) + LineEvents(line))
    {
      hide Reads, EscapeHtml, IsBulletLine, JsTrim, InTag;
      if IsBulletLine(line) {
        Bullet(BulletText(line), shown);
        return;
      }
      ghost var before := shown + ListEnd(listOpen);
      CloseList(shown);
      if IsHeadingLine(3, line) {
        PushBlock(H3, Slice(line, 4), before);
      } else if IsHeadingLine(2, line) {
        PushBlock(H2, Slice(line, 3), before);
      } else if IsHeadingLine(1, line) {
        PushBlock(H1, Slice(line, 2), before);
      } else if JsTrim(line) == "" {
        PushBreak(before);
      } else {
        PushBlock(P, line, before);
      }
    }

    /** The end of the text closes what is open. */
    method Finish(ghost shown: seq<Event>)
      requires Reads(shown)
      modifies this
      ensures Piece(text, [], [], shown + (ListEnd(old(listOpen)) + if old(inCode) then CODE_ENDS else []))
    {
      hide Piece;
      ghost var l := ListEnd(listOpen);
      CloseList(shown);
      if inCode {
        assert shown + l + CODE_ENDS == shown + (l + CODE_ENDS)
            && shown + l + [] + CODE_ENDS == shown + (l + CODE_ENDS);
        Fence(shown + l);
      } else {
        assert shown + l == shown + (l + []);
      }
    }
  }

  /** String.slice from n on. */
  function Slice(s: string, n: nat): string { if n <= |s| then s[n..] else "" }

  lemma NewlinePiece(stack: seq<Tag>)
    ensures Piece("\n", stack, stack, Chars("\n"))
  {
    hide Piece;
    EntityPiece('\n', stack);
    assert Entity('\n') == "\n" && Chars("\n") == [Shows('\n')];
  }

  lemma BeginsCode()
    ensures Piece(OpenTag(Pre) + OpenTag(Code), [], [Pre, Code], CODE_BEGINS)
  {
    hide Piece, OpenTag;
    Opens(Pre, []);
    Opens(Code, [Pre]);
    assert [] + [Pre] == [Pre] && [Pre] + [Code] == [Pre, Code];
    assert [Opened("pre")] + [Opened("code")] == CODE_BEGINS;
    Joined(OpenTag(Pre), OpenTag(Code), [], [Pre], [Pre, Code], [Opened("pre")], [Opened("code")]);
  }

  lemma EndsCode()
    ensures Piece(CloseTag(Code) + CloseTag(Pre), [Pre, Code], [], CODE_ENDS)
  {
    hide Piece, CloseTag;
    Closes(Code, [Pre]);
    Closes(Pre, []);
    assert [] + [Pre] == [Pre] && [Pre] + [Code] == [Pre, Code];
    assert [Closed("code")] + [Closed("pre")] == CODE_ENDS;
    Joined(CloseTag(Code), CloseTag(Pre), [Pre, Code], [Pre], [], [Closed("code")], [Closed("pre")]);
  }

  lemma WholeOutput(text: string, shown: seq<Event>)
    requires Piece(text, [], [], shown)
    ensures Scan(text, []) == Open([]) && EventsOf(text) == shown
  {
    assert Scan(text + "", []) == Scan("", []) && EventsOf(text + "") == shown + EventsOf("");
    assert text + "" == text && shown + [] == shown;
  }

  /** One turn of the loop. */
  lemma AheadStep(shown: seq<Event>, lines: seq<string>, i: nat, inCode: bool, listOpen: bool)
    requires i < |lines| && !(inCode && listOpen)
    ensures
      var line := DropCr(lines[i]);
      shown + Ahead(lines[i..], inCode, listOpen)
        == if "```" <= line then
             (shown + ListEnd(listOpen) + if inCode then CODE_ENDS else CODE_BEGINS)
                 + Ahead(lines[i + 1..], !inCode, false)
           else if inCode then (shown + Chars(line + "\n")) + Ahead(lines[i + 1..], true, false)
           else if IsBulletLine(line) then
             (shown + (if listOpen then [] else [Opened("ul")]) + InTag("li", BulletText(line)))
             + Ahead(lines[i + 1..], false, true)
           else (shown + ListEnd(listOpen) + LineEvents(line)) + Ahead(lines[i + 1..], false, false)
  {
    hide LineEvents, DropCr, IsBulletLine, InTag, Chars;
    assert lines[i..][0] == lines[i] && lines[i..][1..] == lines[i + 1..];
    var line, rest := DropCr(lines[i]), lines[i + 1..];
    if "```" <= line {
      Regroup(shown, ListEnd(listOpen), if inCode then CODE_ENDS else CODE_BEGINS, Ahead(rest, !inCode, false));
    } else if inCode {
      Regroup(shown, [], Chars(line + "\n"), Ahead(rest, true, false));
      assert shown + [] == shown && [] + Chars(line + "\n") == Chars(line + "\n");
    } else if IsBulletLine(line) {
      Regroup(shown, if listOpen then [] else [Opened("ul")], InTag("li", BulletText(line)), Ahead(rest, false, true));
    } else {
      Regroup(shown, ListEnd(listOpen), LineEvents(line), Ahead(rest, false, false));
    }
  }

  lemma Regroup(a: seq<Event>, b: seq<Event>, c: seq<Event>, d: seq<Event>)
    ensures a + (b + c + d) == (a + b + c) + d
  {}

  lemma Ends(listOpen: bool, inCode: bool)
    ensures Ahead([], inCode, listOpen) == ListEnd(listOpen) + if inCode then CODE_ENDS else []
  {}

  /** renderMarkdownSafe: for every input the output is accepted by the reader, with every
      tag closed; its elements are those of the document, and it shows exactly the text of
      the lines. */
  method RenderMarkdownSafe(md: string) returns (html: string)
    ensures Scan(html, []) == Open([])
    ensures ReadElements(EventsOf(html)) == Elements(Split(md, '\n'))
    ensures TextOf(html) == Shown(Split(md, '\n'), false)
  {
    var lines := Split(md, '\n');
    var out := new Html();
    NothingShown([]);
    ghost var shown: seq<Event> := [];
    hide Piece, Split, Ahead, Elements, LineEvents, InTag, IsBulletLine, DropCr;
    assert lines[0..] == lines && shown + Ahead(lines, false, false) == Ahead(lines, false, false);
    for i := 0 to |lines|
      invariant fresh(out) && out.Reads(shown)
      invariant shown + Ahead(lines[i..], out.inCode, out.listOpen) == Ahead(lines, false, false)
    {
      AheadStep(shown, lines, i, out.inCode, out.listOpen);
      shown := RenderLine(out, DropCr(lines[i]), shown);
    }
    assert lines[|lines|..] == [];
    Ends(out.listOpen, out.inCode);
    out.Finish(shown);
    html := out.text;
    WholeOutput(html, Ahead(lines, false, false));
    AheadIsElements(lines);
    ElementsRead(Elements(lines));
    AheadShows(lines, false, false);
  }

  /** The body of the loop. */
  method RenderLine(out: Html, line: string, ghost before: seq<Event>) returns (ghost shown: seq<Event>)
    requires out.Reads(before)
    modifies out
    ensures out.Reads(shown)
    ensures
      shown
        == if "```" <= line then before + ListEnd(old(out.listOpen)) + if old(out.inCode) then CODE_ENDS
            else CODE_BEGINS
           else if old(out.inCode) then before + Chars(line + "\n")
           else if IsBulletLine(line) then
             before + (if old(out.listOpen) then [] else [Opened("ul")]) + InTag("li", BulletText(line))
           else before + ListEnd(old(out.listOpen)) + LineEvents(line)
    ensures
      if "```" <= line then out.inCode == !old(out.inCode) && !out.listOpen
      else out.inCode == old(out.inCode) && out.listOpen == (!out.inCode && IsBulletLine(line))
  {
    hide Piece, LineEvents, InTag, IsBulletLine, Chars;
    if "```" <= line {
      shown := before + ListEnd(out.listOpen) + if out.inCode then CODE_ENDS else CODE_BEGINS;
      out.Fence(before);
    } else if out.inCode {
      shown := before + Chars(line + "\n");
      out.CodeLine(line, before);
    } else {
      shown := if IsBulletLine(line) then
                 before + (if out.listOpen then [] else [Opened("ul")]) + InTag("li", BulletText(line))
               else before + ListEnd(out.listOpen) + LineEvents(line);
      out.PushLine(line, before);
    }
  }
}
