/** White space as the web client's language sees it. */
module JsText {

  /** What String.trim removes: unlike Go's TrimSpace, the byte order mark and not NEL. */
  predicate IsJsSpace(c: char) {
    || '\t' <= c <= '\r' || c == ' ' || c == '\U{00A0}' || c == '\U{1680}' || '\U{2000}' <= c <= '\U{200A}'
    || c == '\U{2028}' || c == '\U{2029}' || c == '\U{202F}' || c == '\U{205F}' || c == '\U{3000}' || c == '\U{FEFF}'
  }

  function JsTrim(s: string): string
    decreases |s|
  {
    if s != [] && IsJsSpace(s[0]) then JsTrim(s[1..])
    else if s != [] && IsJsSpace(s[|s| - 1]) then JsTrim(s[..|s| - 1])
    else s
  }

  predicate JsTrimmed(s: string) { s == [] || (!IsJsSpace(s[0]) && !IsJsSpace(s[|s| - 1])) }

  lemma TrimField(s: string)
    requires JsTrimmed(s)
    ensures JsTrim(" " + s) == s
  {
    assert (" " + s)[1..] == s;
  }
}
