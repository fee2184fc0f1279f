/** Python's `str.strip`. */
module Text {
  predicate IsSpace(c: char) {
    || '\t' <= c <= '\r' || '\U{1C}' <= c <= ' ' || c == '\U{85}' || c == '\U{A0}' || c == '\U{1680}'
    || '\U{2000}' <= c <= '\U{200A}' || c == '\U{2028}' || c == '\U{2029}' || c == '\U{202F}'
    || c == '\U{205F}' || c == '\U{3000}'
  }

  function Strip(s: string): string {
    if s != "" && IsSpace(s[0]) then Strip(s[1..])
    else if s != "" && IsSpace(s[|s|-1]) then Strip(s[..|s|-1])
    else s
  }

  /** Stripping never lengthens a text, and a stripped text has nothing left to strip. */
  lemma {:induction false} StripIsStable(s: string)
    ensures |Strip(s)| <= |s| && Strip(Strip(s)) == Strip(s)
    decreases |s|
  {
    if s != "" && IsSpace(s[0]) {
      StripIsStable(s[1..]);
    } else if s != "" && IsSpace(s[|s|-1]) {
      StripIsStable(s[..|s|-1]);
    }
  }
}
