/** White space as Python's `str.strip` and `str.split` see it. */
module Text {

  predicate IsSpace(c: char) {
    || '\t' <= c <= '\r'
    || '\U{1c}' <= c <= ' '
    || c == '\U{85}' || c == '\U{a0}' || c == '\U{1680}'
    || '\U{2000}' <= c <= '\U{200a}'
    || c == '\U{2028}' || c == '\U{2029}' || c == '\U{202f}' || c == '\U{205f}' || c == '\U{3000}'
  }

  /** Nothing is left of the text once it is stripped. */
  predicate Blank(text: string) {
    forall i | 0 <= i < |text| :: IsSpace(text[i])
  }

  predicate Stripped(text: string) {
    |text| > 0 ==> !IsSpace(text[0]) && !IsSpace(text[|text| - 1])
  }

  function Strip(text: string): (r: string)
    ensures Stripped(r)
    ensures |r| < |text| || r == text
    ensures Stripped(text) ==> r == text
  {
    if |text| > 0 && IsSpace(text[0]) then Strip(text[1..])
    else if |text| > 0 && IsSpace(text[|text| - 1]) then Strip(text[..|text| - 1])
    else text
  }
}
