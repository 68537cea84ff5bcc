/** Lines of a text, as Python's `str.splitlines` sees them. */
module Lines {

  predicate IsBreak(c: char) {
    || '\n' <= c <= '\r'
    || '\U{1c}' <= c <= '\U{1e}'
    || c == '\U{85}' || c == '\U{2028}' || c == '\U{2029}'
  }

  /** Where the first line of the text ends, before its break. */
  function FirstBreak(text: string): (i: nat)
    ensures i <= |text| && (i < |text| ==> IsBreak(text[i]))
    ensures forall k | 0 <= k < i :: !IsBreak(text[k])
  {
    if |text| == 0 || IsBreak(text[0]) then 0 else 1 + FirstBreak(text[1..])
  }

  /** Where the first line ends, after its break. A carriage return and a line feed are one break. */
  function FirstLine(text: string): (n: nat)
    ensures n <= |text| && (|text| > 0 ==> n > 0)
    ensures FirstBreak(text) <= n <= FirstBreak(text) + 2
  {
    var i := FirstBreak(text);
    if i == |text| then i
    else if text[i] == '\r' && i + 1 < |text| && text[i + 1] == '\n' then i + 2
    else i + 1
  }

  /** The lines without their breaks. */
  function SplitLines(text: string): seq<string> {
    if |text| == 0 then [] else [text[..FirstBreak(text)]] + SplitLines(text[FirstLine(text)..])
  }

  /** The lines with their breaks. */
  function SplitKeeping(text: string): seq<string> {
    if |text| == 0 then [] else [text[..FirstLine(text)]] + SplitKeeping(text[FirstLine(text)..])
  }

  function Concat(parts: seq<string>): string {
    if |parts| == 0 then "" else parts[0] + Concat(parts[1..])
  }

  lemma {:induction false} ConcatTwo(a: seq<string>, b: seq<string>)
    ensures Concat(a + b) == Concat(a) + Concat(b)
  {
    if |a| == 0 {
      assert a + b == b;
    } else {
      ConcatTwo(a[1..], b);
      assert (a + b)[1..] == a[1..] + b;
    }
  }

  /** Nothing of a text is lost by keeping the breaks, and no line is empty then. */
  lemma {:induction false} KeepingIsWhole(text: string)
    ensures Concat(SplitKeeping(text)) == text
    ensures forall k | 0 <= k < |SplitKeeping(text)| :: SplitKeeping(text)[k] != ""
    ensures |SplitKeeping(text)| == |SplitLines(text)|
  {
    if |text| > 0 {
      KeepingIsWhole(text[FirstLine(text)..]);
      assert text == text[..FirstLine(text)] + text[FirstLine(text)..];
    }
  }

  /** A beginning of a text has no more lines than the text. */
  lemma {:induction false} PrefixHasNoMoreLines(text: string, m: nat)
    requires m <= |text|
    ensures |SplitLines(text[..m])| <= |SplitLines(text)|
    decreases |text|
  {
    if 0 < m {
      var n := FirstLine(text);
      if m <= n {
        PrefixOfLineIsLine(text, m);
      } else {
        PrefixKeepsFirstLine(text, m);
        PrefixHasNoMoreLines(text[n..], m - n);
        assert text[..m][n..] == text[n..][..m - n];
      }
    }
  }

  lemma {:induction false} FirstBreakOfPrefix(text: string, m: nat)
    requires m <= |text|
    ensures FirstBreak(text[..m]) == if FirstBreak(text) < m then FirstBreak(text) else m
  {
    if m > 0 && !IsBreak(text[0]) {
      FirstBreakOfPrefix(text[1..], m - 1);
      assert text[..m][1..] == text[1..][..m - 1];
    }
  }

  lemma PrefixOfLineIsLine(text: string, m: nat)
    requires 0 < m <= FirstLine(text)
    ensures |SplitLines(text[..m])| == 1
  {
    FirstBreakOfPrefix(text, m);
    assert FirstLine(text[..m]) == m;
    assert text[..m][m..] == "";
  }

  lemma PrefixKeepsFirstLine(text: string, m: nat)
    requires FirstLine(text) < m <= |text|
    ensures FirstLine(text[..m]) == FirstLine(text)
  {
    FirstBreakOfPrefix(text, m);
  }

  lemma TakeLines(lines: seq<string>, k: nat)
    requires 0 < k <= |lines|
    ensures Concat(lines[..k]) == lines[0] + Concat(lines[1..][..k - 1])
  {
    assert lines[..k][1..] == lines[1..][..k - 1];
  }

  lemma PrefixOfRest(text: string, n: nat, rest: string)
    requires n <= |text| && rest <= text[n..]
    ensures n + |rest| <= |text| && text[..n] + rest == text[..n + |rest|] && text[..n + |rest|][n..] == rest
  {
    assert rest == text[n..][..|rest|];
  }

  /** A beginning of a text that goes beyond the first line. */
  lemma OneLineMore(text: string, rest: string)
    requires |text| > 0 && rest != "" && rest <= text[FirstLine(text)..]
    ensures var whole := text[..FirstLine(text)] + rest;
            whole <= text && |SplitLines(whole)| == 1 + |SplitLines(rest)|
  {
    var n := FirstLine(text);
    PrefixOfRest(text, n, rest);
    PrefixKeepsFirstLine(text, n + |rest|);
    CountLines(text[..n + |rest|]);
  }

  lemma CountLines(text: string)
    requires |text| > 0
    ensures |SplitLines(text)| == 1 + |SplitLines(text[FirstLine(text)..])|
  {
  }

  /** The first `k` lines of a text, put together, are `k` lines again. */
  lemma {:induction false} FirstLinesAreLines(text: string, k: nat)
    requires k <= |SplitKeeping(text)|
    ensures |SplitLines(Concat(SplitKeeping(text)[..k]))| == k
    ensures Concat(SplitKeeping(text)[..k]) <= text
    decreases k
  {
    if k > 0 {
      var lines, n := SplitKeeping(text), FirstLine(text);
      var rest := lines[1..][..k - 1];
      TakeLines(lines, k);
      if k == 1 {
        assert rest == [] && Concat(lines[..k]) == text[..n] + "" == text[..n];
        PrefixOfLineIsLine(text, n);
      } else {
        FirstLinesAreLines(text[n..], k - 1);
        LinesAreNotEmpty(text[n..], k - 1);
        OneLineMore(text, Concat(rest));
      }
    }
  }

  lemma LinesAreNotEmpty(text: string, k: nat)
    requires 0 < k <= |SplitKeeping(text)|
    ensures Concat(SplitKeeping(text)[..k]) != ""
  {
    KeepingIsWhole(text);
    assert SplitKeeping(text)[..k][0] == SplitKeeping(text)[0];
  }

  /** The lines from number `k` on, put together, are those lines again. */
  lemma {:induction false} LaterLinesAreLines(text: string, k: nat)
    requires k <= |SplitKeeping(text)|
    ensures SplitKeeping(Concat(SplitKeeping(text)[k..])) == SplitKeeping(text)[k..]
    decreases k
  {
    var lines := SplitKeeping(text);
    if k == 0 {
      assert lines[0..] == lines;
      KeepingIsWhole(text);
    } else {
      LaterLinesAreLines(text[FirstLine(text)..], k - 1);
      assert lines[k..] == lines[1..][k - 1..];
    }
  }

  lemma ConcatIsEmpty(parts: seq<string>)
    requires forall k | 0 <= k < |parts| :: parts[k] != ""
    ensures Concat(parts) == "" <==> |parts| == 0
  {
    if |parts| > 0 {
      assert parts[0] != "";
    }
  }

  lemma ConcatThree(parts: seq<string>, i: nat, j: nat)
    requires i <= j <= |parts|
    ensures Concat(parts) == Concat(parts[..i]) + Concat(parts[i..j]) + Concat(parts[j..])
  {
    ConcatTwo(parts[..i], parts[i..j]);
    ConcatTwo(parts[..j], parts[j..]);
    assert parts[..i] + parts[i..j] == parts[..j] && parts[..j] + parts[j..] == parts;
  }

  lemma FirstLinesCount(text: string, k: nat, window: seq<string>)
    requires k <= |SplitKeeping(text)| && SplitKeeping(text)[..k] == window
    ensures |SplitLines(Concat(window))| == k
  {
    FirstLinesAreLines(text, k);
  }

  lemma WindowHasItsLines(text: string, start: nat, end: nat)
    requires start <= end <= |SplitKeeping(text)|
    ensures |SplitLines(Concat(SplitKeeping(text)[start..end]))| == end - start
  {
    var lines := SplitKeeping(text);
    LaterLinesAreLines(text, start);
    WindowOfSuffix(lines, start, end);
    FirstLinesCount(Concat(lines[start..]), end - start, lines[start..end]);
  }

  lemma WindowOfSuffix(lines: seq<string>, start: nat, end: nat)
    requires start <= end <= |lines|
    ensures lines[start..][..end - start] == lines[start..end]
  {
  }

  /** Where a window of lines stands in its text, and when it is all of it. */
  lemma WindowIsPiece(text: string, start: nat, end: nat)
    requires start <= end <= |SplitKeeping(text)|
    ensures var lines := SplitKeeping(text);
            var before, after := Concat(lines[..start]), Concat(lines[end..]);
            && text == before + Concat(lines[start..end]) + after
            && (before == "" <==> start == 0) && (after == "" <==> end == |lines|)
  {
    var lines := SplitKeeping(text);
    KeepingIsWhole(text);
    ConcatThree(lines, start, end);
    ConcatIsEmpty(lines[..start]);
    ConcatIsEmpty(lines[end..]);
  }
}
