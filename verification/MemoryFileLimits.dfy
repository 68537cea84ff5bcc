/**
 What a memory file cannot hold: whatever memory a file was printed from, what is read back fits the format.
 So a memory that does not fit never survives.
*/
module MemoryFileLimits {
  import opened Basics
  import opened Text
  import opened Lines
  import J = Json
  import opened MemoryFiles
  import opened MemoryFileLaws

  // ---- texts without escaped line breaks -------------------------------------------------------

  /** The characters that follow a backslash in a printed string, but for the letter u. */
  predicate ShortEscape(c: char) {
    c == '\"' || c == '\\' || c == 'n' || c == 'r' || c == 't' || c == 'f' || c == 'b'
  }

  /** The four digits of an escaped control character. */
  predicate ControlDigits(s: string)
    requires |s| >= 4
  {
    s[0] == '0' && s[1] == '0' && (s[2] == '0' || s[2] == '1') && J.HexValue(s[3]).Some?
  }

  /** How long the character or the escape is that the text starts with. Nothing if it is an incomplete
      escape, or one of anything but a control character. */
  function UnitLength(s: string): (k: nat)
    requires |s| > 0
    ensures k <= |s|
  {
    if s[0] != '\\' then 1
    else if |s| >= 2 && ShortEscape(s[1]) then 2
    else if |s| >= 6 && s[1] == 'u' && ControlDigits(s[2..6]) then 6
    else 0
  }

  /** Read from its start, the text has whole escapes only, and none of a bare line break. */
  predicate Calm(s: string)
    decreases |s|
  {
    |s| == 0 || (UnitLength(s) > 0 && Calm(s[UnitLength(s)..]))
  }

  lemma UnitOfConcat(a: string, b: string)
    requires |a| > 0 && UnitLength(a) > 0
    ensures UnitLength(a + b) == UnitLength(a)
  {
    var s := a + b;
    assert s[0] == a[0] && (|a| >= 2 ==> s[1] == a[1]) && (|a| >= 6 ==> s[2..6] == a[2..6]);
  }

  lemma {:induction false} CalmConcat(a: string, b: string)
    requires Calm(a) && Calm(b)
    ensures Calm(a + b)
    decreases |a|
  {
    if |a| == 0 {
      assert a + b == b;
    } else {
      var k := UnitLength(a);
      UnitOfConcat(a, b);
      CalmConcat(a[k..], b);
      assert (a + b)[k..] == a[k..] + b;
    }
  }

  lemma {:induction false} NoBackslashIsCalm(s: string)
    requires forall i | 0 <= i < |s| :: s[i] != '\\'
    ensures Calm(s)
  {
    if |s| > 0 {
      NoBackslashIsCalm(s[1..]);
    }
  }

  lemma EscapeCharIsCalm(c: char)
    ensures Calm(J.EscapeChar(c))
  {
    var e := J.EscapeChar(c);
    if |e| == 6 {
      J.HexRoundTrip(c as int % 16);
      assert c as int / 16 < 2;
      assert e[2..6][3] == e[5] && e[2..6][2] == e[4];
    } else if |e| == 2 {
      assert e[2..] == "";
    } else {
      assert e[1..] == "";
    }
  }

  lemma {:induction false} EscapeIsCalm(s: string)
    ensures Calm(J.Escape(s))
  {
    if |s| > 0 {
      EscapeCharIsCalm(s[0]);
      EscapeIsCalm(s[1..]);
      CalmConcat(J.EscapeChar(s[0]), J.Escape(s[1..]));
    }
  }

  lemma QuoteIsCalm(s: string)
    ensures Calm(J.Quote(s))
  {
    EscapeIsCalm(s);
    NoBackslashIsCalm("\"");
    CalmConcat("\"", J.Escape(s));
    CalmConcat("\"" + J.Escape(s), "\"");
  }

  lemma {:induction false} PrintNatHasNoBackslash(n: nat)
    ensures Calm(J.PrintNat(n))
  {
    J.PrintNatRoundTrip(n);
    NoBackslashIsCalm(J.PrintNat(n));
  }

  lemma {:induction false} PrintIsCalm(v: J.Json)
    requires J.Plain(v)
    ensures Calm(J.Print(v))
    decreases v, 1
  {
    match v
    case Null => NoBackslashIsCalm("null");
    case Bool(b) => NoBackslashIsCalm(J.Print(v));
    case Int(n) => NumberIsCalm(n);
    case Str(s) => QuoteIsCalm(s);
    case Arr(items) =>
      ItemsAreCalm(items);
      Bracketed("[", J.PrintItems(items), "]");
    case Obj(fields) =>
      FieldsAreCalm(fields);
      Bracketed("{", J.PrintFields(fields), "}");
    case Real(_) =>
  }

  lemma NumberIsCalm(n: int)
    ensures Calm(J.PrintInt(n))
  {
    PrintNatHasNoBackslash(if n < 0 then -n else n);
    if n < 0 {
      NoBackslashIsCalm("-");
      CalmConcat("-", J.PrintNat(-n));
    }
  }

  lemma Bracketed(open: string, inner: string, close: string)
    requires |open| == 1 && |close| == 1 && open[0] != '\\' && close[0] != '\\' && Calm(inner)
    ensures Calm(open + inner + close)
  {
    NoBackslashIsCalm(open);
    NoBackslashIsCalm(close);
    CalmConcat(open, inner);
    CalmConcat(open + inner, close);
  }

  /** Two calm texts with a separator between them. */
  lemma Separated(a: string, separator: string, b: string)
    requires Calm(a) && Calm(b) && (separator == ", " || separator == ": ")
    ensures Calm(a + separator + b)
  {
    NoBackslashIsCalm(separator);
    CalmConcat(a, separator);
    CalmConcat(a + separator, b);
  }

  lemma {:induction false} ItemsAreCalm(items: seq<J.Json>)
    requires forall i | 0 <= i < |items| :: J.Plain(items[i])
    ensures Calm(J.PrintItems(items))
    decreases items, 0
  {
    if |items| > 0 {
      PrintIsCalm(items[0]);
      ItemsAreCalm(items[1..]);
      if |items| > 1 {
        Separated(J.Print(items[0]), ", ", J.PrintItems(items[1..]));
      }
    }
  }

  lemma {:induction false} FieldIsCalm(field: (string, J.Json))
    requires J.PlainField(field)
    ensures Calm(J.PrintField(field))
    decreases field, 2
  {
    QuoteIsCalm(field.0);
    PrintIsCalm(field.1);
    Separated(J.Quote(field.0), ": ", J.Print(field.1));
  }

  lemma {:induction false} FieldsAreCalm(fields: seq<(string, J.Json)>)
    requires forall i | 0 <= i < |fields| :: J.PlainField(fields[i])
    ensures Calm(J.PrintFields(fields))
    decreases fields, 0
  {
    if |fields| > 0 {
      FieldIsCalm(fields[0]);
      FieldsAreCalm(fields[1..]);
      if |fields| > 1 {
        Separated(J.PrintField(fields[0]), ", ", J.PrintFields(fields[1..]));
      }
    }
  }

  // ---- pieces of calm texts --------------------------------------------------------------------

  /** A character that is no part of an escape. */
  predicate Apart(c: char) {
    c != '\\' && c != 'u' && !ShortEscape(c) && J.HexValue(c).None?
  }

  /** Such a character cuts no escape. */
  lemma UnitBefore(a: string, c: char, b: string)
    requires |a| > 0 && Apart(c) && UnitLength(a + [c] + b) > 0
    ensures UnitLength(a) == UnitLength(a + [c] + b)
  {
    var s := a + [c] + b;
    assert s[0] == a[0] && s[|a|] == c;
    if |a| >= 2 {
      assert s[1] == a[1];
    }
    if s[0] == '\\' && |s| >= 6 && s[1] == 'u' && ControlDigits(s[2..6]) {
      assert forall i | 0 <= i < 4 :: J.HexValue(s[2..6][i]).Some?;
      assert forall i | 2 <= i < 6 :: s[i] == s[2..6][i - 2];
      if |a| >= 6 {
        assert s[2..6] == a[2..6];
      }
    }
  }

  /** Cut at such a character, a calm text leaves two. */
  lemma {:induction false} CalmSplit(a: string, c: char, b: string)
    requires Calm(a + [c] + b) && Apart(c)
    ensures Calm(a) && Calm(b)
    decreases |a|
  {
    var s := a + [c] + b;
    if |a| == 0 {
      assert s[1..] == b;
    } else {
      var k := UnitLength(a);
      UnitBefore(a, c, b);
      assert s[k..] == a[k..] + [c] + b;
      CalmSplit(a[k..], c, b);
    }
  }

  lemma BreaksAreApart(c: char)
    requires IsBreak(c) || IsSpace(c) || c == ':'
    ensures Apart(c)
  {
  }

  lemma CalmTail(s: string)
    requires |s| > 0 && s[0] != '\\' && Calm(s)
    ensures Calm(s[1..])
  {
  }

  lemma CalmSplitAt(s: string, i: nat)
    requires Calm(s) && i < |s| && Apart(s[i])
    ensures Calm(s[..i]) && Calm(s[i + 1..])
  {
    assert s == s[..i] + [s[i]] + s[i + 1..];
    CalmSplit(s[..i], s[i], s[i + 1..]);
  }

  lemma CalmAtFirstLine(text: string)
    requires Calm(text) && |text| > 0
    ensures Calm(text[..FirstBreak(text)]) && OneLine(text[..FirstBreak(text)]) && Calm(text[FirstLine(text)..])
  {
    var i, n := FirstBreak(text), FirstLine(text);
    if i == |text| {
      assert text[..i] == text && text[n..] == "";
    } else {
      BreaksAreApart(text[i]);
      CalmSplitAt(text, i);
      if n == i + 2 {
        BreaksAreApart(text[i + 1]);
        CalmSplitAt(text, i + 1);
      }
    }
  }

  ghost predicate CalmLine(line: string) {
    Calm(line) && OneLine(line)
  }

  lemma {:induction false} CalmLines(text: string)
    requires Calm(text)
    ensures forall i | 0 <= i < |SplitLines(text)| :: CalmLine(SplitLines(text)[i])
    decreases |text|
  {
    if |text| > 0 {
      CalmAtFirstLine(text);
      CalmLines(text[FirstLine(text)..]);
    }
  }

  lemma {:induction false} CalmStrip(s: string)
    requires Calm(s) && OneLine(s)
    ensures Calm(Strip(s)) && OneLine(Strip(s))
    decreases |s|
  {
    if |s| > 0 && IsSpace(s[0]) {
      CalmTail(s);
      CalmStrip(s[1..]);
    } else if |s| > 0 && IsSpace(s[|s| - 1]) {
      var front := s[..|s| - 1];
      BreaksAreApart(s[|s| - 1]);
      assert s == front + [s[|s| - 1]] + "";
      CalmSplit(front, s[|s| - 1], "");
      CalmStrip(front);
    }
  }

  // ---- reading calm texts ----------------------------------------------------------------------

  lemma EscapeOfCalm(s: string)
    requires |s| > 0 && s[0] == '\\' && UnitLength(s) > 0 && J.ReadEscape(s[1..]).Some?
    ensures var (c, k) := J.ReadEscape(s[1..]).value; !IsBare(c) && 1 + k == UnitLength(s)
  {
    var t := s[1..];
    assert t[0] == s[1];
    if UnitLength(s) == 6 {
      assert t[1..][..4] == s[2..6];
      assert t[1..][0] == s[2..6][0] && t[1..][1] == s[2..6][1] && t[1..][2] == s[2..6][2] && t[1..][3] == s[2..6][3];
    }
  }

  lemma NoneBareAfter(s: string, k: nat)
    requires NoneBare(s) && k <= |s|
    ensures NoneBare(s[k..])
  {
  }

  lemma {:induction false} CharsAreSafe(s: string)
    requires Calm(s) && NoneBare(s) && J.ReadChars(s).Some?
    ensures var (chars, rest) := J.ReadChars(s).value; NoneBare(chars) && Calm(rest) && NoneBare(rest)
    decreases |s|
  {
    if s[0] == '\\' {
      EscapeOfCalm(s);
      NoneBareAfter(s, UnitLength(s));
      CharsAreSafe(s[UnitLength(s)..]);
    } else {
      NoneBareAfter(s, 1);
      if s[0] != '\"' {
        CharsAreSafe(s[1..]);
      }
    }
  }

  lemma {:induction false} CalmAfter(s: string, k: nat)
    requires Calm(s) && NoneBare(s) && k <= |s| && forall i | 0 <= i < k :: s[i] != '\\'
    ensures Calm(s[k..]) && NoneBare(s[k..])
    decreases k
  {
    if k == 0 {
      assert s[0..] == s;
    } else {
      CalmTail(s);
      NoneBareAfter(s, 1);
      CalmAfter(s[1..], k - 1);
      assert s[1..][k - 1..] == s[k..];
    }
  }

  lemma {:induction false} SkipIsCalm(s: string)
    requires Calm(s) && NoneBare(s)
    ensures Calm(J.Skip(s)) && NoneBare(J.Skip(s))
    decreases |s|
  {
    if |s| > 0 && J.IsSpace(s[0]) {
      CalmAfter(s, 1);
      SkipIsCalm(s[1..]);
    }
  }

  /** What reading leaves is calm and has no bare break, and what it read is safe. */
  ghost predicate ReadSafely(r: Option<(J.Json, string)>) {
    r.Some? ==> Safe(r.value.0) && Calm(r.value.1) && NoneBare(r.value.1)
  }

  lemma UnsignedIsSafe(s: string, sign: string)
    requires Calm(s) && NoneBare(s)
    ensures ReadSafely(J.ReadUnsigned(s, sign))
  {
    var digits := J.DigitsEnd(s, 0);
    if digits > 0 {
      var whole := if s[0] == '0' then 1 else digits;
      var fraction := J.FractionEnd(s, whole);
      var end := J.ExponentEnd(s, fraction);
      assert forall i | 0 <= i < digits :: J.IsDigit(s[i]);
      FractionHasNoBackslash(s, whole);
      ExponentHasNoBackslash(s, fraction);
      CalmAfter(s, end);
      CalmAfter(s, whole);
    }
  }

  lemma FractionHasNoBackslash(s: string, i: nat)
    requires i <= |s|
    ensures forall k | i <= k < J.FractionEnd(s, i) :: s[k] != '\\'
  {
  }

  lemma ExponentHasNoBackslash(s: string, i: nat)
    requires i <= |s|
    ensures forall k | i <= k < J.ExponentEnd(s, i) :: s[k] != '\\'
  {
    if i < |s| {
      var start := if i + 1 < |s| && (s[i + 1] == '+' || s[i + 1] == '-') then i + 2 else i + 1;
      assert forall k | start <= k < J.DigitsEnd(s, start) :: J.IsDigit(s[k]);
    }
  }

  lemma NumberIsSafe(s: string)
    requires Calm(s) && NoneBare(s)
    ensures ReadSafely(J.ReadNumber(s))
  {
    if |s| > 0 && s[0] == '-' {
      CalmAfter(s, 1);
      UnsignedIsSafe(s[1..], "-");
    } else {
      UnsignedIsSafe(s, "");
    }
  }

  lemma {:induction false} ValueIsSafe(s: string)
    requires Calm(s) && NoneBare(s)
    ensures ReadSafely(J.ReadValue(s))
    decreases |s|, 1
  {
    if |s| > 0 {
      if s[0] == '\"' {
        CalmAfter(s, 1);
        if J.ReadChars(s[1..]).Some? {
          CharsAreSafe(s[1..]);
        }
      } else if s[0] == '[' || s[0] == '{' {
        CalmAfter(s, 1);
        SkipIsCalm(s[1..]);
        var t := J.Skip(s[1..]);
        if |t| > 0 && (t[0] == ']' || t[0] == '}') {
          CalmAfter(t, 1);
        }
        ItemsAreSafe(t, []);
        FieldsAreSafe(t, []);
      } else {
        NumberIsSafe(s);
        if J.ReadWord(s).Some? {
          CalmAfter(s, J.ReadWord(s).value.1);
        }
      }
    }
  }

  lemma {:induction false} ItemsAreSafe(s: string, read: seq<J.Json>)
    requires Calm(s) && NoneBare(s) && forall i | 0 <= i < |read| :: Safe(read[i])
    ensures ReadSafely(J.ReadItems(s, read))
    decreases |s|, 2
  {
    ValueIsSafe(s);
    if J.ReadValue(s).Some? {
      var (v, after) := J.ReadValue(s).value;
      SkipIsCalm(after);
      var t := J.Skip(after);
      if |t| > 0 && (t[0] == ']' || t[0] == ',') {
        CalmAfter(t, 1);
        if t[0] == ',' {
          SkipIsCalm(t[1..]);
          ItemsAreSafe(J.Skip(t[1..]), read + [v]);
        }
      }
    }
  }

  lemma {:induction false} PutIsSafe(fields: seq<(string, J.Json)>, key: string, v: J.Json)
    requires NoneBare(key) && Safe(v) && forall i | 0 <= i < |fields| :: SafeField(fields[i])
    ensures forall i | 0 <= i < |J.Put(fields, key, v)| :: SafeField(J.Put(fields, key, v)[i])
  {
    if |fields| > 0 {
      PutIsSafe(fields[1..], key, v);
    }
  }

  lemma {:induction false} FieldsAreSafe(s: string, read: seq<(string, J.Json)>)
    requires Calm(s) && NoneBare(s) && forall i | 0 <= i < |read| :: SafeField(read[i])
    ensures ReadSafely(J.ReadFields(s, read))
    decreases |s|, 2
  {
    if |s| > 0 && s[0] == '\"' {
      CalmAfter(s, 1);
      if J.ReadChars(s[1..]).Some? {
        CharsAreSafe(s[1..]);
        var (key, after) := J.ReadChars(s[1..]).value;
        SkipIsCalm(after);
        var t := J.Skip(after);
        if |t| > 0 && t[0] == ':' {
          CalmAfter(t, 1);
          SkipIsCalm(t[1..]);
          FieldValueIsSafe(J.Skip(t[1..]), key, read);
        }
      }
    }
  }

  /** The rest of a field's reading, after its key. */
  lemma {:induction false} FieldValueIsSafe(s: string, key: string, read: seq<(string, J.Json)>)
    requires Calm(s) && NoneBare(s) && NoneBare(key) && forall i | 0 <= i < |read| :: SafeField(read[i])
    ensures J.ReadValue(s).Some? ==>
              var (v, later) := J.ReadValue(s).value; var u := J.Skip(later);
              && (|u| > 0 && u[0] == '}' ==> ReadSafely(Some((J.Obj(J.Put(read, key, v)), u[1..]))))
              && (|u| > 0 && u[0] == ',' ==> ReadSafely(J.ReadFields(J.Skip(u[1..]), J.Put(read, key, v))))
    decreases |s|, 3
  {
    ValueIsSafe(s);
    if J.ReadValue(s).Some? {
      var (v, later) := J.ReadValue(s).value;
      PutIsSafe(read, key, v);
      SkipIsCalm(later);
      var u := J.Skip(later);
      if |u| > 0 && (u[0] == '}' || u[0] == ',') {
        CalmAfter(u, 1);
        if u[0] == ',' {
          SkipIsCalm(u[1..]);
          FieldsAreSafe(J.Skip(u[1..]), J.Put(read, key, v));
        }
      }
    }
  }

  lemma RawIsSafe(raw: string)
    requires Calm(raw) && OneLine(raw)
    ensures Safe(ReadRaw(raw))
  {
    SkipIsCalm(raw);
    ValueIsSafe(J.Skip(raw));
  }

  // ---- reading files ---------------------------------------------------------------------------

  ghost predicate SafeValues(header: map<string, J.Json>) {
    forall key | key in header :: Safe(header[key])
  }

  lemma LineIsSafe(header: map<string, J.Json>, line: string)
    requires SafeValues(header) && CalmLine(line)
    ensures SafeValues(ReadLine(header, line))
  {
    var i := FirstColon(line);
    if i < |line| {
      BreaksAreApart(line[i]);
      CalmSplitAt(line, i);
      CalmStrip(line[i + 1..]);
      RawIsSafe(Strip(line[i + 1..]));
    }
  }

  lemma {:induction false} HeaderIsSafe(lines: seq<string>, n: nat)
    requires 1 <= n <= |lines| && forall i | 1 <= i < n :: CalmLine(lines[i])
    ensures SafeValues(HeaderUpTo(lines, n))
  {
    if n > 1 {
      HeaderIsSafe(lines, n - 1);
      LineIsSafe(HeaderUpTo(lines, n - 1), lines[n - 1]);
    }
  }

  /** Turning a value into text gives some text, and none of the bare line breaks. */
  ghost predicate Sensible(reader: Reader) {
    forall v :: reader.str(v) != "" && NoneBare(reader.str(v))
  }

  lemma TextIsSafe(header: map<string, J.Json>, key: string, default_: string, reader: Reader)
    requires SafeValues(header) && Sensible(reader) && NoneBare(default_)
    ensures NoneBare(TextOr(header, key, default_, reader))
    ensures default_ != "" ==> TextOr(header, key, default_, reader) != ""
  {
  }

  lemma BuildIsSafe(header: map<string, J.Json>, body: string, reader: Reader)
    requires SafeValues(header) && Sensible(reader)
    ensures var m := Build(header, body, reader); SafeHeader(m) && m.kind != "" && m.source != "" && m.content == body
  {
    TextIsSafe(header, "kind", "note", reader);
    TextIsSafe(header, "title", "", reader);
    TextIsSafe(header, "source", "local", reader);
    TextIsSafe(header, "created_at", "", reader);
    if "metadata" in header && header["metadata"].Obj? {
      assert Safe(header["metadata"]);
    }
  }

  lemma {:induction false} LinesAreOneLine(text: string)
    ensures forall i | 0 <= i < |SplitLines(text)| :: OneLine(SplitLines(text)[i])
    decreases |text|
  {
    if |text| > 0 {
      LinesAreOneLine(text[FirstLine(text)..]);
    }
  }

  lemma {:induction false} JoinedHasOnlyLineFeeds(lines: seq<string>)
    requires forall i | 0 <= i < |lines| :: OneLine(lines[i])
    ensures OnlyLineFeeds(JoinLines(lines))
  {
    if |lines| > 1 {
      JoinedHasOnlyLineFeeds(lines[1..]);
    }
  }

  lemma {:induction false} StripKeepsOnlyLineFeeds(s: string)
    requires OnlyLineFeeds(s)
    ensures OnlyLineFeeds(Strip(s))
    decreases |s|
  {
    if |s| > 0 && IsSpace(s[0]) {
      StripKeepsOnlyLineFeeds(s[1..]);
    } else if |s| > 0 && IsSpace(s[|s| - 1]) {
      StripKeepsOnlyLineFeeds(s[..|s| - 1]);
    }
  }

  /** The body of any file is stripped and has line feeds only. */
  lemma BodyFits(lines: seq<string>, from: nat)
    requires from <= |lines| && forall i | 0 <= i < |lines| :: OneLine(lines[i])
    ensures var body := Strip(JoinLines(lines[from..])); Stripped(body) && OnlyLineFeeds(body)
  {
    JoinedHasOnlyLineFeeds(lines[from..]);
    StripKeepsOnlyLineFeeds(JoinLines(lines[from..]));
  }

  // ---- the header of a printed file ------------------------------------------------------------

  /** Each line with a line feed after it. */
  function Terminated(lines: seq<string>): string {
    if |lines| == 0 then "" else lines[0] + "\n" + Terminated(lines[1..])
  }

  lemma {:induction false} JoinOfTerminated(lines: seq<string>, last: seq<string>)
    requires |last| > 0
    ensures JoinLines(lines + last) == Terminated(lines) + JoinLines(last)
  {
    if |lines| == 0 {
      assert lines + last == last;
    } else {
      var rest := lines[1..] + last;
      assert lines + last == [lines[0]] + rest;
      JoinOneMore(lines[0], rest);
      JoinOfTerminated(lines[1..], last);
    }
  }

  lemma {:induction false} TerminatedIsCalm(lines: seq<string>)
    requires forall i | 0 <= i < |lines| :: Calm(lines[i])
    ensures Calm(Terminated(lines))
    ensures |lines| > 0 ==> Terminated(lines) != "" && Terminated(lines)[|Terminated(lines)| - 1] == '\n'
  {
    if |lines| > 0 {
      TerminatedIsCalm(lines[1..]);
      NoBackslashIsCalm("\n");
      CalmConcat(lines[0], "\n");
      CalmConcat(lines[0] + "\n", Terminated(lines[1..]));
    }
  }

  lemma HeaderLineIsCalm(field: (string, J.Json))
    requires J.Plain(field.1) && IsKey(field.0) && forall i | 0 <= i < |field.0| :: field.0[i] != '\\'
    ensures Calm(HeaderLine(field))
  {
    NoBackslashIsCalm(field.0);
    PrintIsCalm(field.1);
    Separated(field.0, ": ", J.Print(field.1));
  }

  lemma {:induction false} FirstBreakOfLonger(a: string, b: string)
    requires FirstBreak(a) < |a|
    ensures FirstBreak(a + b) == FirstBreak(a)
  {
    if !IsBreak(a[0]) {
      FirstBreakOfLonger(a[1..], b);
      assert (a + b)[1..] == a[1..] + b;
    } else {
      assert (a + b)[0] == a[0];
    }
  }

  lemma SlicesOfConcat(a: string, b: string, i: nat, n: nat)
    requires i <= |a| && n <= |a|
    ensures (a + b)[..i] == a[..i] && (a + b)[n..] == a[n..] + b
  {
  }

  lemma FirstOfConcat(a: string, b: string)
    requires a != "" && a[|a| - 1] == '\n'
    ensures SplitLines(a + b) == [a[..FirstBreak(a)]] + SplitLines(a[FirstLine(a)..] + b)
  {
    assert IsBreak(a[|a| - 1]);
    FirstBreakOfLonger(a, b);
    SameFirstLine(a, b);
    SlicesOfConcat(a, b, FirstBreak(a), FirstLine(a));
  }

  lemma ConsAssociates(line: string, a: seq<string>, b: seq<string>)
    ensures [line] + (a + b) == [line] + a + b
  {
  }

  /** The lines of a text that ends with a line feed come before those of what follows it. */
  lemma {:induction false} LinesOfConcat(a: string, b: string)
    requires a == "" || a[|a| - 1] == '\n'
    ensures SplitLines(a + b) == SplitLines(a) + SplitLines(b)
    decreases |a|
  {
    if a == "" {
      assert a + b == b;
    } else {
      var rest := a[FirstLine(a)..];
      FirstOfConcat(a, b);
      LinesOfConcat(rest, b);
      ConsAssociates(a[..FirstBreak(a)], SplitLines(rest), SplitLines(b));
    }
  }

  lemma SameFirstLine(a: string, b: string)
    requires a != "" && a[|a| - 1] == '\n' && FirstBreak(a) < |a| && FirstBreak(a + b) == FirstBreak(a)
    ensures FirstLine(a + b) == FirstLine(a)
  {
    var i := FirstBreak(a);
    assert (a + b)[i] == a[i];
    if i + 1 < |a| {
      assert (a + b)[i + 1] == a[i + 1];
    }
  }

  lemma HeaderThenDashes(h: string, last: seq<string>)
    requires |last| > 0 && (h == "" || h[|h| - 1] == '\n')
    ensures var lines := SplitLines(h + JoinLines(["---"] + last));
            && |SplitLines(h)| < |lines| && lines[|SplitLines(h)|] == "---"
            && forall i | 0 <= i < |SplitLines(h)| :: lines[i] == SplitLines(h)[i]
  {
    JoinOneMore("---", last);
    OneMoreLine("---", JoinLines(last));
    LinesOfConcat(h, JoinLines(["---"] + last));
  }

  /** The header of a printed file, as one text. */
  function HeaderText(m: Memory): string {
    Terminated(HeaderLines(HeaderFields(m)))
  }

  lemma HeaderTextIsCalm(m: Memory)
    requires PlainHeader(m)
    ensures var h := HeaderText(m); Calm(h) && (h == "" || h[|h| - 1] == '\n')
  {
    var header := HeaderLines(HeaderFields(m));
    forall i | 0 <= i < |header| ensures Calm(header[i]) {
      FieldsArePlain(m, i);
      HeaderLineIsCalm(HeaderFields(m)[i]);
    }
    TerminatedIsCalm(header);
  }

  lemma PrintedText(m: Memory)
    ensures Serialize(m) == "---" + "\n" + (HeaderText(m) + JoinLines(["---"] + ["", Strip(m.content), ""]))
  {
    var header, rest := HeaderLines(HeaderFields(m)), ["", Strip(m.content), ""];
    var last := ["---"] + rest;
    assert ["---", "", Strip(m.content), ""] == last;
    assert ["---"] + header + last == ["---"] + (header + last);
    JoinOneMore("---", header + last);
    JoinOfTerminated(header, last);
  }

  /** If all lines before a line of dashes are calm, so are those before the header's end. */
  lemma EndsByDashes(lines: seq<string>, k: nat)
    requires 1 <= k < |lines| && lines[k] == "---"
    requires forall i | 1 <= i < k :: CalmLine(lines[i])
    ensures forall i | 1 <= i < HeaderEnd(lines, 1) :: CalmLine(lines[i])
  {
    assert Stripped("---");
  }

  /** In a file whose header is calm and followed by a line of dashes, every line before the header's end is
      calm. */
  lemma CalmHeaderEnds(h: string, rest: seq<string>)
    requires Calm(h) && (h == "" || h[|h| - 1] == '\n') && |rest| > 0
    ensures var lines := SplitLines("---" + "\n" + (h + JoinLines(["---"] + rest)));
            |lines| > 0 && lines[0] == "---" && forall i | 1 <= i < HeaderEnd(lines, 1) :: CalmLine(lines[i])
  {
    var text := h + JoinLines(["---"] + rest);
    OneMoreLine("---", text);
    CalmThenDashes(h, rest);
    DashesThenLines(SplitLines(text), |SplitLines(h)|);
  }

  lemma CalmThenDashes(h: string, rest: seq<string>)
    requires Calm(h) && (h == "" || h[|h| - 1] == '\n') && |rest| > 0
    ensures var later, count := SplitLines(h + JoinLines(["---"] + rest)), |SplitLines(h)|;
            count < |later| && later[count] == "---" && forall i | 0 <= i < count :: CalmLine(later[i])
  {
    HeaderThenDashes(h, rest);
    CalmLines(h);
  }

  lemma DashesThenLines(later: seq<string>, count: nat)
    requires count < |later| && later[count] == "---" && forall i | 0 <= i < count :: CalmLine(later[i])
    ensures forall i | 1 <= i < HeaderEnd(["---"] + later, 1) :: CalmLine((["---"] + later)[i])
  {
    var lines := ["---"] + later;
    forall i | 1 <= i < count + 1 ensures CalmLine(lines[i]) {
      assert lines[i] == later[i - 1];
    }
    assert lines[count + 1] == later[count];
    EndsByDashes(lines, count + 1);
  }

  /** In a printed file, every line before the header's end is calm. */
  lemma PrintedHeaderIsCalm(m: Memory)
    requires PlainHeader(m)
    ensures var lines := SplitLines(Serialize(m));
            |lines| > 0 && lines[0] == "---" && forall i | 1 <= i < HeaderEnd(lines, 1) :: CalmLine(lines[i])
  {
    HeaderTextIsCalm(m);
    PrintedText(m);
    CalmHeaderEnds(HeaderText(m), ["", Strip(m.content), ""]);
  }

  /** Whatever memory a file was printed from, what is read back fits the format. */
  lemma ReadBackFits(m: Memory, reader: Reader)
    requires PlainHeader(m) && Sensible(reader)
    ensures Parse(Serialize(m), reader).Some? && Fits(Parse(Serialize(m), reader).value)
  {
    var lines := SplitLines(Serialize(m));
    PrintedHeaderIsCalm(m);
    assert Stripped("---");
    var end := HeaderEnd(lines, 1);
    HeaderIsSafe(lines, end);
    LinesAreOneLine(Serialize(m));
    var body := if end < |lines| then Strip(JoinLines(lines[end + 1..])) else "";
    if end < |lines| {
      BodyFits(lines, end + 1);
    }
    BuildIsSafe(HeaderUpTo(lines, end), body, reader);
  }

  /** A memory survives printing and reading exactly if it fits the format. */
  lemma RoundTripExactly(m: Memory, reader: Reader)
    requires PlainHeader(m) && Sensible(reader)
    ensures Parse(Serialize(m), reader) == Some(m) <==> Fits(m)
  {
    if Fits(m) {
      RoundTrip(m, reader);
    }
    ReadBackFits(m, reader);
  }
}
