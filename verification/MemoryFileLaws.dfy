/**
 A memory file reads back as the memory it was printed from, exactly if the memory fits the format.

 The format cannot keep an empty kind or source, white space around the content, line breaks in the content
 other than line feeds, or a header string with one of the three line breaks that JSON leaves as they are.
*/
module MemoryFileLaws {
  import opened Basics
  import opened Text
  import opened Lines
  import J = Json
  import opened MemoryFiles

  // ---- what fits the format --------------------------------------------------------------------

  /** The line breaks that a printed JSON string contains as they are. */
  predicate IsBare(c: char) {
    c == '\U{85}' || c == '\U{2028}' || c == '\U{2029}'
  }

  predicate NoneBare(s: string) {
    forall i | 0 <= i < |s| :: !IsBare(s[i])
  }

  predicate OneLine(s: string) {
    forall i | 0 <= i < |s| :: !IsBreak(s[i])
  }

  /** No string in the value, nor any key, has such a break. */
  predicate Safe(v: J.Json)
    decreases v
  {
    match v
    case Str(s) => NoneBare(s)
    case Arr(items) => forall i | 0 <= i < |items| :: Safe(items[i])
    case Obj(fields) => forall i | 0 <= i < |fields| :: SafeField(fields[i])
    case _ => true
  }

  predicate SafeField(field: (string, J.Json))
    decreases field
  {
    NoneBare(field.0) && Safe(field.1)
  }

  predicate SafeHeader(m: Memory) {
    && Safe(m.id) && NoneBare(m.kind) && NoneBare(m.title) && NoneBare(m.source) && NoneBare(m.createdAt)
    && forall i | 0 <= i < |m.metadata| :: SafeField(m.metadata[i])
  }

  predicate OnlyLineFeeds(s: string) {
    forall i | 0 <= i < |s| :: IsBreak(s[i]) ==> s[i] == '\n'
  }

  predicate Fits(m: Memory) {
    m.kind != "" && m.source != "" && Stripped(m.content) && OnlyLineFeeds(m.content) && SafeHeader(m)
  }

  // ---- printed values stand on one line --------------------------------------------------------

  lemma OneLineConcat(a: string, b: string)
    requires OneLine(a) && OneLine(b)
    ensures OneLine(a + b)
  {
  }

  lemma EscapeCharOneLine(c: char)
    requires !IsBare(c)
    ensures OneLine(J.EscapeChar(c))
  {
    if c < ' ' && |J.EscapeChar(c)| == 6 {
      assert J.Hex(c as int / 16) >= '0' && J.Hex(c as int % 16) >= '0';
    }
  }

  lemma {:induction false} EscapeOneLine(s: string)
    requires NoneBare(s)
    ensures OneLine(J.Escape(s))
  {
    if |s| > 0 {
      EscapeCharOneLine(s[0]);
      EscapeOneLine(s[1..]);
      OneLineConcat(J.EscapeChar(s[0]), J.Escape(s[1..]));
    }
  }

  lemma QuoteOneLine(s: string)
    requires NoneBare(s)
    ensures OneLine(J.Quote(s))
  {
    EscapeOneLine(s);
  }

  lemma {:induction false} PrintNatOneLine(n: nat)
    ensures OneLine(J.PrintNat(n))
  {
    if n >= 10 {
      PrintNatOneLine(n / 10);
    }
  }

  lemma {:induction false} PrintOneLine(v: J.Json)
    requires Safe(v) && J.Plain(v)
    ensures OneLine(J.Print(v))
    decreases v, 1
  {
    match v
    case Int(n) => PrintNatOneLine(if n < 0 then -n else n);
    case Str(s) => QuoteOneLine(s);
    case Arr(items) => PrintItemsOneLine(items);
    case Obj(fields) => PrintFieldsOneLine(fields);
    case Null =>
    case Bool(_) =>
    case Real(_) =>
  }

  lemma {:induction false} PrintItemsOneLine(items: seq<J.Json>)
    requires forall i | 0 <= i < |items| :: Safe(items[i]) && J.Plain(items[i])
    ensures OneLine(J.PrintItems(items))
    decreases items, 0
  {
    if |items| > 0 {
      PrintOneLine(items[0]);
      PrintItemsOneLine(items[1..]);
    }
  }

  lemma {:induction false} PrintFieldOneLine(field: (string, J.Json))
    requires SafeField(field) && J.PlainField(field)
    ensures OneLine(J.PrintField(field))
    decreases field, 2
  {
    QuoteOneLine(field.0);
    PrintOneLine(field.1);
  }

  lemma {:induction false} PrintFieldsOneLine(fields: seq<(string, J.Json)>)
    requires forall i | 0 <= i < |fields| :: SafeField(fields[i]) && J.PlainField(fields[i])
    ensures OneLine(J.PrintFields(fields))
    decreases fields, 0
  {
    if |fields| > 0 {
      PrintFieldOneLine(fields[0]);
      PrintFieldsOneLine(fields[1..]);
    }
  }

  // ---- lines of joined lines -------------------------------------------------------------------

  lemma {:induction false} FirstBreakAfter(line: string, rest: string)
    requires OneLine(line)
    ensures FirstBreak(line + "\n" + rest) == |line|
    ensures FirstLine(line + "\n" + rest) == |line| + 1
  {
    if line == "" {
      assert ("" + "\n" + rest)[0] == '\n';
    } else {
      FirstBreakAfter(line[1..], rest);
      assert (line + "\n" + rest)[1..] == line[1..] + "\n" + rest;
    }
    assert (line + "\n" + rest)[|line|] == '\n';
  }

  lemma OneMoreLine(line: string, rest: string)
    requires OneLine(line)
    ensures SplitLines(line + "\n" + rest) == [line] + SplitLines(rest)
  {
    var text := line + "\n" + rest;
    FirstBreakAfter(line, rest);
    assert text[..|line|] == line && text[|line| + 1..] == rest;
  }

  lemma JoinOneMore(line: string, rest: seq<string>)
    requires |rest| > 0
    ensures JoinLines([line] + rest) == line + "\n" + JoinLines(rest)
  {
    assert ([line] + rest)[1..] == rest;
  }

  lemma {:induction false} LinesOfJoined(lines: seq<string>, last: seq<string>)
    requires |last| > 0 && forall i | 0 <= i < |lines| :: OneLine(lines[i])
    ensures SplitLines(JoinLines(lines + last)) == lines + SplitLines(JoinLines(last))
  {
    if |lines| == 0 {
      assert lines + last == last;
    } else {
      var rest := lines[1..] + last;
      assert lines + last == [lines[0]] + rest;
      JoinOneMore(lines[0], rest);
      OneMoreLine(lines[0], JoinLines(rest));
      LinesOfJoined(lines[1..], last);
      ConsConcat(lines, SplitLines(JoinLines(last)));
    }
  }

  lemma ConsConcat(a: seq<string>, b: seq<string>)
    requires |a| > 0
    ensures [a[0]] + (a[1..] + b) == a + b
  {
  }

  lemma LineFeedInside(text: string, i: nat)
    requires i < |text| && text[i] == '\n'
    ensures text + "\n" == text[..i] + "\n" + (text[i + 1..] + "\n")
    ensures text == text[..i] + "\n" + text[i + 1..]
  {
  }

  /** The lines of a text with line feeds only, joined again, are the text. */
  lemma {:induction false} JoinOfLines(text: string)
    requires OnlyLineFeeds(text)
    ensures JoinLines(SplitLines(text + "\n")) == text && |SplitLines(text + "\n")| > 0
    decreases |text|
  {
    var i := FirstBreak(text);
    var line := text[..i];
    if i == |text| {
      OneMoreLine(line, "");
      assert line == text && text + "\n" + "" == text + "\n";
    } else {
      var rest := text[i + 1..];
      LineFeedInside(text, i);
      JoinOfLines(rest);
      OneMoreLine(line, rest + "\n");
      JoinOneMore(line, SplitLines(rest + "\n"));
    }
  }

  // ---- reading the header ----------------------------------------------------------------------

  lemma StripPadded(s: string)
    requires s != "" && Stripped(s)
    ensures Strip(" " + s) == s
  {
    assert (" " + s)[1..] == s;
  }

  /** Stripping keeps a first character that is no white space. */
  lemma {:induction false} StripKeepsFirst(s: string)
    requires |s| > 0 && !IsSpace(s[0])
    ensures |Strip(s)| > 0 && Strip(s)[0] == s[0]
    decreases |s|
  {
    if IsSpace(s[|s| - 1]) {
      StripKeepsFirst(s[..|s| - 1]);
    }
  }

  /** A key of the header: lower case, no colon. */
  predicate IsKey(key: string) {
    && |key| > 0 && Stripped(key) && 'a' <= key[0] <= 'z'
    && forall i | 0 <= i < |key| :: key[i] != ':' && !IsBreak(key[i])
  }

  lemma {:induction false} ColonAfter(key: string, rest: string)
    requires forall i | 0 <= i < |key| :: key[i] != ':'
    ensures FirstColon(key + ":" + rest) == |key|
  {
    if key == "" {
      assert ("" + ":" + rest)[0] == ':';
    } else {
      ColonAfter(key[1..], rest);
      assert (key + ":" + rest)[1..] == key[1..] + ":" + rest;
    }
  }

  lemma PrintIsStripped(v: J.Json)
    requires J.Plain(v)
    ensures J.Print(v) != "" && Stripped(J.Print(v))
  {
    var s := J.Print(v);
    J.PrintStarts(v);
    if v.Int? {
      J.PrintNatRoundTrip(if v.n < 0 then -v.n else v.n);
      var digits := J.PrintNat(if v.n < 0 then -v.n else v.n);
      assert J.IsDigit(digits[0]) && J.IsDigit(digits[|digits| - 1]);
      assert s[|s| - 1] == digits[|digits| - 1];
    } else if v.Str? {
      assert s[|s| - 1] == '\"' && s[0] == '\"';
    } else if v.Arr? {
      assert s[|s| - 1] == ']' && s[0] == '[';
    } else if v.Obj? {
      assert s[|s| - 1] == '}' && s[0] == '{';
    }
  }

  /** Reading a header line that was printed sets its key to its value. */
  lemma LineIsRead(header: map<string, J.Json>, field: (string, J.Json))
    requires IsKey(field.0) && J.Plain(field.1)
    ensures ReadLine(header, HeaderLine(field)) == header[field.0 := field.1]
    ensures Strip(HeaderLine(field)) != "---"
  {
    PrintIsStripped(field.1);
    J.LoadsRoundTrip(field.1);
    LineOfText(header, field.0, J.Print(field.1));
  }

  lemma LineOfText(header: map<string, J.Json>, key: string, value: string)
    requires IsKey(key) && value != "" && Stripped(value)
    ensures ReadLine(header, key + ": " + value) == header[key := ReadRaw(value)]
    ensures Strip(key + ": " + value) != "---"
  {
    var line, i := key + ": " + value, |key|;
    assert line == key + ":" + (" " + value);
    ColonAfter(key, " " + value);
    assert line[..i] == key && line[i + 1..] == " " + value;
    StripPadded(value);
    assert line[0] == key[0];
    StripKeepsFirst(line);
  }

  /** The header as a dictionary of its first `n` fields. */
  function Dictionary(fields: seq<(string, J.Json)>, n: nat): map<string, J.Json>
    requires n <= |fields|
  {
    if n == 0 then map[] else Dictionary(fields, n - 1)[fields[n - 1].0 := fields[n - 1].1]
  }

  lemma {:induction false} HeaderIsRead(fields: seq<(string, J.Json)>, lines: seq<string>, n: nat)
    requires n <= |fields| < |lines|
    requires forall i | 0 <= i < |fields| :: IsKey(fields[i].0) && J.Plain(fields[i].1)
    requires forall i | 0 <= i < |fields| :: lines[i + 1] == HeaderLine(fields[i])
    ensures HeaderUpTo(lines, n + 1) == Dictionary(fields, n)
  {
    if n > 0 {
      HeaderIsRead(fields, lines, n - 1);
      assert lines[n - 1 + 1] == HeaderLine(fields[n - 1]);
      LineIsRead(Dictionary(fields, n - 1), fields[n - 1]);
    }
  }

  /** The header ends at the line of dashes after its fields. */
  lemma HeaderEndsAfter(fields: seq<(string, J.Json)>, lines: seq<string>)
    requires |fields| + 1 < |lines| && lines[|fields| + 1] == "---"
    requires forall i | 0 <= i < |fields| :: IsKey(fields[i].0) && J.Plain(fields[i].1)
    requires forall i | 0 <= i < |fields| :: lines[i + 1] == HeaderLine(fields[i])
    ensures HeaderEnd(lines, 1) == |fields| + 1
  {
    forall k | 1 <= k < |fields| + 1 ensures Strip(lines[k]) != "---" {
      assert lines[k - 1 + 1] == HeaderLine(fields[k - 1]);
      LineIsRead(map[], fields[k - 1]);
    }
    assert Stripped("---");
  }

  // ---- the round trip --------------------------------------------------------------------------

  /** The header values can be printed and read back as JSON, and objects list distinct keys. */
  predicate PlainHeader(m: Memory) {
    J.Plain(m.id) && J.Plain(J.Obj(m.metadata))
  }

  lemma FieldsArePlain(m: Memory, i: nat)
    requires PlainHeader(m) && i < |HeaderFields(m)|
    ensures var field := HeaderFields(m)[i];
            IsKey(field.0) && J.Plain(field.1) && (SafeHeader(m) ==> Safe(field.1))
  {
  }

  lemma HeaderLineOneLine(field: (string, J.Json))
    requires IsKey(field.0) && J.Plain(field.1) && Safe(field.1)
    ensures OneLine(HeaderLine(field))
  {
    PrintOneLine(field.1);
    OneLineConcat(field.0, ": " + J.Print(field.1));
    assert HeaderLine(field) == field.0 + (": " + J.Print(field.1));
  }

  lemma BuildOfDictionary(m: Memory, body: string, reader: Reader)
    requires m.kind != "" && m.source != ""
    ensures Build(Dictionary(HeaderFields(m), |HeaderFields(m)|), body, reader) == m.(content := body)
  {
    var fields := HeaderFields(m);
    var five := Dictionary(fields, 5);
    assert Dictionary(fields, 4) == Dictionary(fields, 3)["source" := J.Str(m.source)];
    assert Dictionary(fields, 3) == Dictionary(fields, 2)["title" := J.Str(m.title)];
    assert Dictionary(fields, 2) == Dictionary(fields, 1)["kind" := J.Str(m.kind)];
    assert Dictionary(fields, 1) == Dictionary(fields, 0)["id" := m.id];
  }

  lemma BodyIsRead(content: string)
    requires Stripped(content) && OnlyLineFeeds(content)
    ensures Strip(JoinLines([""] + SplitLines(content + "\n"))) == content
  {
    JoinOfLines(content);
    JoinOneMore("", SplitLines(content + "\n"));
    var text := "" + "\n" + content;
    assert text[1..] == content;
  }

  /** The lines of a file whose header values stand on one line each. */
  lemma FileLines(m: Memory)
    requires PlainHeader(m) && SafeHeader(m)
    ensures SplitLines(Serialize(m)) ==
            ["---"] + HeaderLines(HeaderFields(m)) + ["---", ""] + SplitLines(Strip(m.content) + "\n")
  {
    var front := ["---"] + HeaderLines(HeaderFields(m)) + ["---", ""];
    var last := [Strip(m.content), ""];
    forall i | 0 <= i < |front| ensures OneLine(front[i]) {
      if 0 < i <= |HeaderFields(m)| {
        FieldsArePlain(m, i - 1);
        HeaderLineOneLine(HeaderFields(m)[i - 1]);
        assert front[i] == HeaderLine(HeaderFields(m)[i - 1]);
      }
    }
    LinesOfJoined(front, last);
    assert ["---"] + HeaderLines(HeaderFields(m)) + (["---", ""] + last) == front + last;
    assert ["---", "", Strip(m.content), ""] == ["---", ""] + last;
    assert JoinLines(last) == Strip(m.content) + "\n";
  }

  /** The lines are a header of these fields between lines of dashes, an empty line and these lines. */
  ghost predicate FileOf(lines: seq<string>, fields: seq<(string, J.Json)>, body: seq<string>) {
    && |lines| > |fields| + 2
    && lines[0] == "---" && lines[|fields| + 1] == "---" && lines[|fields| + 2..] == [""] + body
    && forall i | 0 <= i < |fields| :: lines[i + 1] == HeaderLine(fields[i])
  }

  lemma FileOfParts(fields: seq<(string, J.Json)>, body: seq<string>)
    ensures FileOf(["---"] + HeaderLines(fields) + ["---", ""] + body, fields, body)
  {
    var lines := ["---"] + HeaderLines(fields) + ["---", ""] + body;
    forall i | 0 <= i < |fields| ensures lines[i + 1] == HeaderLine(fields[i]) {
      assert lines[i + 1] == HeaderLines(fields)[i];
    }
    assert lines[|fields| + 2..] == [""] + body;
  }

  lemma ParsedFrom(text: string, end: nat, header: map<string, J.Json>, body: string, reader: Reader)
    requires |SplitLines(text)| > 0 && SplitLines(text)[0] == "---"
    requires HeaderEnd(SplitLines(text), 1) == end < |SplitLines(text)| && end >= 1
    requires HeaderUpTo(SplitLines(text), end) == header
    requires Strip(JoinLines(SplitLines(text)[end + 1..])) == body
    ensures Parse(text, reader) == Some(Build(header, body, reader))
  {
    assert Stripped("---");
  }

  /** Reading a file with these lines. */
  lemma FileIsRead(text: string, fields: seq<(string, J.Json)>, content: string, reader: Reader)
    requires FileOf(SplitLines(text), fields, SplitLines(content + "\n"))
    requires forall i | 0 <= i < |fields| :: IsKey(fields[i].0) && J.Plain(fields[i].1)
    requires Stripped(content) && OnlyLineFeeds(content)
    ensures Parse(text, reader) == Some(Build(Dictionary(fields, |fields|), content, reader))
  {
    HeaderEndsAfter(fields, SplitLines(text));
    HeaderIsRead(fields, SplitLines(text), |fields|);
    BodyIsRead(content);
    ParsedFrom(text, |fields| + 1, Dictionary(fields, |fields|), content, reader);
  }

  /** Printing and reading keeps every memory that fits the format, whatever its strings contain besides. */
  lemma RoundTrip(m: Memory, reader: Reader)
    requires PlainHeader(m) && Fits(m)
    ensures Parse(Serialize(m), reader) == Some(m)
  {
    var fields := HeaderFields(m);
    FileLines(m);
    forall i | 0 <= i < |fields| ensures IsKey(fields[i].0) && J.Plain(fields[i].1) {
      FieldsArePlain(m, i);
    }
    FileOfParts(fields, SplitLines(m.content + "\n"));
    FileIsRead(Serialize(m), fields, m.content, reader);
    BuildOfDictionary(m, m.content, reader);
  }
}
