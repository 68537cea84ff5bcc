/**
 What a memory file looks like, and what any text reads as, whether or not it was printed from a memory.
*/
module MemoryFileShape {
  import opened Basics
  import opened Text
  import opened Lines
  import opened MemoryFiles
  import J = Json

  // ---- printing --------------------------------------------------------------------------------

  function Field(key: string, v: J.Json): string {
    key + ": " + J.Print(v) + "\n"
  }

  function Ended(lines: seq<string>): seq<string> {
    seq(|lines|, i requires 0 <= i < |lines| => lines[i] + "\n")
  }

  lemma {:induction false} JoinIsConcat(lines: seq<string>)
    ensures JoinLines(lines + [""]) == Concat(Ended(lines))
  {
    if |lines| > 0 {
      JoinIsConcat(lines[1..]);
      assert (lines + [""])[1..] == lines[1..] + [""];
      assert Ended(lines)[1..] == Ended(lines[1..]);
      assert JoinLines(lines + [""]) == lines[0] + "\n" + JoinLines(lines[1..] + [""]);
    }
  }

  /** The lines of a file: the fields that every memory has, its metadata if it has any, and its content. */
  function Shape(m: Memory): seq<string> {
    ["---\n", Field("id", m.id), Field("kind", J.Str(m.kind)), Field("title", J.Str(m.title)),
     Field("source", J.Str(m.source)), Field("created_at", J.Str(m.createdAt))]
    + (if |m.metadata| == 0 then [] else [Field("metadata", J.Obj(m.metadata))])
    + ["---\n", "\n", Strip(m.content) + "\n"]
  }

  lemma EndedAppend(a: seq<string>, b: seq<string>)
    ensures Ended(a + b) == Ended(a) + Ended(b)
  {
  }

  lemma EndedHeader(m: Memory)
    ensures Ended(HeaderLines(CoreFields(m))) ==
            [Field("id", m.id), Field("kind", J.Str(m.kind)), Field("title", J.Str(m.title)),
             Field("source", J.Str(m.source)), Field("created_at", J.Str(m.createdAt))]
    ensures Ended(HeaderLines([("metadata", J.Obj(m.metadata))])) == [Field("metadata", J.Obj(m.metadata))]
    ensures HeaderLines(HeaderFields(m)) ==
            HeaderLines(CoreFields(m)) + if |m.metadata| == 0 then []
                                         else HeaderLines([("metadata", J.Obj(m.metadata))])
  {
  }

  lemma EndedRest(content: string)
    ensures Ended(["---", "", content]) == ["---\n", "\n", content + "\n"]
    ensures Ended(["---"]) == ["---\n"]
  {
    assert "---" + "\n" == "---\n" && "" + "\n" == "\n";
  }

  /** A file is its lines, one after the other. */
  lemma SerializedExactly(m: Memory)
    ensures Serialize(m) == Concat(Shape(m))
  {
    var core, last := HeaderLines(CoreFields(m)), ["---", "", Strip(m.content)];
    var more := if |m.metadata| == 0 then [] else HeaderLines([("metadata", J.Obj(m.metadata))]);
    EndedHeader(m);
    JoinIsConcat(["---"] + (core + more) + last);
    EndedAppend(["---"] + (core + more), last);
    EndedAppend(["---"], core + more);
    EndedAppend(core, more);
    assert ["---"] + (core + more) + last + [""] == ["---"] + (core + more) + ["---", "", Strip(m.content), ""];
    EndedRest(Strip(m.content));
    assert Shape(m) == Ended(["---"] + (core + more) + last);
  }

  // ---- reading the header ----------------------------------------------------------------------

  /** The line names the key: what stands before its first colon, at `i`, is the key. */
  predicate NamesAt(line: string, key: string, i: nat) {
    i < |line| && line[i] == ':' && ':' !in line[..i] && Strip(line[..i]) == key
  }

  ghost predicate NamesKey(line: string, key: string) {
    exists i: nat :: NamesAt(line, key, i)
  }

  /** The value is what the text is as JSON, or else the text itself. */
  predicate ReadsValue(raw: string, v: J.Json) {
    match J.Loads(raw)
    case Some(w) => v == w
    case None => v == J.Str(raw)
  }

  lemma ColonIsFirst(line: string, i: nat)
    requires i < |line| && line[i] == ':' && ':' !in line[..i]
    ensures FirstColon(line) == i
  {
    var n := FirstColon(line);
    assert forall k | 0 <= k < i :: line[k] in line[..i];
    assert forall k | 0 <= k < n :: line[k] in line[..n];
  }

  /** A line sets the key that it names, to the value of what comes after the colon, and no other. */
  lemma LineSetsExactly(header: map<string, J.Json>, line: string, key: string)
    ensures forall i: nat | NamesAt(line, key, i) ::
              key in ReadLine(header, line) && ReadsValue(Strip(line[i + 1..]), ReadLine(header, line)[key])
    ensures !NamesKey(line, key) ==>
              (key in ReadLine(header, line) <==> key in header)
              && (key in header ==> ReadLine(header, line)[key] == header[key])
  {
    forall i: nat | NamesAt(line, key, i) ensures FirstColon(line) == i {
      ColonIsFirst(line, i);
    }
    if FirstColon(line) < |line| && Strip(line[..FirstColon(line)]) == key {
      assert NamesAt(line, key, FirstColon(line));
    }
  }

  lemma OneMoreLine(lines: seq<string>, n: nat)
    requires 1 <= n < |lines|
    ensures HeaderUpTo(lines, n + 1) == ReadLine(HeaderUpTo(lines, n), lines[n])
  {
  }

  /** A key that no line of the header names is not set. */
  lemma {:induction false} UnnamedIsUnset(lines: seq<string>, n: nat, key: string)
    requires 1 <= n <= |lines| && forall j | 1 <= j < n :: !NamesKey(lines[j], key)
    ensures key !in HeaderUpTo(lines, n)
  {
    if n > 1 {
      UnnamedIsUnset(lines, n - 1, key);
      LineSetsExactly(HeaderUpTo(lines, n - 1), lines[n - 1], key);
    }
  }

  /** The key is set to the value of this text. */
  predicate Sets(header: map<string, J.Json>, key: string, raw: string) {
    key in header && ReadsValue(raw, header[key])
  }

  lemma StaysSet(header: map<string, J.Json>, line: string, key: string, raw: string)
    requires Sets(header, key, raw) && !NamesKey(line, key)
    ensures Sets(ReadLine(header, line), key, raw)
  {
    LineSetsExactly(header, line, key);
  }

  lemma IsSet(header: map<string, J.Json>, line: string, key: string, i: nat)
    requires NamesAt(line, key, i)
    ensures Sets(ReadLine(header, line), key, Strip(line[i + 1..]))
  {
    LineSetsExactly(header, line, key);
  }

  /** Of the lines that name a key, the last one counts. */
  lemma {:induction false} LastLineCounts(lines: seq<string>, n: nat, key: string, j: nat, i: nat)
    requires 1 <= j < n <= |lines| && NamesAt(lines[j], key, i)
    requires forall k | j < k < n :: !NamesKey(lines[k], key)
    ensures Sets(HeaderUpTo(lines, n), key, Strip(lines[j][i + 1..]))
    decreases n
  {
    var m: nat := n - 1;
    OneMoreLine(lines, m);
    if j < m {
      LastLineCounts(lines, m, key, j, i);
      StaysSet(HeaderUpTo(lines, m), lines[m], key, Strip(lines[j][i + 1..]));
    } else {
      IsSet(HeaderUpTo(lines, m), lines[m], key, i);
    }
  }

  // ---- reading a file --------------------------------------------------------------------------

  /** The header ends before line `n`, the first line of dashes after line 0, or the end of the text. */
  predicate HeaderIs(lines: seq<string>, n: nat) {
    && 1 <= n <= |lines| && (n < |lines| ==> Strip(lines[n]) == "---")
    && forall k | 1 <= k < n :: Strip(lines[k]) != "---"
  }

  /** A value that counts as missing where a text is expected. */
  predicate Empty(v: J.Json, reader: Reader) {
    v == J.Null || v == J.Bool(false) || v == J.Int(0) || v == J.Str("") || v == J.Arr([]) || v == J.Obj([])
    || (v.Real? && reader.isZero(v.text))
  }

  ghost predicate ReadsAs(header: map<string, J.Json>, key: string, otherwise: string, reader: Reader, text: string) {
    if key !in header || Empty(header[key], reader) then text == otherwise
    else header[key] == J.Str(text) || (!header[key].Str? && text == reader.str(header[key]))
  }

  lemma TextIsRead(header: map<string, J.Json>, key: string, otherwise: string, reader: Reader)
    ensures ReadsAs(header, key, otherwise, reader, TextOr(header, key, otherwise, reader))
  {
  }

  /** A text is a memory file exactly if its first line is a line of dashes. */
  lemma ParsesExactly(text: string, reader: Reader)
    ensures Parse(text, reader).Some? <==> |SplitLines(text)| > 0 && Strip(SplitLines(text)[0]) == "---"
  {
  }

  /** What each field of the memory is read from, and what it is if its line is missing or empty. */
  lemma ParsedExactly(text: string, reader: Reader, n: nat)
    requires Parse(text, reader).Some? && HeaderIs(SplitLines(text), n)
    ensures var m, header := Parse(text, reader).value, HeaderUpTo(SplitLines(text), n);
            && m.id == (if "id" in header then header["id"] else J.Null)
            && ReadsAs(header, "kind", "note", reader, m.kind) && ReadsAs(header, "title", "", reader, m.title)
            && ReadsAs(header, "source", "local", reader, m.source)
            && ReadsAs(header, "created_at", "", reader, m.createdAt)
            && (if "metadata" in header && header["metadata"].Obj? then header["metadata"] == J.Obj(m.metadata)
                else m.metadata == [])
    ensures Parse(text, reader).value.content
         == if n < |SplitLines(text)| then Strip(JoinLines(SplitLines(text)[n + 1..])) else ""
  {
    EndIsOne(SplitLines(text), n);
    var header := HeaderUpTo(SplitLines(text), n);
    TextIsRead(header, "kind", "note", reader);
    TextIsRead(header, "title", "", reader);
    TextIsRead(header, "source", "local", reader);
    TextIsRead(header, "created_at", "", reader);
  }

  lemma EndIsOne(lines: seq<string>, n: nat)
    requires HeaderIs(lines, n)
    ensures HeaderEnd(lines, 1) == n
  {
    assert forall k | 1 <= k < n :: Strip(lines[k]) != "---";
  }
}
