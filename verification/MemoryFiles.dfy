/**
 Memory files: a memory is printed as a header of JSON values between two lines of dashes and a body, and
 read back line by line.
*/
module MemoryFiles {
  import opened Basics
  import opened Text
  import opened Lines
  import J = Json

  datatype Memory = Memory(
    id: J.Json, kind: string, title: string, source: string, createdAt: string,
    metadata: seq<(string, J.Json)>, content: string)

  /** How Python turns a value that is no string into text, and which numbers with a fraction it takes for
      zero. */
  datatype Reader = Reader(str: J.Json -> string, isZero: string -> bool)

  // ---- printing --------------------------------------------------------------------------------

  /** Joins lines with line feeds between them. */
  function JoinLines(lines: seq<string>): string {
    if |lines| == 0 then "" else if |lines| == 1 then lines[0] else lines[0] + "\n" + JoinLines(lines[1..])
  }

  function CoreFields(m: Memory): seq<(string, J.Json)> {
    [("id", m.id), ("kind", J.Str(m.kind)), ("title", J.Str(m.title)), ("source", J.Str(m.source)),
     ("created_at", J.Str(m.createdAt))]
  }

  /** The header's keys and values, in order. Empty metadata is left out. The fields of an object are
      printed in the order of their keys, and here in the order in which they are listed, so the metadata of
      a memory stands for its fields sorted by key, at every depth. */
  function HeaderFields(m: Memory): seq<(string, J.Json)> {
    CoreFields(m) + if |m.metadata| > 0 then [("metadata", J.Obj(m.metadata))] else []
  }

  function HeaderLine(field: (string, J.Json)): string {
    field.0 + ": " + J.Print(field.1)
  }

  function HeaderLines(fields: seq<(string, J.Json)>): seq<string> {
    seq(|fields|, i requires 0 <= i < |fields| => HeaderLine(fields[i]))
  }

  function Serialize(m: Memory): string {
    JoinLines(["---"] + HeaderLines(HeaderFields(m)) + ["---", "", Strip(m.content), ""])
  }

  // ---- reading ---------------------------------------------------------------------------------

  /** Where the first colon is, or the length of the line. */
  function FirstColon(line: string): (i: nat)
    ensures i <= |line| && ':' !in line[..i] && (i < |line| ==> line[i] == ':')
  {
    if |line| == 0 || line[0] == ':' then 0
    else
      var i := 1 + FirstColon(line[1..]);
      assert line[..i] == [line[0]] + line[1..][..i - 1];
      i
  }

  /** A header value that is no JSON is taken as it stands. */
  function ReadRaw(raw: string): J.Json {
    match J.Loads(raw)
    case Some(v) => v
    case None => J.Str(raw)
  }

  function ReadLine(header: map<string, J.Json>, line: string): map<string, J.Json> {
    var i := FirstColon(line);
    if i == |line| then header else header[Strip(line[..i]) := ReadRaw(Strip(line[i + 1..]))]
  }

  /** Where the header ends: at the first line of dashes from line `i` on. */
  function HeaderEnd(lines: seq<string>, i: nat): (n: nat)
    requires i <= |lines|
    ensures i <= n <= |lines| && (n < |lines| ==> Strip(lines[n]) == "---")
    ensures forall k | i <= k < n :: Strip(lines[k]) != "---"
    decreases |lines| - i
  {
    if i == |lines| || Strip(lines[i]) == "---" then i else HeaderEnd(lines, i + 1)
  }

  /** The header after lines 1, 2, ... up to but not including `n`. */
  function HeaderUpTo(lines: seq<string>, n: nat): map<string, J.Json>
    requires 1 <= n <= |lines|
  {
    if n == 1 then map[] else ReadLine(HeaderUpTo(lines, n - 1), lines[n - 1])
  }

  predicate Falsy(v: J.Json, reader: Reader) {
    match v
    case Null => true
    case Bool(b) => !b
    case Int(n) => n == 0
    case Real(text) => reader.isZero(text)
    case Str(s) => s == ""
    case Arr(items) => |items| == 0
    case Obj(fields) => |fields| == 0
  }

  /** A header value as text, or the default if it is missing or falsy. */
  function TextOr(header: map<string, J.Json>, key: string, default_: string, reader: Reader): string {
    if key !in header || Falsy(header[key], reader) then default_
    else if header[key].Str? then header[key].s
    else reader.str(header[key])
  }

  function Build(header: map<string, J.Json>, body: string, reader: Reader): Memory {
    Memory(
      if "id" in header then header["id"] else J.Null,
      TextOr(header, "kind", "note", reader),
      TextOr(header, "title", "", reader),
      TextOr(header, "source", "local", reader),
      TextOr(header, "created_at", "", reader),
      if "metadata" in header && header["metadata"].Obj? then header["metadata"].fields else [],
      body)
  }

  function Parse(text: string, reader: Reader): Option<Memory> {
    var lines := SplitLines(text);
    if |lines| == 0 || Strip(lines[0]) != "---" then None
    else
      var end := HeaderEnd(lines, 1);
      var body := if end < |lines| then Strip(JoinLines(lines[end + 1..])) else "";
      Some(Build(HeaderUpTo(lines, end), body, reader))
  }

  // ---- the loops -------------------------------------------------------------------------------

  method SerializeMemory(m: Memory) returns (text: string)
    ensures text == Serialize(m)
  {
    var lines := ["---"];
    var fields := CoreFields(m);
    for i := 0 to |fields|
      invariant lines == ["---"] + HeaderLines(fields)[..i]
    {
      lines := lines + [HeaderLine(fields[i])];
    }
    var metadata: seq<(string, J.Json)> := [];
    if |m.metadata| > 0 {
      metadata := [("metadata", J.Obj(m.metadata))];
      lines := lines + [HeaderLine(metadata[0])];
    }
    assert HeaderFields(m) == fields + metadata;
    assert HeaderLines(fields + metadata) == HeaderLines(fields) + HeaderLines(metadata);
    assert lines == ["---"] + HeaderLines(HeaderFields(m));
    text := JoinLines(lines + ["---", "", Strip(m.content), ""]);
  }

  /** One header line: the key before the colon and the value after it. */
  method ReadInto(header: map<string, J.Json>, line: string) returns (r: map<string, J.Json>)
    ensures r == ReadLine(header, line)
  {
    r := header;
    var colon := FirstColon(line);
    if colon < |line| {
      r := r[Strip(line[..colon]) := ReadRaw(Strip(line[colon + 1..]))];
    }
  }

  method ParseMemoryFile(text: string, reader: Reader) returns (r: Option<Memory>)
    ensures r == Parse(text, reader)
  {
    var lines := SplitLines(text);
    if |lines| == 0 || Strip(lines[0]) != "---" {
      return None;
    }
    var header: map<string, J.Json> := map[];
    var i := 1;
    while i < |lines| && Strip(lines[i]) != "---"
      invariant 1 <= i <= |lines| && header == HeaderUpTo(lines, i) && HeaderEnd(lines, 1) == HeaderEnd(lines, i)
    {
      header := ReadInto(header, lines[i]);
      i := i + 1;
    }
    var body := if i < |lines| then Strip(JoinLines(lines[i + 1..])) else "";
    r := Some(Build(header, body, reader));
  }
}
