/**
 JSON texts (RFC 8259) as Python's `json` module prints and reads them, without escaping beyond ASCII.

 An object is the list of its fields, by key. Numbers with a fraction or an exponent are kept as text.
*/
module Json {
  import opened Basics

  datatype Json =
    | Null | Bool(b: bool) | Int(n: int) | Real(text: string) | Str(s: string)
    | Arr(items: seq<Json>) | Obj(fields: seq<(string, Json)>)

  // ---- printing --------------------------------------------------------------------------------

  function Digit(d: nat): char
    requires d < 10
  {
    '0' + d as char
  }

  function Hex(d: nat): char
    requires d < 16
  {
    if d < 10 then Digit(d) else 'a' + (d - 10) as char
  }

  function EscapeChar(c: char): (e: string)
    ensures 1 <= |e| <= 6
  {
    if c == '\"' then "\\\""
    else if c == '\\' then "\\\\"
    else if c == '\n' then "\\n"
    else if c == '\r' then "\\r"
    else if c == '\t' then "\\t"
    else if c == '\U{0c}' then "\\f"
    else if c == '\U{08}' then "\\b"
    else if c < ' ' then ['\\', 'u', '0', '0', Hex(c as int / 16), Hex(c as int % 16)]
    else [c]
  }

  function Escape(s: string): string {
    if |s| == 0 then "" else EscapeChar(s[0]) + Escape(s[1..])
  }

  function Quote(s: string): string {
    "\"" + Escape(s) + "\""
  }

  function PrintNat(n: nat): string {
    if n < 10 then [Digit(n)] else PrintNat(n / 10) + [Digit(n % 10)]
  }

  function PrintInt(n: int): string {
    if n < 0 then "-" + PrintNat(-n) else PrintNat(n)
  }

  function Print(v: Json): string
    decreases v, 1
  {
    match v
    case Null => "null"
    case Bool(b) => if b then "true" else "false"
    case Int(n) => PrintInt(n)
    case Real(text) => text
    case Str(s) => Quote(s)
    case Arr(items) => "[" + PrintItems(items) + "]"
    case Obj(fields) => "{" + PrintFields(fields) + "}"
  }

  function PrintItems(items: seq<Json>): string
    decreases items, 0
  {
    if |items| == 0 then ""
    else if |items| == 1 then Print(items[0])
    else Print(items[0]) + ", " + PrintItems(items[1..])
  }

  function PrintField(field: (string, Json)): string
    decreases field, 2
  {
    Quote(field.0) + ": " + Print(field.1)
  }

  function PrintFields(fields: seq<(string, Json)>): string
    decreases fields, 0
  {
    if |fields| == 0 then ""
    else if |fields| == 1 then PrintField(fields[0])
    else PrintField(fields[0]) + ", " + PrintFields(fields[1..])
  }

  // ---- reading ---------------------------------------------------------------------------------

  predicate IsSpace(c: char) {
    c == ' ' || c == '\t' || c == '\n' || c == '\r'
  }

  function Skip(s: string): (r: string)
    ensures |r| <= |s|
  {
    if |s| > 0 && IsSpace(s[0]) then Skip(s[1..]) else s
  }

  predicate IsDigit(c: char) {
    '0' <= c <= '9'
  }

  function HexValue(c: char): Option<nat> {
    if IsDigit(c) then Some((c - '0') as nat)
    else if 'a' <= c <= 'f' then Some((c - 'a') as nat + 10)
    else if 'A' <= c <= 'F' then Some((c - 'A') as nat + 10)
    else None
  }

  /** The number that four hexadecimal digits at the start of the text write. */
  function Hex4(s: string): (r: Option<nat>)
    ensures r.Some? ==> |s| >= 4 && r.value < 0x1_0000
  {
    if |s| < 4 then None
    else
      match (HexValue(s[0]), HexValue(s[1]), HexValue(s[2]), HexValue(s[3]))
      case (Some(a), Some(b), Some(c), Some(d)) =>
        assert a < 16 && b < 16 && c < 16 && d < 16;
        Some(a * 4096 + b * 256 + c * 16 + d)
      case (_, _, _, _) => None
  }

  /** The character that an escape stands for, given what follows its backslash, and how many characters of
      that it takes. An unpaired surrogate is no character. */
  function ReadEscape(s: string): (r: Option<(char, nat)>)
    ensures r.Some? ==> 0 < r.value.1 <= |s|
  {
    if |s| == 0 then None
    else if s[0] == '\"' || s[0] == '\\' || s[0] == '/' then Some((s[0], 1))
    else if s[0] == 'n' then Some(('\n', 1))
    else if s[0] == 'r' then Some(('\r', 1))
    else if s[0] == 't' then Some(('\t', 1))
    else if s[0] == 'f' then Some(('\U{0c}', 1))
    else if s[0] == 'b' then Some(('\U{08}', 1))
    else if s[0] != 'u' || Hex4(s[1..]).None? then None
    else
      var n := Hex4(s[1..]).value;
      if n < 0xD800 || n >= 0xE000 then Some((n as char, 5))
      else if n < 0xDC00 && |s| >= 11 && s[5] == '\\' && s[6] == 'u' && Hex4(s[7..]).Some?
              && 0xDC00 <= Hex4(s[7..]).value < 0xE000 then
        Some(((0x1_0000 + (n - 0xD800) * 1024 + (Hex4(s[7..]).value - 0xDC00)) as char, 11))
      else None
  }

  /** The rest of a string after its opening quote, and what follows its closing quote. */
  function ReadChars(s: string): (r: Option<(string, string)>)
    ensures r.Some? ==> |r.value.1| < |s|
    decreases |s|
  {
    if |s| == 0 then None
    else if s[0] == '\"' then Some(("", s[1..]))
    else if s[0] == '\\' then
      match ReadEscape(s[1..])
      case None => None
      case Some((c, k)) =>
        match ReadChars(s[1 + k..])
        case None => None
        case Some((chars, rest)) => Some(([c] + chars, rest))
    else if s[0] < ' ' then None
    else
      match ReadChars(s[1..])
      case None => None
      case Some((chars, rest)) => Some(([s[0]] + chars, rest))
  }

  /** Where the digits end that start at position `i`. */
  function DigitsEnd(s: string, i: nat): (k: nat)
    requires i <= |s|
    ensures i <= k <= |s| && (forall j | i <= j < k :: IsDigit(s[j])) && (k < |s| ==> !IsDigit(s[k]))
    decreases |s| - i
  {
    if i == |s| || !IsDigit(s[i]) then i else DigitsEnd(s, i + 1)
  }

  /** The number that the first `n` digits write. */
  function NatUpTo(s: string, n: nat): nat
    requires n <= |s| && forall j | 0 <= j < n :: IsDigit(s[j])
  {
    if n == 0 then 0
    else
      assert IsDigit(s[n - 1]);
      NatUpTo(s, n - 1) * 10 + (s[n - 1] - '0') as nat
  }

  /** Where a fraction ends that starts at position `i`, if one does. */
  function FractionEnd(s: string, i: nat): (k: nat)
    requires i <= |s|
    ensures i <= k <= |s|
  {
    if i < |s| && s[i] == '.' && DigitsEnd(s, i + 1) > i + 1 then DigitsEnd(s, i + 1) else i
  }

  function ExponentEnd(s: string, i: nat): (k: nat)
    requires i <= |s|
    ensures i <= k <= |s|
  {
    if i == |s| || (s[i] != 'e' && s[i] != 'E') then i
    else
      var start := if i + 1 < |s| && (s[i + 1] == '+' || s[i + 1] == '-') then i + 2 else i + 1;
      var end := DigitsEnd(s, start);
      if end == start then i else end
  }

  /** A number after its sign. */
  function ReadUnsigned(s: string, sign: string): (r: Option<(Json, string)>)
    ensures r.Some? ==> |r.value.1| < |s|
  {
    var digits := DigitsEnd(s, 0);
    if digits == 0 then None
    else
      var whole := if s[0] == '0' then 1 else digits;
      var end := ExponentEnd(s, FractionEnd(s, whole));
      if end > whole then Some((Real(sign + s[..end]), s[end..]))
      else
        var n: int := NatUpTo(s, whole);
        Some((Int(if sign == "-" then -n else n), s[whole..]))
  }

  function ReadNumber(s: string): (r: Option<(Json, string)>)
    ensures r.Some? ==> |r.value.1| < |s|
  {
    if |s| > 0 && s[0] == '-' then ReadUnsigned(s[1..], "-") else ReadUnsigned(s, "")
  }

  /** Sets a field, as a dictionary does: a repeated key keeps its place and takes the later value. */
  function Put(fields: seq<(string, Json)>, key: string, value: Json): seq<(string, Json)> {
    if |fields| == 0 then [(key, value)]
    else if fields[0].0 == key then [(key, value)] + fields[1..]
    else [fields[0]] + Put(fields[1..], key, value)
  }

  /** A value that is a word, and the word's length. */
  function ReadWord(s: string): (r: Option<(Json, nat)>)
    ensures r.Some? ==> 0 < r.value.1 <= |s| && forall i | 0 <= i < r.value.1 :: s[i] != '\\'
    ensures r.Some? ==> r.value.0.Null? || r.value.0.Bool? || r.value.0.Real?
  {
    if "null" <= s then Some((Null, 4))
    else if "true" <= s then Some((Bool(true), 4))
    else if "false" <= s then Some((Bool(false), 5))
    else if "NaN" <= s then Some((Real("NaN"), 3))
    else if "Infinity" <= s then Some((Real("Infinity"), 8))
    else if "-Infinity" <= s then Some((Real("-Infinity"), 9))
    else None
  }

  function ReadValue(s: string): (r: Option<(Json, string)>)
    ensures r.Some? ==> |r.value.1| < |s|
    decreases |s|, 1
  {
    if |s| == 0 then None
    else if s[0] == '\"' then
      match ReadChars(s[1..])
      case None => None
      case Some((chars, rest)) => Some((Str(chars), rest))
    else if s[0] == '[' then
      var t := Skip(s[1..]);
      if |t| > 0 && t[0] == ']' then Some((Arr([]), t[1..])) else ReadItems(t, [])
    else if s[0] == '{' then
      var t := Skip(s[1..]);
      if |t| > 0 && t[0] == '}' then Some((Obj([]), t[1..])) else ReadFields(t, [])
    else
      match ReadWord(s)
      case Some((v, k)) => Some((v, s[k..]))
      case None => ReadNumber(s)
  }

  /** The items of an array from here on, after those already read. */
  function ReadItems(s: string, read: seq<Json>): (r: Option<(Json, string)>)
    ensures r.Some? ==> |r.value.1| < |s|
    decreases |s|, 2
  {
    match ReadValue(s)
    case None => None
    case Some((v, after)) =>
      var t := Skip(after);
      if |t| == 0 then None
      else if t[0] == ']' then Some((Arr(read + [v]), t[1..]))
      else if t[0] == ',' then ReadItems(Skip(t[1..]), read + [v])
      else None
  }

  /** The fields of an object from here on, after those already read. */
  function ReadFields(s: string, read: seq<(string, Json)>): (r: Option<(Json, string)>)
    ensures r.Some? ==> |r.value.1| < |s|
    decreases |s|, 2
  {
    if |s| == 0 || s[0] != '\"' then None
    else
      match ReadChars(s[1..])
      case None => None
      case Some((key, after)) =>
        var t := Skip(after);
        if |t| == 0 || t[0] != ':' then None
        else
          match ReadValue(Skip(t[1..]))
          case None => None
          case Some((v, later)) =>
            var u := Skip(later);
            if |u| == 0 then None
            else if u[0] == '}' then Some((Obj(Put(read, key, v)), u[1..]))
            else if u[0] == ',' then ReadFields(Skip(u[1..]), Put(read, key, v))
            else None
  }

  /** A whole text. */
  function Loads(s: string): Option<Json> {
    match ReadValue(Skip(s))
    case None => None
    case Some((v, rest)) => if Skip(rest) == "" then Some(v) else None
  }

  // ---- reading what was printed ----------------------------------------------------------------

  /** No decimal fraction or special number occurs, and no object has a key twice. */
  predicate Plain(v: Json)
    decreases v
  {
    match v
    case Real(_) => false
    case Arr(items) => forall i | 0 <= i < |items| :: Plain(items[i])
    case Obj(fields) => DistinctKeys(fields) && forall i | 0 <= i < |fields| :: PlainField(fields[i])
    case _ => true
  }

  predicate PlainField(field: (string, Json))
    decreases field
  {
    Plain(field.1)
  }

  predicate DistinctKeys(fields: seq<(string, Json)>) {
    forall i, j | 0 <= i < j < |fields| :: fields[i].0 != fields[j].0
  }

  lemma HexRoundTrip(d: nat)
    requires d < 16
    ensures HexValue(Hex(d)) == Some(d)
  {
  }

  lemma EscapeRoundTrip(c: char, rest: string)
    requires EscapeChar(c) != [c]
    ensures EscapeChar(c)[0] == '\\'
    ensures ReadEscape((EscapeChar(c) + rest)[1..]) == Some((c, |EscapeChar(c)| - 1))
  {
    var e := (EscapeChar(c) + rest)[1..];
    if c < ' ' {
      HexRoundTrip(c as int / 16);
      HexRoundTrip(c as int % 16);
      if |EscapeChar(c)| == 6 {
        assert e[1..][0] == '0' && e[1..][1] == '0';
        assert e[1..][2] == Hex(c as int / 16) && e[1..][3] == Hex(c as int % 16);
        assert Hex4(e[1..]) == Some(c as int);
      }
    }
  }

  lemma OneCharRoundTrip(c: char, later: string, chars: string, rest: string)
    requires ReadChars(later) == Some((chars, rest))
    ensures ReadChars(EscapeChar(c) + later) == Some(([c] + chars, rest))
  {
    var e := EscapeChar(c);
    var text := e + later;
    if e == [c] {
      assert text[1..] == later;
    } else {
      EscapeRoundTrip(c, later);
      assert text[1 + (|e| - 1)..] == later;
    }
  }

  lemma {:induction false} CharsRoundTrip(s: string, rest: string)
    ensures ReadChars(Escape(s) + "\"" + rest) == Some((s, rest))
  {
    if |s| == 0 {
      assert ("" + "\"" + rest)[1..] == rest;
    } else {
      var later := Escape(s[1..]) + "\"" + rest;
      CharsRoundTrip(s[1..], rest);
      OneCharRoundTrip(s[0], later, s[1..], rest);
      assert Escape(s) + "\"" + rest == EscapeChar(s[0]) + later;
      assert s == [s[0]] + s[1..];
    }
  }

  // ---- numbers ---------------------------------------------------------------------------------

  /** What may follow a printed value: not more of a number. */
  predicate Delimited(rest: string) {
    |rest| > 0 ==> !IsDigit(rest[0]) && rest[0] != '.' && rest[0] != 'e' && rest[0] != 'E'
  }

  lemma {:induction false} NatOfPrefix(s: string, t: string, n: nat)
    requires n <= |s| && n <= |t| && forall j | 0 <= j < n :: IsDigit(s[j]) && s[j] == t[j]
    ensures NatUpTo(s, n) == NatUpTo(t, n)
  {
    if n > 0 {
      NatOfPrefix(s, t, n - 1);
    }
  }

  predicate AllDigits(s: string) {
    forall i | 0 <= i < |s| :: IsDigit(s[i])
  }

  lemma {:induction false} PrintNatRoundTrip(n: nat)
    ensures var s := PrintNat(n);
            && |s| > 0 && AllDigits(s) && NatUpTo(s, |s|) == n && (s[0] == '0' ==> |s| == 1)
  {
    if n >= 10 {
      var s, front := PrintNat(n), PrintNat(n / 10);
      PrintNatRoundTrip(n / 10);
      NatOfPrefix(front, s, |front|);
    } else {
      assert NatUpTo(PrintNat(n), 1) == NatUpTo(PrintNat(n), 0) * 10 + n;
    }
  }

  lemma WholeNumber(s: string, sign: string, w: nat)
    requires 0 < w <= |s| && (forall j | 0 <= j < w :: IsDigit(s[j])) && (s[0] == '0' ==> w == 1)
    requires Delimited(s[w..])
    ensures var n: int := NatUpTo(s, w);
            ReadUnsigned(s, sign) == Some((Int(if sign == "-" then -n else n), s[w..]))
  {
    assert w < |s| ==> s[w] == s[w..][0];
    assert DigitsEnd(s, 0) == w;
  }

  /** Reading digits that are followed by something else. */
  lemma DigitsRoundTrip(sign: string, digits: string, rest: string)
    requires Delimited(rest) && |digits| > 0 && AllDigits(digits)
    requires digits[0] == '0' ==> |digits| == 1
    ensures var n: int := NatUpTo(digits, |digits|);
            ReadUnsigned(digits + rest, sign) == Some((Int(if sign == "-" then -n else n), rest))
  {
    var s, w := digits + rest, |digits|;
    forall j | 0 <= j < w ensures IsDigit(s[j]) && s[j] == digits[j] {
      assert IsDigit(digits[j]);
    }
    assert s[w..] == rest;
    WholeNumber(s, sign, w);
    NatOfPrefix(digits, s, w);
  }

  lemma MinusSign(digits: string, rest: string)
    ensures ReadNumber("-" + digits + rest) == ReadUnsigned(digits + rest, "-")
  {
    assert ("-" + digits + rest)[1..] == digits + rest;
  }

  lemma IntRoundTrip(n: int, rest: string)
    requires Delimited(rest)
    ensures ReadNumber(PrintInt(n) + rest) == Some((Int(n), rest))
  {
    var m: nat := if n < 0 then -n else n;
    var digits := PrintNat(m);
    PrintNatRoundTrip(m);
    DigitsRoundTrip(if n < 0 then "-" else "", digits, rest);
    if n < 0 {
      MinusSign(digits, rest);
    } else {
      assert IsDigit(digits[0]) && (digits + rest)[0] == digits[0];
    }
  }

  // ---- values ----------------------------------------------------------------------------------

  /** A printed value starts with no white space and no closing bracket. */
  lemma PrintStarts(v: Json)
    requires Plain(v)
    ensures var s := Print(v); |s| > 0 && !IsSpace(s[0]) && s[0] != ']' && s[0] != '}'
  {
    if v.Int? {
      PrintNatRoundTrip(if v.n < 0 then -v.n else v.n);
      assert v.n >= 0 ==> IsDigit(PrintInt(v.n)[0]);
    }
  }

  lemma StartsLike(a: string, rest: string)
    requires |a| > 0 && !IsSpace(a[0])
    ensures Skip(a + rest) == a + rest && Skip(" " + (a + rest)) == a + rest
  {
    var t := " " + (a + rest);
    assert t[1..] == a + rest;
  }

  lemma NumberStarts(s: string)
    requires |s| > 0 && (IsDigit(s[0]) || (|s| > 1 && s[0] == '-' && IsDigit(s[1])))
    ensures ReadValue(s) == ReadNumber(s)
  {
  }

  lemma NumberIsRead(n: int, rest: string)
    requires Delimited(rest)
    ensures ReadValue(PrintInt(n) + rest) == Some((Int(n), rest))
  {
    var digits := PrintNat(if n < 0 then -n else n);
    PrintNatRoundTrip(if n < 0 then -n else n);
    IntRoundTrip(n, rest);
    assert IsDigit(digits[0]);
    if n < 0 {
      assert ("-" + digits + rest)[1] == digits[0];
    }
    NumberStarts(PrintInt(n) + rest);
  }

  lemma StringIsRead(chars: string, rest: string)
    ensures ReadValue(Quote(chars) + rest) == Some((Str(chars), rest))
  {
    CharsRoundTrip(chars, rest);
    assert (Quote(chars) + rest)[1..] == Escape(chars) + "\"" + rest;
  }

  lemma LastItem(v: Json, printed: string, rest: string, read: seq<Json>)
    requires ReadValue(printed + ("]" + rest)) == Some((v, "]" + rest))
    ensures ReadItems(printed + ("]" + rest), read) == Some((Arr(read + [v]), rest))
  {
    assert ("]" + rest)[1..] == rest;
  }

  lemma NotLastItem(v: Json, printed: string, more: string, read: seq<Json>)
    requires ReadValue(printed + (", " + more)) == Some((v, ", " + more)) && Skip(" " + more) == more
    ensures ReadItems(printed + (", " + more), read) == ReadItems(more, read + [v])
  {
    assert (", " + more)[1..] == " " + more;
  }

  /** The text of an array's items, split after the first. */
  lemma ItemsText(items: seq<Json>, rest: string)
    requires |items| > 0
    ensures var after := if |items| == 1 then "]" + rest else ", " + (PrintItems(items[1..]) + ("]" + rest));
            PrintItems(items) + ("]" + rest) == Print(items[0]) + after
  {
  }

  lemma {:induction false} ItemsRoundTrip(items: seq<Json>, read: seq<Json>, rest: string)
    requires |items| > 0 && forall i | 0 <= i < |items| :: Plain(items[i])
    ensures ReadItems(PrintItems(items) + ("]" + rest), read) == Some((Arr(read + items), rest))
    decreases items, 0
  {
    ItemsText(items, rest);
    if |items| == 1 {
      ValueRoundTrip(items[0], "]" + rest);
      LastItem(items[0], Print(items[0]), rest, read);
      assert items == [items[0]];
    } else {
      var more := PrintItems(items[1..]) + ("]" + rest);
      ValueRoundTrip(items[0], ", " + more);
      ItemsStart(items[1..], rest);
      NotLastItem(items[0], Print(items[0]), more, read);
      ItemsRoundTrip(items[1..], read + [items[0]], rest);
      assert read + items == read + [items[0]] + items[1..];
    }
  }

  lemma ItemsStart(items: seq<Json>, rest: string)
    requires |items| > 0 && Plain(items[0])
    ensures var s := PrintItems(items) + ("]" + rest);
            |s| > 0 && s[0] != ']' && Skip(s) == s && Skip(" " + s) == s
  {
    PrintStarts(items[0]);
    var s := PrintItems(items);
    assert s[0] == Print(items[0])[0];
    StartsLike(s, "]" + rest);
  }

  lemma PutNew(fields: seq<(string, Json)>, key: string, v: Json)
    requires forall i | 0 <= i < |fields| :: fields[i].0 != key
    ensures Put(fields, key, v) == fields + [(key, v)]
  {
    if |fields| > 0 {
      PutNew(fields[1..], key, v);
      assert fields == [fields[0]] + fields[1..];
    }
  }

  lemma FieldIsRead(s: string, key: string, value: string, v: Json, after: string, read: seq<(string, Json)>)
    requires |s| > 0 && s[0] == '\"' && ReadChars(s[1..]) == Some((key, ": " + value))
    requires Skip(" " + value) == value && ReadValue(value) == Some((v, after))
    requires |after| > 0 && (after[0] == '}' || after[0] == ',')
    ensures ReadFields(s, read) ==
            if after[0] == '}' then Some((Obj(Put(read, key, v)), after[1..]))
            else ReadFields(Skip(after[1..]), Put(read, key, v))
  {
    var t := ": " + value;
    assert t[0] == ':' && t[1..] == " " + value;
  }

  lemma FieldText(key: string, printed: string, after: string)
    ensures var s := Quote(key) + ": " + printed + after;
            s[0] == '\"' && s[1..] == Escape(key) + "\"" + (": " + (printed + after))
  {
    var e := Escape(key);
    assert Quote(key) + ": " + printed + after == "\"" + (e + "\"" + (": " + (printed + after)));
  }

  /** A field and what follows it among the fields of an object. */
  lemma OneField(field: (string, Json), after: string, read: seq<(string, Json)>)
    requires ReadValue(Print(field.1) + after) == Some((field.1, after)) && |after| > 0 && Plain(field.1)
    requires after[0] == '}' || after[0] == ','
    ensures ReadFields(PrintField(field) + after, read) ==
            if after[0] == '}' then Some((Obj(Put(read, field.0, field.1)), after[1..]))
            else ReadFields(Skip(after[1..]), Put(read, field.0, field.1))
  {
    var s := PrintField(field) + after;
    var value := Print(field.1) + after;
    CharsRoundTrip(field.0, ": " + value);
    FieldText(field.0, Print(field.1), after);
    PrintStarts(field.1);
    StartsLike(Print(field.1), after);
    FieldIsRead(s, field.0, value, field.1, after, read);
  }

  /** The text of an object's fields, split after the first. */
  lemma FieldsText(fields: seq<(string, Json)>, rest: string)
    requires |fields| > 0
    ensures var after := if |fields| == 1 then "}" + rest else ", " + (PrintFields(fields[1..]) + ("}" + rest));
            PrintFields(fields) + ("}" + rest) == PrintField(fields[0]) + after
  {
  }

  lemma KeyIsNew(read: seq<(string, Json)>, fields: seq<(string, Json)>)
    requires |fields| > 0 && DistinctKeys(read + fields)
    ensures Put(read, fields[0].0, fields[0].1) == read + [fields[0]]
    ensures DistinctKeys(read + [fields[0]] + fields[1..])
    ensures read + [fields[0]] + fields[1..] == read + fields
  {
    assert read + [fields[0]] + fields[1..] == read + fields;
    forall i | 0 <= i < |read| ensures read[i].0 != fields[0].0 {
      assert (read + fields)[i] == read[i] && (read + fields)[|read|] == fields[0];
    }
    PutNew(read, fields[0].0, fields[0].1);
  }

  lemma {:induction false} FieldsRoundTrip(fields: seq<(string, Json)>, read: seq<(string, Json)>, rest: string)
    requires |fields| > 0 && (forall i | 0 <= i < |fields| :: PlainField(fields[i])) && DistinctKeys(read + fields)
    ensures ReadFields(PrintFields(fields) + ("}" + rest), read) == Some((Obj(read + fields), rest))
    decreases fields, 0
  {
    FieldsText(fields, rest);
    var more := PrintFields(fields[1..]) + ("}" + rest);
    var after := if |fields| == 1 then "}" + rest else ", " + more;
    assert PlainField(fields[0]);
    KeyIsNew(read, fields);
    FieldValueRoundTrip(fields[0], after);
    OneField(fields[0], after, read);
    if |fields| == 1 {
      assert after[1..] == rest && fields == [fields[0]];
    } else {
      FieldsRoundTrip(fields[1..], read + [fields[0]], rest);
      FieldsStart(fields[1..], rest);
      assert after[1..] == " " + more;
    }
  }

  lemma FieldsStart(fields: seq<(string, Json)>, rest: string)
    requires |fields| > 0
    ensures var s := PrintFields(fields) + ("}" + rest);
            |s| > 0 && s[0] == '\"' && Skip(s) == s && Skip(" " + s) == s
  {
    FieldsText(fields, rest);
    assert PrintField(fields[0])[0] == '\"';
    var s := PrintFields(fields);
    assert (s + ("}" + rest))[0] == '\"';
    var t := s + ("}" + rest);
    assert (" " + t)[1..] == t;
  }

  lemma {:induction false} FieldValueRoundTrip(field: (string, Json), rest: string)
    requires PlainField(field) && Delimited(rest)
    ensures ReadValue(Print(field.1) + rest) == Some((field.1, rest))
    decreases field, 2
  {
    ValueRoundTrip(field.1, rest);
  }

  /** Reading a printed value gives the value back and leaves what follows it. */
  lemma {:induction false} ValueRoundTrip(v: Json, rest: string)
    requires Plain(v) && Delimited(rest)
    ensures ReadValue(Print(v) + rest) == Some((v, rest))
    decreases v, 1
  {
    var s := Print(v) + rest;
    match v
    case Null => assert s[4..] == rest && "null" <= s;
    case Bool(b) => assert if b then s[4..] == rest && "true" <= s else s[5..] == rest && "false" <= s;
    case Int(n) => NumberIsRead(n, rest);
    case Str(chars) => StringIsRead(chars, rest);
    case Arr(items) => ArrayIsRead(items, rest);
    case Obj(fields) => ObjectIsRead(fields, rest);
    case Real(_) =>
  }

  lemma {:induction false} ArrayIsRead(items: seq<Json>, rest: string)
    requires forall i | 0 <= i < |items| :: Plain(items[i])
    ensures ReadValue(Print(Arr(items)) + rest) == Some((Arr(items), rest))
    decreases items, 3
  {
    var inner := PrintItems(items) + ("]" + rest);
    assert (Print(Arr(items)) + rest)[1..] == inner;
    if |items| == 0 {
      assert inner == "]" + rest && inner[1..] == rest;
    } else {
      ItemsStart(items, rest);
      ItemsRoundTrip(items, [], rest);
      assert [] + items == items;
    }
  }

  lemma {:induction false} ObjectIsRead(fields: seq<(string, Json)>, rest: string)
    requires DistinctKeys(fields) && forall i | 0 <= i < |fields| :: PlainField(fields[i])
    ensures ReadValue(Print(Obj(fields)) + rest) == Some((Obj(fields), rest))
    decreases fields, 3
  {
    var inner := PrintFields(fields) + ("}" + rest);
    assert (Print(Obj(fields)) + rest)[1..] == inner;
    if |fields| == 0 {
      assert inner == "}" + rest && inner[1..] == rest;
    } else {
      FieldsStart(fields, rest);
      assert [] + fields == fields;
      FieldsRoundTrip(fields, [], rest);
    }
  }

  /** Loading a printed value gives it back. */
  lemma LoadsRoundTrip(v: Json)
    requires Plain(v)
    ensures Loads(Print(v)) == Some(v)
  {
    PrintStarts(v);
    ValueRoundTrip(v, "");
    assert Print(v) + "" == Print(v);
  }
}
