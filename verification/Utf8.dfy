/**
 UTF-8 as RFC 3629 defines it (section 3), and decoding that ignores what is not well-formed.

 Cutting an encoded text at any byte and decoding what is left gives the longest run of whole
 characters that fits.
*/
module Utf8 {
  import opened Basics

  type byte = b: int | 0 <= b < 256

  function EncodeChar(c: char): (b: seq<byte>)
    ensures 1 <= |b| <= 4
  {
    var n := c as int;
    if n < 0x80 then [n]
    else if n < 0x800 then [0xC0 + n / 64, 0x80 + n % 64]
    else if n < 0x1_0000 then [0xE0 + n / 4096, 0x80 + n / 64 % 64, 0x80 + n % 64]
    else [0xF0 + n / 262144, 0x80 + n / 4096 % 64, 0x80 + n / 64 % 64, 0x80 + n % 64]
  }

  function Encode(s: string): seq<byte> {
    if |s| == 0 then [] else EncodeChar(s[0]) + Encode(s[1..])
  }

  predicate Tail(b: byte) {
    0x80 <= b < 0xC0
  }

  /** How many bytes a character starting with this byte has, or none if no character starts so. */
  function LengthFrom(lead: byte): nat {
    if lead < 0x80 then 1
    else if 0xC2 <= lead < 0xE0 then 2
    else if 0xE0 <= lead < 0xF0 then 3
    else if 0xF0 <= lead < 0xF5 then 4
    else 0
  }

  /** A number is a character's if it is in range, not a surrogate, and not encoded longer than need be. */
  function CharOf(n: nat, smallest: nat): Option<char> {
    if n < smallest then None
    else if n < 0xD800 || 0xE000 <= n < 0x11_0000 then Some(n as char)
    else None
  }

  /** The six bits that a later byte carries. */
  function Bits(b: byte): nat
    requires Tail(b)
  {
    b as int - 0x80
  }

  /** The character at the start of the bytes, if a well-formed one stands there. */
  function DecodeChar(b: seq<byte>): Option<char>
    requires |b| > 0
  {
    var k := LengthFrom(b[0]);
    if k == 1 then CharOf(b[0], 0)
    else if k == 2 && |b| >= 2 && Tail(b[1]) then
      CharOf((b[0] as int - 0xC0) * 64 + Bits(b[1]), 0x80)
    else if k == 3 && |b| >= 3 && Tail(b[1]) && Tail(b[2]) then
      CharOf((b[0] as int - 0xE0) * 4096 + Bits(b[1]) * 64 + Bits(b[2]), 0x800)
    else if k == 4 && |b| >= 4 && Tail(b[1]) && Tail(b[2]) && Tail(b[3]) then
      CharOf((b[0] as int - 0xF0) * 262144 + Bits(b[1]) * 4096 + Bits(b[2]) * 64 + Bits(b[3]), 0x1_0000)
    else None
  }

  /** Decoding that drops each byte at which no well-formed character starts. */
  function DecodeIgnoring(b: seq<byte>): string
    decreases |b|
  {
    if |b| == 0 then []
    else
      match DecodeChar(b)
      case None => DecodeIgnoring(b[1..])
      case Some(c) => [c] + DecodeIgnoring(b[if LengthFrom(b[0]) > 0 then LengthFrom(b[0]) else 1..])
  }

  // ---- one character ---------------------------------------------------------------------------

  lemma DivideTwice(n: nat)
    ensures n / 64 / 64 == n / 4096
  {
    var q := n / 64;
    assert n == q * 64 + n % 64 && q == q / 64 * 64 + q % 64;
  }

  lemma DivideThrice(n: nat)
    ensures n / 4096 / 64 == n / 262144
  {
    var q := n / 4096;
    assert n == q * 4096 + n % 4096 && q == q / 64 * 64 + q % 64;
  }

  /** A number is made of its digits to the base 64. */
  lemma Digits(n: nat)
    ensures n == n / 64 * 64 + n % 64
    ensures n == n / 4096 * 4096 + n / 64 % 64 * 64 + n % 64
    ensures n == n / 262144 * 262144 + n / 4096 % 64 * 4096 + n / 64 % 64 * 64 + n % 64
  {
    DivideTwice(n);
    DivideThrice(n);
    var q, t := n / 64, n / 4096;
    assert q == q / 64 * 64 + q % 64 && t == t / 64 * 64 + t % 64;
  }

  lemma DecodeEncodedChar(c: char, rest: seq<byte>)
    ensures DecodeChar(EncodeChar(c) + rest) == Some(c)
    ensures LengthFrom(EncodeChar(c)[0]) == |EncodeChar(c)|
  {
    var n, b := c as int, EncodeChar(c) + rest;
    Digits(n);
    assert b[0] == EncodeChar(c)[0];
    if n >= 0x80 {
      assert b[1] == EncodeChar(c)[1];
    }
    if n >= 0x800 {
      assert b[2] == EncodeChar(c)[2];
    }
    if n >= 0x1_0000 {
      assert b[3] == EncodeChar(c)[3];
    }
  }

  /** No character starts in an encoded character that has lost its end, nor in its later bytes. */
  lemma {:induction false} CutCharIsIgnored(c: char, k: nat)
    requires k < |EncodeChar(c)|
    ensures DecodeIgnoring(EncodeChar(c)[..k]) == []
  {
    var b := EncodeChar(c)[..k];
    if k > 0 {
      DecodeEncodedChar(c, []);
      assert EncodeChar(c) + [] == EncodeChar(c);
      assert DecodeChar(b) == None;
      TailsAreIgnored(b[1..]);
    }
  }

  lemma {:induction false} TailsAreIgnored(b: seq<byte>)
    requires forall i | 0 <= i < |b| :: Tail(b[i])
    ensures DecodeIgnoring(b) == []
  {
    if |b| > 0 {
      TailsAreIgnored(b[1..]);
    }
  }

  // ---- texts -----------------------------------------------------------------------------------

  lemma {:induction false} EncodeConcat(a: string, b: string)
    ensures Encode(a + b) == Encode(a) + Encode(b)
  {
    if |a| == 0 {
      assert a + b == b;
    } else {
      EncodeConcat(a[1..], b);
      assert (a + b)[1..] == a[1..] + b;
    }
  }

  /** Decoding undoes encoding. */
  lemma {:induction false} RoundTrip(s: string)
    ensures DecodeIgnoring(Encode(s)) == s
  {
    if |s| > 0 {
      DecodeEncodedChar(s[0], Encode(s[1..]));
      RoundTrip(s[1..]);
      assert Encode(s)[|EncodeChar(s[0])|..] == Encode(s[1..]);
    }
  }

  /** How many whole characters fit in the first `k` bytes. */
  function Fitting(s: string, k: nat): (m: nat)
    ensures m <= |s|
  {
    if |s| == 0 || |EncodeChar(s[0])| > k then 0 else 1 + Fitting(s[1..], k - |EncodeChar(s[0])|)
  }

  /** It is the most: that many fit, and no more. */
  lemma {:induction false} FittingIsMost(s: string, k: nat)
    ensures var m := Fitting(s, k);
            |Encode(s[..m])| <= k && (m < |s| ==> k < |Encode(s[..m + 1])|)
  {
    if |s| == 0 {
      assert s[..0] == [];
    } else if |EncodeChar(s[0])| > k {
      assert s[..0] == [] && s[..1] == [s[0]];
      assert [s[0]][1..] == [];
    } else {
      var m := Fitting(s[1..], k - |EncodeChar(s[0])|);
      FittingIsMost(s[1..], k - |EncodeChar(s[0])|);
      assert s[..m + 1] == [s[0]] + s[1..][..m];
      EncodeConcat([s[0]], s[1..][..m]);
      assert [s[0]][1..] == [];
      if m + 1 < |s| {
        assert s[..m + 2] == [s[0]] + s[1..][..m + 1];
        EncodeConcat([s[0]], s[1..][..m + 1]);
      }
    }
  }

  /** Cutting at byte `k` and decoding gives the characters that fit, whole and in order. */
  lemma {:induction false} CutDecodesToFitting(s: string, k: nat)
    requires k <= |Encode(s)|
    ensures DecodeIgnoring(Encode(s)[..k]) == s[..Fitting(s, k)]
  {
    if |s| > 0 {
      var first := EncodeChar(s[0]);
      if |first| > k {
        assert Encode(s)[..k] == first[..k];
        CutCharIsIgnored(s[0], k);
        assert s[..0] == [];
      } else {
        var rest := Encode(s[1..])[..k - |first|];
        assert Encode(s)[..k] == first + rest;
        DecodeEncodedChar(s[0], rest);
        assert (first + rest)[|first|..] == rest;
        CutDecodesToFitting(s[1..], k - |first|);
      }
    }
  }
}
