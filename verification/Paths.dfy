/**
 The relative paths that build evidence is stated in.

 A path is normalised by turning back slashes around, stripping white space, dropping leading "./"
 and joining what `PurePosixPath` keeps of its components. Absolute paths, paths through ".." and
 empty paths are rejected.
*/
module Paths {
  import opened Basics
  import opened Text

  function Slashes(path: string): (r: string)
    ensures |r| == |path| && '\\' !in r
    ensures '\\' !in path ==> r == path
  {
    seq(|path|, i requires 0 <= i < |path| => if path[i] == '\\' then '/' else path[i])
  }

  function DropDots(path: string): (r: string)
    ensures |r| <= |path|
    ensures r == path <==> !("./" <= path)
  {
    if "./" <= path then DropDots(path[2..]) else path
  }

  function FirstSlash(path: string): (i: nat)
    ensures i <= |path| && '/' !in path[..i]
    ensures i < |path| ==> path[i] == '/'
  {
    if |path| == 0 || path[0] == '/' then 0
    else
      var i := 1 + FirstSlash(path[1..]);
      assert path[..i] == [path[0]] + path[1..][..i - 1];
      i
  }

  /** A component that names something. */
  predicate Plain(part: string) {
    part != "" && part != "." && '/' !in part
  }

  /** The named components of a path, in order. */
  function Components(path: string): (parts: seq<string>)
    ensures forall part | part in parts :: Plain(part)
  {
    if path == "" then []
    else
      var i := FirstSlash(path);
      var rest := if i < |path| then Components(path[i + 1..]) else [];
      if Plain(path[..i]) then [path[..i]] + rest else rest
  }

  function Join(parts: seq<string>): string {
    if |parts| == 0 then ""
    else if |parts| == 1 then parts[0]
    else parts[0] + "/" + Join(parts[1..])
  }

  /** The path as `PurePosixPath` is given it. */
  function Cleaned(path: string): string {
    DropDots(Strip(Slashes(path)))
  }

  function Normalize(path: string): Option<string> {
    var cleaned := Cleaned(path);
    var parts := Components(cleaned);
    if cleaned == "" || cleaned[0] == '/' || ".." in parts then None
    else Some(if parts == [] then "." else Join(parts))
  }

  // ---- normal forms are component lists --------------------------------------------------------

  lemma {:induction false} FirstSlashAfter(part: string, rest: string)
    requires '/' !in part
    ensures FirstSlash(part) == |part|
    ensures FirstSlash(part + "/" + rest) == |part|
  {
    if part == "" {
      assert ("" + "/" + rest)[0] == '/';
    } else {
      FirstSlashAfter(part[1..], rest);
      assert (part + "/" + rest)[1..] == part[1..] + "/" + rest;
    }
  }

  lemma ComponentsStep(part: string, rest: string)
    requires Plain(part)
    ensures Components(part) == [part]
    ensures Components(part + "/" + rest) == [part] + Components(rest)
  {
    FirstSlashAfter(part, rest);
    var whole := part + "/" + rest;
    assert whole[..|part|] == part && whole[|part| + 1..] == rest && part[..|part|] == part;
  }

  lemma {:induction false} ComponentsOfJoin(parts: seq<string>)
    requires forall part | part in parts :: Plain(part)
    ensures Components(Join(parts)) == parts
  {
    if |parts| > 0 {
      assert Plain(parts[0]);
      ComponentsOfJoin(parts[1..]);
      ComponentsStep(parts[0], Join(parts[1..]));
      assert parts == [parts[0]] + parts[1..];
    }
  }

  lemma {:induction false} JoinIsShorter(path: string)
    ensures |Join(Components(path))| <= |path|
  {
    if path != "" {
      var i := FirstSlash(path);
      if i < |path| {
        JoinIsShorter(path[i + 1..]);
        var rest := Components(path[i + 1..]);
        assert Plain(path[..i]) ==> ([path[..i]] + rest)[1..] == rest;
      }
    }
  }

  lemma {:induction false} JoinAvoids(parts: seq<string>, c: char)
    requires c != '/' && forall part | part in parts :: c !in part
    ensures c !in Join(parts)
  {
    if |parts| > 1 {
      JoinAvoids(parts[1..], c);
    }
  }

  lemma {:induction false} ComponentsAvoid(path: string, c: char)
    requires c !in path
    ensures forall part | part in Components(path) :: c !in part
  {
    if path != "" && FirstSlash(path) < |path| {
      ComponentsAvoid(path[FirstSlash(path) + 1..], c);
    }
  }

  lemma {:induction false} DropDotsAvoids(path: string, c: char)
    requires c !in path
    ensures c !in DropDots(path)
  {
    if "./" <= path {
      DropDotsAvoids(path[2..], c);
    }
  }

  lemma {:induction false} StripAvoids(text: string, c: char)
    requires c !in text
    ensures c !in Strip(text)
    decreases |text|
  {
    if |text| > 0 && IsSpace(text[0]) {
      StripAvoids(text[1..], c);
    } else if |text| > 0 && IsSpace(text[|text| - 1]) {
      StripAvoids(text[..|text| - 1], c);
    }
  }

  /** A joined path starts with its first component, which is no lone dot. */
  lemma JoinStart(parts: seq<string>)
    requires |parts| > 0 && Plain(parts[0])
    ensures Join(parts) != "" && Join(parts)[0] != '/' && !("./" <= Join(parts))
  {
    var first, joined := parts[0], Join(parts);
    assert joined[0] == first[0];
    assert |first| > 1 ==> joined[1] == first[1];
    assert |first| == 1 && first[0] == '.' ==> first == ".";
  }

  /** A normal form is a relative path that never leaves its directory, and two paths share it exactly
      when they name the same components. */
  lemma NormalFormIsContained(path: string)
    requires Normalize(path).Some?
    ensures var q := Normalize(path).value;
            && q != "" && q[0] != '/' && '\\' !in q && !("./" <= q)
            && ".." !in Components(q)
            && Components(q) == Components(Cleaned(path))
  {
    var parts := Components(Cleaned(path));
    if parts != [] {
      JoinStart(parts);
      ComponentsOfJoin(parts);
      StripAvoids(Slashes(path), '\\');
      DropDotsAvoids(Strip(Slashes(path)), '\\');
      ComponentsAvoid(Cleaned(path), '\\');
      JoinAvoids(parts, '\\');
    } else {
      assert FirstSlash(".") == 1;
      assert "."[..1] == ".";
    }
  }

  lemma SameNormalForm(a: string, b: string)
    requires Normalize(a).Some? && Normalize(b).Some?
    ensures Normalize(a) == Normalize(b) <==> Components(Cleaned(a)) == Components(Cleaned(b))
  {
    NormalFormIsContained(a);
    NormalFormIsContained(b);
  }

  /** Normalising is not idempotent: "./ a" becomes " a", which becomes "a". It is so exactly on the
      paths whose normal form has no white space at its ends. */
  lemma NormalizeAgainExactly(path: string)
    requires Normalize(path).Some?
    ensures Normalize(Normalize(path).value) == Normalize(path) <==> Stripped(Normalize(path).value)
  {
    var q := Normalize(path).value;
    NormalFormIsContained(path);
    assert Slashes(q) == q;
    if Stripped(q) {
      assert Cleaned(q) == q;
    } else {
      assert |Strip(q)| < |q|;
      JoinIsShorter(Cleaned(q));
    }
  }

  lemma NormalizeIsNotIdempotent()
    ensures Normalize("./ a") == Some(" a") && Normalize(" a") == Some("a")
  {
    assert Slashes("./ a") == "./ a" && Slashes(" a") == " a";
    assert "./ a"[2..] == " a" && " a"[1..] == "a";
    assert Strip(" a") == "a";
    FirstSlashAfter(" a", "");
    FirstSlashAfter("a", "");
    assert " a"[..2] == " a" && "a"[..1] == "a";
  }
}
