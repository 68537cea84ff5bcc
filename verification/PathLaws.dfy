/**
 Which paths are refused and which spellings share a normal form, in terms of the characters of the paths.
*/
module PathLaws {
  import opened Basics
  import opened Text
  import opened Paths

  /** Stripping takes white space off both ends and leaves the rest alone. */
  lemma {:induction false} StripExactly(text: string) returns (i: nat, j: nat)
    ensures i <= j <= |text| && Strip(text) == text[i..j] && Stripped(Strip(text))
    ensures forall k | 0 <= k < i || j <= k < |text| :: IsSpace(text[k])
    decreases |text|
  {
    if |text| > 0 && IsSpace(text[0]) {
      i, j := StripExactly(text[1..]);
      assert text[1..][i..j] == text[i + 1..j + 1];
      i, j := i + 1, j + 1;
    } else if |text| > 0 && IsSpace(text[|text| - 1]) {
      i, j := StripExactly(text[..|text| - 1]);
      assert text[..|text| - 1][i..j] == text[i..j];
    } else {
      i, j := 0, |text|;
      assert text[0..|text|] == text;
    }
  }

  lemma SlashesExactly(path: string, i: nat)
    requires i < |path|
    ensures Slashes(path)[i] == if path[i] == '\\' then '/' else path[i]
  {
  }

  /** A path is cut at its slashes; empty pieces and single dots name nothing. */
  lemma ComponentsExactly(part: string, rest: string)
    requires '/' !in part
    ensures Components(part) == if part == "" || part == "." then [] else [part]
    ensures Components(part + "/" + rest) == Components(part) + Components(rest)
  {
    FirstSlashAfter(part, rest);
    var whole := part + "/" + rest;
    assert whole[..|part|] == part && whole[|part| + 1..] == rest && part[..|part|] == part;
  }

  /** Two dots stand at `i`, between slashes or the ends of the path. */
  predicate ParentAt(path: string, i: nat) {
    && i + 2 <= |path| && path[i] == '.' && path[i + 1] == '.'
    && (i == 0 || path[i - 1] == '/') && (i + 2 == |path| || path[i + 2] == '/')
  }

  ghost predicate HasParent(path: string) {
    exists i: nat :: ParentAt(path, i)
  }

  lemma NoneBefore(path: string, n: nat)
    requires n <= |path| && '/' !in path[..n]
    ensures forall k | 0 <= k < n :: path[k] != '/'
  {
    assert forall k | 0 <= k < n :: path[k] in path[..n];
  }

  lemma ParentInFirst(path: string)
    requires path != ""
    ensures ParentAt(path, 0) <==> path[..FirstSlash(path)] == ".."
  {
    var i := FirstSlash(path);
    NoneBefore(path, i);
    if path[..i] == ".." {
      assert path[0] == path[..i][0] && path[1] == path[..i][1];
    }
  }

  lemma ParentLater(path: string, i: nat)
    requires path != "" && 0 < i && ParentAt(path, i)
    ensures var n := FirstSlash(path); n < i && ParentAt(path[n + 1..], i - n - 1)
  {
    NoneBefore(path, FirstSlash(path));
  }

  lemma ComponentsAre(path: string)
    requires path != ""
    ensures var n := FirstSlash(path);
            Components(path) == (if Plain(path[..n]) then [path[..n]] else [])
                                + (if n < |path| then Components(path[n + 1..]) else [])
  {
  }

  lemma ComponentsHave(path: string)
    requires path != ""
    ensures var n := FirstSlash(path);
            ".." in Components(path) <==> path[..n] == ".." || (n < |path| && ".." in Components(path[n + 1..]))
  {
    var n := FirstSlash(path);
    ComponentsAre(path);
    var first := if Plain(path[..n]) then [path[..n]] else [];
    var rest := if n < |path| then Components(path[n + 1..]) else [];
    assert ".." in first <==> path[..n] == "..";
    assert ".." in first + rest <==> ".." in first || ".." in rest;
  }

  lemma ParentHas(path: string)
    requires path != ""
    ensures var n := FirstSlash(path);
            HasParent(path) <==> path[..n] == ".." || (n < |path| && HasParent(path[n + 1..]))
  {
    var n := FirstSlash(path);
    ParentInFirst(path);
    if n < |path| {
      var rest := path[n + 1..];
      if i: nat :| ParentAt(rest, i) {
        assert ParentAt(path, n + 1 + i);
      }
    }
    if i: nat :| ParentAt(path, i) {
      if i > 0 {
        ParentLater(path, i);
      }
    }
  }

  lemma {:induction false} ParentExactly(path: string)
    ensures ".." in Components(path) <==> HasParent(path)
  {
    if path != "" {
      ComponentsHave(path);
      ParentHas(path);
      if FirstSlash(path) < |path| {
        ParentExactly(path[FirstSlash(path) + 1..]);
      }
    }
  }

  /** A path with forward slashes, no white space at its ends and no leading "./". */
  predicate Clean(path: string) {
    '\\' !in path && Stripped(path) && !("./" <= path)
  }

  /** It is refused exactly if it is empty, absolute or goes to a parent directory. */
  lemma NormalizeRefusesExactly(path: string)
    requires Clean(path)
    ensures Normalize(path).None? <==> path == "" || path[0] == '/' || HasParent(path)
    ensures Normalize(path).Some? ==> Components(Normalize(path).value) == Components(path)
  {
    assert Cleaned(path) == path;
    ParentExactly(path);
    if Normalize(path).Some? {
      NormalFormIsContained(path);
    }
  }

  /** Back slashes and white space at the ends make no difference. */
  lemma NormalizeTrims(path: string)
    ensures Normalize(path) == Normalize(Strip(Slashes(path)))
  {
    StripAvoids(Slashes(path), '\\');
    assert Slashes(Strip(Slashes(path))) == Strip(Slashes(path));
  }

  /** Nor does a leading "./", if no white space comes after it. */
  lemma NormalizeSkipsDots(path: string)
    requires path != "" && '\\' !in path && Stripped(path)
    ensures Normalize("./" + path) == Normalize(path)
  {
    var dotted := "./" + path;
    assert dotted[|dotted| - 1] == path[|path| - 1] && !IsSpace('.');
    assert Strip(dotted) == dotted && Slashes(dotted) == dotted;
    assert dotted[2..] == path;
  }
}
