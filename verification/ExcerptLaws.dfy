/**
 Where an excerpt lies, what it holds, when there is none, and which candidates a selection takes.

 The window and the limits are written out here, apart from the functions that compute them.
*/
module ExcerptLaws {
  import opened Basics
  import opened Lines
  import opened ContextSelection
  import Utf8

  // ---- lines -----------------------------------------------------------------------------------

  predicate Breaks(c: char) {
    c in {'\n', '\r', '\U{0b}', '\U{0c}', '\U{1c}', '\U{1d}', '\U{1e}', '\U{85}', '\U{2028}', '\U{2029}'}
  }

  /** What ends a line: one break, or a carriage return with a line feed. */
  predicate EndsLine(end: string) {
    (|end| == 1 && Breaks(end[0])) || end == "\r\n"
  }

  /** A line that is kept is a line without breaks and what ends it. Only the last may lack an end. */
  ghost predicate IsLine(kept: string, bare: string, last: bool) {
    && bare <= kept
    && (forall i | 0 <= i < |bare| :: !Breaks(bare[i]))
    && (EndsLine(kept[|bare|..]) || (last && kept == bare && kept != ""))
  }

  /** No end is split between a line and the one after it. */
  ghost predicate EndsWhole(kept: string, next: string) {
    |kept| > 0 && |next| > 0 && !(kept[|kept| - 1] == '\r' && next[0] == '\n')
  }

  ghost predicate AreLines(kept: seq<string>, bare: seq<string>) {
    && |kept| == |bare|
    && (forall k | 0 <= k < |kept| :: IsLine(kept[k], bare[k], k + 1 == |kept|))
    && (forall k | 0 < k < |kept| :: EndsWhole(kept[k - 1], kept[k]))
  }

  /** The kept lines are the text's lines, and nothing of the text is lost. */
  lemma {:induction false} LinesExactly(text: string)
    ensures AreLines(SplitKeeping(text), SplitLines(text)) && Concat(SplitKeeping(text)) == text
  {
    KeepingIsWhole(text);
    if |text| > 0 {
      var i, n := FirstBreak(text), FirstLine(text);
      LinesExactly(text[n..]);
      var kept, bare := SplitKeeping(text[n..]), SplitLines(text[n..]);
      FirstLineIs(text);
      PieceIsLine(text, i, n);
      FirstOfRest(text[n..]);
      MoreLines(text[..n], text[..i], kept, bare);
    }
  }

  lemma FirstOfRest(text: string)
    ensures |SplitKeeping(text)| == 0 <==> text == ""
    ensures text != "" ==> SplitKeeping(text)[0] != "" && SplitKeeping(text)[0][0] == text[0]
  {
  }

  lemma MoreLines(line: string, stripped: string, kept: seq<string>, bare: seq<string>)
    requires AreLines(kept, bare) && IsLine(line, stripped, |kept| == 0)
    requires |kept| > 0 ==> EndsWhole(line, kept[0])
    ensures AreLines([line] + kept, [stripped] + bare)
  {
    var k2, b2 := [line] + kept, [stripped] + bare;
    forall k | 0 <= k < |k2| ensures IsLine(k2[k], b2[k], k + 1 == |k2|) {
      if k > 0 {
        assert IsLine(kept[k - 1], bare[k - 1], k == |kept|);
      }
    }
    forall k | 0 < k < |k2| ensures EndsWhole(k2[k - 1], k2[k]) {
      if k > 1 {
        assert EndsWhole(kept[k - 2], kept[k - 1]);
      }
    }
  }

  /** A line up to its break at `i` and with its end up to `n`. */
  ghost predicate Ends(text: string, i: nat, n: nat) {
    && i <= n <= |text| && (i == |text| || IsBreak(text[i])) && (forall k | 0 <= k < i :: !IsBreak(text[k]))
    && (n == if i == |text| then i
             else if text[i] == '\r' && i + 1 < |text| && text[i + 1] == '\n' then i + 2 else i + 1)
  }

  lemma FirstLineIs(text: string)
    ensures Ends(text, FirstBreak(text), FirstLine(text))
  {
  }

  lemma BreakIs(c: char)
    ensures Breaks(c) <==> IsBreak(c)
  {
  }

  lemma PieceIsLine(text: string, i: nat, n: nat)
    requires |text| > 0 && Ends(text, i, n)
    ensures IsLine(text[..n], text[..i], n == |text|)
    ensures n < |text| ==> EndsWhole(text[..n], text[n..])
  {
    forall k | 0 <= k < i ensures !Breaks(text[k]) {
      BreakIs(text[k]);
    }
    assert text[..n][..i] == text[..i];
    if i < |text| {
      BreakIs(text[i]);
      assert text[..n][i..] == text[i..n];
    }
  }

  // ---- one excerpt -----------------------------------------------------------------------------

  /** The window opens at the top of a text that has no matching line, and otherwise twenty lines before the
      first one, or at the top if there are not as many. */
  ghost predicate OpensAt(lines: seq<string>, matches: string -> bool, start: nat) {
    || (start == 0 && forall i | 0 <= i < |lines| :: !matches(lines[i]))
    || exists k :: 0 <= k < |lines| && FirstAt(lines, matches, k) && start == if k < 20 then 0 else k - 20
  }

  predicate FirstAt(lines: seq<string>, matches: string -> bool, k: nat) {
    k < |lines| && matches(lines[k]) && forall i | 0 <= i < k :: !matches(lines[i])
  }

  /** The 160 lines from line `start` on, or as many as there are. */
  function Window(lines: seq<string>, start: nat): string
    requires start <= |lines|
  {
    Concat(if |lines| <= start + 160 then lines[start..] else lines[start..start + 160])
  }

  /** The longest beginning of the window whose encoding fits the limit. */
  ghost predicate LongestFit(window: string, limit: nat, content: string) {
    && content <= window && |Utf8.Encode(content)| <= limit
    && (content == window || limit < |Utf8.Encode(window[..|content| + 1])|)
  }

  lemma OpeningIsOne(lines: seq<string>, matches: string -> bool, start: nat)
    ensures OpensAt(lines, matches, start) <==> start == WindowStart(lines, matches)
    ensures OpensAt(lines, matches, start) && |lines| > 0 ==> start < |lines|
  {
    match FirstMatch(lines, matches, 0)
    case None =>
    case Some(k) => assert FirstAt(lines, matches, k);
  }

  lemma WindowIsNotEmpty(text: string, start: nat)
    requires start < |SplitKeeping(text)|
    ensures Window(SplitKeeping(text), start) != ""
  {
    var lines := SplitKeeping(text);
    KeepingIsWhole(text);
    ConcatIsEmpty(if |lines| <= start + 160 then lines[start..] else lines[start..start + 160]);
  }

  lemma FirstFits(window: string, limit: nat)
    requires window != ""
    ensures Utf8.Encode(window[..1]) == Utf8.EncodeChar(window[0])
    ensures Cut(window, limit) == "" <==> limit < |Utf8.EncodeChar(window[0])|
  {
    var content := Cut(window, limit);
    assert window[..1] == [window[0]] && [window[0]][1..] == [];
    CutFits(window, limit);
    if content != "" {
      EncodePrefix(content, 1);
      assert content[..1] == window[..1];
    }
  }

  /** There is no excerpt exactly if the limit is zero, the text is empty, or the first character of the window
      does not fit. */
  lemma NoExcerptExactly(c: Candidate, matches: string -> bool, limit: nat, start: nat)
    requires OpensAt(SplitKeeping(c.text), matches, start)
    ensures c.text != "" ==> start < |SplitKeeping(c.text)| && Window(SplitKeeping(c.text), start) != ""
    ensures MakeExcerpt(c, matches, limit).None? <==>
            || limit == 0 || c.text == ""
            || limit < |Utf8.EncodeChar(Window(SplitKeeping(c.text), start)[0])|
  {
    var lines := SplitKeeping(c.text);
    OpeningIsOne(lines, matches, start);
    KeepingIsWhole(c.text);
    if c.text != "" {
      WindowIsNotEmpty(c.text, start);
      WindowIs(lines, start);
      FirstFits(Window(lines, start), limit);
    }
  }

  lemma WindowIs(lines: seq<string>, start: nat)
    requires start <= |lines|
    ensures Window(lines, start) == Concat(lines[start..WindowEnd(lines, start)])
  {
    assert lines[start..] == lines[start..|lines|];
  }

  /** An excerpt starts where its window opens and is the longest beginning of the window that fits. It is marked as
      truncated exactly if lines come before the window or after it, or the window did not fit. */
  lemma ExcerptExactly(c: Candidate, matches: string -> bool, limit: nat, start: nat)
    requires OpensAt(SplitKeeping(c.text), matches, start) && MakeExcerpt(c, matches, limit).Some?
    ensures var e, lines := MakeExcerpt(c, matches, limit).value, SplitKeeping(c.text);
            && start < |lines| && e.path == c.path && e.startLine == start + 1
            && LongestFit(Window(lines, start), limit, e.content)
            && e.endLine == start + |SplitLines(e.content)| && e.bytes == |Utf8.Encode(e.content)|
            && (e.truncated <==> start > 0 || |lines| > start + 160 || e.content != Window(lines, start))
  {
    var lines, e := SplitKeeping(c.text), MakeExcerpt(c, matches, limit).value;
    OpeningIsOne(lines, matches, start);
    WindowIs(lines, start);
    var window := Window(lines, start);
    CutFits(window, limit);
    PrefixLines(window, e.content);
    EncodePrefix(window, |e.content|);
    assert window[..|e.content|] == e.content;
  }

  /** A limit that covers the window cuts nothing off. */
  lemma CoveredWindow(window: string, limit: nat, content: string)
    requires |Utf8.Encode(window)| <= limit && LongestFit(window, limit, content)
    ensures content == window
  {
    if content != window {
      EncodePrefix(window, |content| + 1);
    }
  }

  /** Without a matching line the excerpt starts at the first line, and holds the window if that fits. */
  lemma NoMatchIsTop(c: Candidate, matches: string -> bool, limit: nat)
    requires MakeExcerpt(c, matches, limit).Some?
    requires var lines := SplitKeeping(c.text); forall i | 0 <= i < |lines| :: !matches(lines[i])
    ensures var e, lines := MakeExcerpt(c, matches, limit).value, SplitKeeping(c.text);
            && e.startLine == 1
            && (|Utf8.Encode(Window(lines, 0))| <= limit ==> e.content == Window(lines, 0))
  {
    ExcerptExactly(c, matches, limit, 0);
    if |Utf8.Encode(Window(SplitKeeping(c.text), 0))| <= limit {
      CoveredWindow(Window(SplitKeeping(c.text), 0), limit, MakeExcerpt(c, matches, limit).value.content);
    }
  }

  /** With the first match at index `k` it starts twenty lines before, or at the first line. If the limit covers the
      window, the content is the window, and line `k` with all lines from the start to it is in there. */
  lemma MatchIsHeld(c: Candidate, matches: string -> bool, limit: nat, k: nat)
    requires FirstAt(SplitKeeping(c.text), matches, k) && MakeExcerpt(c, matches, limit).Some?
    ensures var e, lines := MakeExcerpt(c, matches, limit).value, SplitKeeping(c.text);
            var start := if k < 20 then 0 else k - 20;
            && e.startLine == start + 1
            && (|Utf8.Encode(Window(lines, start))| <= limit ==>
                  && e.content == Window(lines, start)
                  && Concat(lines[start..k]) + lines[k] <= e.content)
  {
    var e, lines := MakeExcerpt(c, matches, limit).value, SplitKeeping(c.text);
    var start := if k < 20 then 0 else k - 20;
    assert OpensAt(lines, matches, start);
    ExcerptExactly(c, matches, limit, start);
    if |Utf8.Encode(Window(lines, start))| <= limit {
      CoveredWindow(Window(lines, start), limit, e.content);
      WindowHolds(lines, start, k);
    }
  }

  lemma WindowHolds(lines: seq<string>, start: nat, k: nat)
    requires start <= k < |lines| && k < start + 160
    ensures Concat(lines[start..k]) + lines[k] <= Window(lines, start)
  {
    var end := WindowEnd(lines, start);
    WindowIs(lines, start);
    ConcatTwo(lines[start..k], [lines[k]]);
    assert lines[start..k] + [lines[k]] == lines[start..k + 1];
    assert [lines[k]][1..] == [] && Concat([lines[k]]) == lines[k] + "" == lines[k];
    ConcatTwo(lines[start..k + 1], lines[k + 1..end]);
    assert lines[start..k + 1] + lines[k + 1..end] == lines[start..end];
  }

  // ---- a selection -----------------------------------------------------------------------------

  lemma {:induction false} ReadableExactly(offered: seq<Offered>, n: nat, c: Candidate)
    requires n <= |offered|
    ensures c in Readable(offered, n) <==> exists i :: 0 <= i < n && offered[i] == Some(c)
  {
    if n > 0 {
      ReadableExactly(offered, n - 1, c);
    }
  }

  /** One path comes before another if it is a beginning of it, or has the smaller character where they first
      differ. */
  lemma {:induction false} EarlierExactly(a: string, b: string)
    ensures Earlier(a, b) <==> exists n :: 0 <= n <= |a| && FirstDiffer(a, b, n)
  {
    if |a| > 0 && |b| > 0 && a[0] == b[0] {
      EarlierExactly(a[1..], b[1..]);
      if n: nat :| n <= |a[1..]| && FirstDiffer(a[1..], b[1..], n) {
        assert a[..n + 1] == [a[0]] + a[1..][..n] && b[..n + 1] == [b[0]] + b[1..][..n];
        assert FirstDiffer(a, b, n + 1);
      }
    } else if Earlier(a, b) {
      assert FirstDiffer(a, b, 0);
    }
    if n: nat :| 0 < n <= |a| && FirstDiffer(a, b, n) {
      DifferLater(a, b, n);
    }
  }

  lemma DifferLater(a: string, b: string, n: nat)
    requires 0 < n && FirstDiffer(a, b, n)
    ensures a[0] == b[0] && FirstDiffer(a[1..], b[1..], n - 1)
  {
    assert a[0] == a[..n][0] && b[0] == b[..n][0];
    assert a[1..][..n - 1] == a[..n][1..] && b[1..][..n - 1] == b[..n][1..];
  }

  predicate FirstDiffer(a: string, b: string, n: nat) {
    n <= |a| && n < |b| && a[..n] == b[..n] && (n == |a| || a[n] < b[n])
  }

  /** Of the ranked candidates taken, `m` rank before candidate `i`. */
  ghost predicate TakenBefore(from: seq<nat>, i: nat, m: nat) {
    && m <= |from| && (forall k | 0 <= k < m :: from[k] < i)
    && (forall k | m <= k < |from| :: i <= from[k])
  }

  /** After `m` excerpts there is room for another file, and a file may then have up to `limit` bytes. */
  ghost predicate Room(bounds: Bounds, excerpts: seq<Excerpt>, m: nat, limit: nat) {
    && m <= |excerpts| && m < bounds.files && TotalBytes(excerpts, m) < bounds.bytes
    && limit <= bounds.fileBytes && TotalBytes(excerpts, m) + limit <= bounds.bytes
    && (limit == bounds.fileBytes || TotalBytes(excerpts, m) + limit == bounds.bytes)
  }

  ghost predicate Grants(c: Candidate, make: Excerpter, bounds: Bounds, excerpts: seq<Excerpt>, m: nat) {
    exists limit: nat :: Room(bounds, excerpts, m, limit) && make(c, limit).Some?
  }

  /** Candidate `i` is taken exactly if there was room for any of it. */
  ghost predicate Decided(c: Chosen, sorted: seq<Candidate>, make: Excerpter, bounds: Bounds, i: nat) {
    exists m: nat :: DecidedAt(c, sorted, make, bounds, i, m)
  }

  ghost predicate DecidedAt(c: Chosen, sorted: seq<Candidate>, make: Excerpter, bounds: Bounds, i: nat, m: nat) {
    && i < |sorted| && TakenBefore(c.from, i, m)
    && (m < |c.from| && c.from[m] == i <==> Grants(sorted[i], make, bounds, c.excerpts, m))
  }

  ghost predicate AllDecided(c: Chosen, sorted: seq<Candidate>, make: Excerpter, bounds: Bounds, n: nat) {
    && n <= |sorted| && |c.from| == |c.excerpts|
    && (forall k | 0 <= k < |c.from| :: c.from[k] < n)
    && (forall i | 0 <= i < n :: Decided(c, sorted, make, bounds, i))
    && c.total == TotalBytes(c.excerpts, |c.excerpts|) <= bounds.bytes
    && (c.stopped ==> |c.excerpts| >= bounds.files || c.total >= bounds.bytes)
  }

  lemma GrantsMore(c: Candidate, make: Excerpter, bounds: Bounds, excerpts: seq<Excerpt>, e: Excerpt, m: nat)
    requires m <= |excerpts|
    ensures Grants(c, make, bounds, excerpts + [e], m) <==> Grants(c, make, bounds, excerpts, m)
  {
    TotalBytesOfMore(excerpts, e, m);
    if limit: nat :| Room(bounds, excerpts + [e], m, limit) && make(c, limit).Some? {
      assert Room(bounds, excerpts, m, limit);
    }
    if limit: nat :| Room(bounds, excerpts, m, limit) && make(c, limit).Some? {
      assert Room(bounds, excerpts + [e], m, limit);
    }
  }

  lemma DecidedMore(c: Chosen, next: Chosen, e: Excerpt, n: nat, sorted: seq<Candidate>, make: Excerpter,
                    bounds: Bounds, i: nat)
    requires i < n <= |sorted| && |c.from| == |c.excerpts| && Decided(c, sorted, make, bounds, i)
    requires next.from == c.from + [n] && next.excerpts == c.excerpts + [e]
    ensures Decided(next, sorted, make, bounds, i)
  {
    var m: nat :| DecidedAt(c, sorted, make, bounds, i, m);
    GrantsMore(sorted[i], make, bounds, c.excerpts, e, m);
    assert DecidedAt(next, sorted, make, bounds, i, m);
  }

  /** Whether there is room for the next candidate. */
  lemma NextGrants(c: Chosen, sorted: seq<Candidate>, make: Excerpter, bounds: Bounds, n: nat)
    requires n < |sorted| && AllDecided(c, sorted, make, bounds, n)
    ensures Grants(sorted[n], make, bounds, c.excerpts, |c.excerpts|) <==>
            && |c.excerpts| < bounds.files && c.total < bounds.bytes
            && make(sorted[n], Least(bounds.fileBytes, bounds.bytes - c.total)).Some?
  {
    var limit := Least(bounds.fileBytes, bounds.bytes - c.total);
    if |c.excerpts| < bounds.files && c.total < bounds.bytes {
      assert Room(bounds, c.excerpts, |c.excerpts|, limit);
    }
  }

  lemma TakingDecides(c: Chosen, sorted: seq<Candidate>, make: Excerpter, bounds: Bounds, n: nat, e: Excerpt,
                      truncated: bool)
    requires n < |sorted| && AllDecided(c, sorted, make, bounds, n) && !c.stopped
    requires Grants(sorted[n], make, bounds, c.excerpts, |c.excerpts|) && c.total + e.bytes <= bounds.bytes
    ensures AllDecided(Chosen(c.excerpts + [e], c.from + [n], c.total + e.bytes, truncated, false),
                       sorted, make, bounds, n + 1)
  {
    var next := Chosen(c.excerpts + [e], c.from + [n], c.total + e.bytes, truncated, false);
    TotalBytesOfMore(c.excerpts, e, |c.excerpts|);
    GrantsMore(sorted[n], make, bounds, c.excerpts, e, |c.excerpts|);
    forall i | 0 <= i < n + 1 ensures Decided(next, sorted, make, bounds, i) {
      if i < n {
        DecidedMore(c, next, e, n, sorted, make, bounds, i);
      } else {
        assert DecidedAt(next, sorted, make, bounds, n, |c.from|);
      }
    }
  }

  lemma PassingDecides(c: Chosen, sorted: seq<Candidate>, make: Excerpter, bounds: Bounds, n: nat)
    requires n < |sorted| && AllDecided(c, sorted, make, bounds, n)
    requires !Grants(sorted[n], make, bounds, c.excerpts, |c.excerpts|)
    ensures AllDecided(c, sorted, make, bounds, n + 1)
  {
    assert DecidedAt(c, sorted, make, bounds, n, |c.from|);
  }

  lemma StoppingDecides(c: Chosen, sorted: seq<Candidate>, make: Excerpter, bounds: Bounds, n: nat)
    requires AllDecided(c, sorted, make, bounds, n) && (|c.excerpts| >= bounds.files || c.total >= bounds.bytes)
    ensures AllDecided(c.(truncated := true, stopped := true), sorted, make, bounds, n)
  {
    var stopped := c.(truncated := true, stopped := true);
    forall i | 0 <= i < n ensures Decided(stopped, sorted, make, bounds, i) {
      assert Decided(c, sorted, make, bounds, i);
      var m: nat :| DecidedAt(c, sorted, make, bounds, i, m);
      assert DecidedAt(stopped, sorted, make, bounds, i, m);
    }
  }

  lemma ChooseDecides(c: Chosen, sorted: seq<Candidate>, make: Excerpter, bounds: Bounds, n: nat)
    requires n < |sorted| && AllDecided(c, sorted, make, bounds, n) && Faithful(make)
    ensures AllDecided(Choose(c, sorted, n, make, bounds), sorted, make, bounds, n + 1)
  {
    NextGrants(c, sorted, make, bounds, n);
    if Grants(sorted[n], make, bounds, c.excerpts, |c.excerpts|) {
      var limit := Least(bounds.fileBytes, bounds.bytes - c.total);
      assert FaithfulAt(make, sorted[n], limit);
      var e := make(sorted[n], limit).value;
      TakingDecides(c, sorted, make, bounds, n, e, c.truncated || e.truncated);
    } else {
      PassingDecides(c, sorted, make, bounds, n);
      if |c.excerpts| >= bounds.files || c.total >= bounds.bytes {
        StoppingDecides(c, sorted, make, bounds, n + 1);
      }
    }
  }

  lemma ChoosingDecides(sorted: seq<Candidate>, make: Excerpter, bounds: Bounds)
    requires Faithful(make)
    ensures AllDecided(ChooseUpTo(sorted, make, bounds, |sorted|), sorted, make, bounds, |sorted|)
  {
    var inv := (c: Chosen, i: nat) => AllDecided(c, sorted, make, bounds, i);
    var next := ChooseNext(sorted, make, bounds);
    forall c: Chosen, i: nat | i < |sorted| && inv(c, i) ensures inv(next(c, i), i + 1) {
      ChooseDecides(c, sorted, make, bounds, i);
    }
    IterateKeeps(next, inv, Chosen([], [], 0, false, false), |sorted|);
  }

  /** A ranked candidate is taken exactly if, after the excerpts of those ranked before it, neither bound was
      reached and what its file may still have holds some of it. */
  lemma TakenExactly(candidates: seq<Candidate>, make: Excerpter, bounds: Bounds, i: nat, m: nat)
    requires Faithful(make) && i < |RankedCandidates(candidates)|
    requires TakenBefore(TakenFrom(candidates, make, bounds), i, m)
    ensures i in TakenFrom(candidates, make, bounds) <==>
            Grants(RankedCandidates(candidates)[i], make, bounds, Selection(candidates, make, bounds).excerpts, m)
  {
    var sorted := RankedCandidates(candidates);
    ChoosingDecides(sorted, make, bounds);
    ChoosingIsWellChosen(sorted, make, bounds);
    var c := ChooseUpTo(sorted, make, bounds, |sorted|);
    assert Decided(c, sorted, make, bounds, i);
    var n: nat :| DecidedAt(c, sorted, make, bounds, i, n);
    BeforeIsOne(c.from, i, m, n);
    if k :| 0 <= k < |c.from| && c.from[k] == i {
      BeforeIsOne(c.from, i, m, k);
    }
  }

  lemma BeforeIsOne(from: seq<nat>, i: nat, m: nat, n: nat)
    requires TakenBefore(from, i, m) && forall j, k | 0 <= j < k < |from| :: from[j] < from[k]
    requires TakenBefore(from, i, n) || (n < |from| && from[n] == i)
    ensures m == n
  {
    assert m < |from| ==> from[m] >= i;
    assert n < |from| ==> from[n] >= i;
  }

  /** Excerpt `k` is its candidate's under the room that the earlier ones left. */
  lemma TakenUnder(candidates: seq<Candidate>, make: Excerpter, bounds: Bounds, k: nat)
    requires Faithful(make) && k < |TakenFrom(candidates, make, bounds)|
    ensures var r, i := Selection(candidates, make, bounds), TakenFrom(candidates, make, bounds)[k];
            && i < |RankedCandidates(candidates)| && k < |r.excerpts|
            && exists limit: nat :: Room(bounds, r.excerpts, k, limit)
                 && make(RankedCandidates(candidates)[i], limit) == Some(r.excerpts[k])
  {
    var r, from := Selection(candidates, make, bounds), TakenFrom(candidates, make, bounds);
    ExcerptIsTaken(candidates, make, bounds, k);
    ChoosingIsWellChosen(RankedCandidates(candidates), make, bounds);
    assert TakenBefore(from, from[k], k);
    TakenExactly(candidates, make, bounds, from[k], k);
    var limit: nat :| Room(bounds, r.excerpts, k, limit)
                      && make(RankedCandidates(candidates)[from[k]], limit).Some?;
    assert limit == Least(bounds.fileBytes, bounds.bytes - TotalBytes(r.excerpts, k));
  }
}
