/**
 Bounded context selection: candidates are ranked, the best copy of each path is kept, and excerpts are
 taken in rank order until a bound on bytes or files is reached.

 Which files are candidates, how they score and which lines match the task are inputs.
*/
module ContextSelection {
  import opened Basics
  import opened Lines
  import Utf8

  datatype Candidate = Candidate(path: string, score: int, text: string)

  /** Lines are numbered from one. */
  datatype Excerpt = Excerpt(path: string, startLine: nat, endLine: nat, content: string, truncated: bool, bytes: nat)

  datatype Bounds = Bounds(bytes: nat, fileBytes: nat, files: nat)

  datatype Selected = Selected(excerpts: seq<Excerpt>, total: nat, truncated: bool)

  // ---- one excerpt -----------------------------------------------------------------------------

  function FirstMatch(lines: seq<string>, matches: string -> bool, i: nat): (r: Option<nat>)
    requires i <= |lines|
    ensures r.Some? ==> i <= r.value < |lines| && matches(lines[r.value])
    ensures forall k | i <= k < (if r.Some? then r.value else |lines|) :: !matches(lines[k])
    decreases |lines| - i
  {
    if i == |lines| then None else if matches(lines[i]) then Some(i) else FirstMatch(lines, matches, i + 1)
  }

  /** The window opens twenty lines before the first matching line and is at most 160 lines long. */
  function WindowStart(lines: seq<string>, matches: string -> bool): (start: nat)
    ensures start <= |lines|
  {
    match FirstMatch(lines, matches, 0)
    case None => 0
    case Some(k) => if k > 20 then k - 20 else 0
  }

  function WindowEnd(lines: seq<string>, start: nat): (end: nat)
    requires start <= |lines|
    ensures start <= end <= |lines|
  {
    if start + 160 < |lines| then start + 160 else |lines|
  }

  function Least(a: nat, b: nat): nat {
    if a < b then a else b
  }

  /** What is left of the window when its encoding is cut at the limit. */
  function Cut(window: string, limit: nat): string {
    Utf8.DecodeIgnoring(Utf8.Encode(window)[..Least(limit, |Utf8.Encode(window)|)])
  }

  function MakeExcerpt(c: Candidate, matches: string -> bool, limit: nat): Option<Excerpt> {
    var lines := SplitKeeping(c.text);
    if limit == 0 || |lines| == 0 then None
    else
      var start := WindowStart(lines, matches);
      var end := WindowEnd(lines, start);
      var window := Concat(lines[start..end]);
      var content := Cut(window, limit);
      var bytes := |Utf8.Encode(content)|;
      if content == "" then None
      else
        var count := if |SplitLines(content)| > 1 then |SplitLines(content)| else 1;
        var truncated := start > 0 || end < |lines| || bytes < |Utf8.Encode(window)|;
        Some(Excerpt(c.path, start + 1, start + count, content, truncated, bytes))
  }

  lemma EncodePrefix(s: string, m: nat)
    requires m <= |s|
    ensures |Utf8.Encode(s[..m])| <= |Utf8.Encode(s)|
    ensures |Utf8.Encode(s[..m])| == |Utf8.Encode(s)| <==> m == |s|
  {
    Utf8.EncodeConcat(s[..m], s[m..]);
    assert s == s[..m] + s[m..];
    assert m < |s| ==> |Utf8.Encode(s[m..])| > 0;
  }

  /** Cutting keeps the longest beginning that fits. */
  lemma CutFits(window: string, limit: nat)
    ensures var content := Cut(window, limit);
            && content <= window && |Utf8.Encode(content)| <= limit
            && (content != window ==> limit < |Utf8.Encode(window[..|content| + 1])|)
  {
    var k := Least(limit, |Utf8.Encode(window)|);
    Utf8.CutDecodesToFitting(window, k);
    Utf8.FittingIsMost(window, k);
    var m := Utf8.Fitting(window, k);
    if m < |window| {
      EncodePrefix(window, m + 1);
    }
  }

  /** The parts of a file around an excerpt: what comes before the window, what was cut off the window, and
      what comes after it. */
  lemma ExcerptParts(c: Candidate, matches: string -> bool, limit: nat)
    returns (before: string, rest: string, after: string)
    requires MakeExcerpt(c, matches, limit).Some?
    ensures var e := MakeExcerpt(c, matches, limit).value;
            && c.text == before + e.content + (rest + after)
            && before == Concat(SplitKeeping(c.text)[..e.startLine - 1])
            && e.bytes == |Utf8.Encode(e.content)| <= limit
            && (e.truncated <==> before != "" || rest != "" || after != "")
  {
    var lines := SplitKeeping(c.text);
    var start := WindowStart(lines, matches);
    var end := WindowEnd(lines, start);
    var window := Concat(lines[start..end]);
    var e := MakeExcerpt(c, matches, limit).value;
    WindowIsPiece(c.text, start, end);
    CutFits(window, limit);
    EncodePrefix(window, |e.content|);
    before, rest, after := Concat(lines[..start]), window[|e.content|..], Concat(lines[end..]);
    assert window == e.content + rest;
    FourParts(before, e.content, rest, after);
  }

  lemma FourParts(a: string, b: string, c: string, d: string)
    ensures a + (b + c) + d == a + b + (c + d)
  {
  }

  lemma PrefixLines(window: string, content: string)
    requires content <= window && content != ""
    ensures 1 <= |SplitLines(content)| <= |SplitLines(window)|
  {
    PrefixHasNoMoreLines(window, |content|);
    assert window[..|content|] == content;
  }

  lemma ExcerptLines(c: Candidate, matches: string -> bool, limit: nat)
    requires MakeExcerpt(c, matches, limit).Some?
    ensures var e := MakeExcerpt(c, matches, limit).value;
            1 <= e.startLine <= e.endLine <= |SplitLines(c.text)|
  {
    var lines := SplitKeeping(c.text);
    var start := WindowStart(lines, matches);
    var end := WindowEnd(lines, start);
    KeepingIsWhole(c.text);
    WindowHasItsLines(c.text, start, end);
    CutFits(Concat(lines[start..end]), limit);
    PrefixLines(Concat(lines[start..end]), Cut(Concat(lines[start..end]), limit));
  }

  /** An excerpt is a contiguous piece of its file, made of whole characters, within the limit. It starts
      where a line starts and its line numbers are lines of the file. It is marked as truncated exactly if
      it is not the whole file. */
  lemma ExcerptIsPiece(c: Candidate, matches: string -> bool, limit: nat)
    requires MakeExcerpt(c, matches, limit).Some?
    ensures var e := MakeExcerpt(c, matches, limit).value;
            && e.path == c.path && e.content != ""
            && e.bytes == |Utf8.Encode(e.content)| <= limit
            && 1 <= e.startLine <= e.endLine <= |SplitLines(c.text)|
            && Concat(SplitKeeping(c.text)[..e.startLine - 1]) + e.content <= c.text
            && (!e.truncated <==> e.content == c.text)
  {
    var e := MakeExcerpt(c, matches, limit).value;
    var before, rest, after := ExcerptParts(c, matches, limit);
    ExcerptLines(c, matches, limit);
    KeepingIsWhole(c.text);
    assert |c.text| == |before| + |e.content| + (|rest| + |after|);
    if before == "" && rest == "" && after == "" {
      assert c.text == e.content;
    }
  }

  // ---- ranking ---------------------------------------------------------------------------------

  /** Where a path stands among the kept candidates. */
  function Find(kept: seq<Candidate>, path: string): (r: Option<nat>)
    ensures r.Some? ==> r.value < |kept| && kept[r.value].path == path
    ensures r.None? ==> forall i | 0 <= i < |kept| :: kept[i].path != path
  {
    if |kept| == 0 then None
    else if kept[|kept| - 1].path == path then Some(|kept| - 1)
    else Find(kept[..|kept| - 1], path)
  }

  /** Keeps a candidate if its path is new, or if it scores more than the one kept for its path. */
  function Keep(kept: seq<Candidate>, c: Candidate): seq<Candidate> {
    match Find(kept, c.path)
    case None => kept + [c]
    case Some(i) => if c.score > kept[i].score then kept[i := c] else kept
  }

  function KeepNext(candidates: seq<Candidate>): (seq<Candidate>, nat) -> seq<Candidate> {
    (kept: seq<Candidate>, i: nat) => if i < |candidates| then Keep(kept, candidates[i]) else kept
  }

  function KeepUpTo(candidates: seq<Candidate>, n: nat): seq<Candidate> {
    Iterate(KeepNext(candidates), [], n)
  }

  /** The candidate is among the first `n`, and none of them with its path scores more, or as much and
      comes earlier. */
  ghost predicate BestOf(candidates: seq<Candidate>, n: nat, c: Candidate) {
    exists i :: 0 <= i < n && BestAt(candidates, n, i, c)
  }

  predicate BestAt(candidates: seq<Candidate>, n: nat, i: nat, c: Candidate) {
    && i < n <= |candidates| && candidates[i] == c
    && forall k | 0 <= k < n && candidates[k].path == c.path ::
         candidates[k].score < c.score || (candidates[k].score == c.score && i <= k)
  }

  ghost predicate DistinctPaths(kept: seq<Candidate>) {
    forall i, j | 0 <= i < j < |kept| :: kept[i].path != kept[j].path
  }

  /** Each path among the first `n` candidates is kept once, with the first of its best-scoring ones. */
  ghost predicate KeepsBest(candidates: seq<Candidate>, n: nat, kept: seq<Candidate>) {
    && n <= |candidates| && DistinctPaths(kept)
    && (forall i | 0 <= i < |kept| :: BestOf(candidates, n, kept[i]))
    && (forall k | 0 <= k < n :: Find(kept, candidates[k].path).Some?)
  }

  lemma BestOfMore(candidates: seq<Candidate>, n: nat, c: Candidate)
    requires n < |candidates| && BestOf(candidates, n, c)
    requires candidates[n].path == c.path ==> candidates[n].score <= c.score
    ensures BestOf(candidates, n + 1, c)
  {
    var i :| 0 <= i < n && BestAt(candidates, n, i, c);
    assert BestAt(candidates, n + 1, i, c);
  }

  lemma NewBest(candidates: seq<Candidate>, n: nat)
    requires n < |candidates|
    requires forall k | 0 <= k < n && candidates[k].path == candidates[n].path ::
               candidates[k].score < candidates[n].score
    ensures BestOf(candidates, n + 1, candidates[n])
  {
    assert BestAt(candidates, n + 1, n, candidates[n]);
  }

  lemma BestBeats(candidates: seq<Candidate>, n: nat, c: Candidate)
    requires BestOf(candidates, n, c)
    ensures n <= |candidates| && forall k | 0 <= k < n && candidates[k].path == c.path :: candidates[k].score <= c.score
  {
  }

  lemma KeepFinds(kept: seq<Candidate>, c: Candidate, path: string)
    requires Find(kept, path).Some? || path == c.path
    ensures Find(Keep(kept, c), path).Some?
  {
    var next := Keep(kept, c);
    if Find(kept, path).Some? {
      var i := Find(kept, path).value;
      assert next[i].path == path;
    } else {
      assert next[|kept|] == c;
    }
  }

  lemma KeepKeepsBest(candidates: seq<Candidate>, n: nat, kept: seq<Candidate>, i: nat)
    requires n < |candidates| && KeepsBest(candidates, n, kept) && i < |Keep(kept, candidates[n])|
    ensures BestOf(candidates, n + 1, Keep(kept, candidates[n])[i])
  {
    var c := candidates[n];
    match Find(kept, c.path)
    case None =>
      if i < |kept| {
        BestOfMore(candidates, n, kept[i]);
      } else {
        forall k | 0 <= k < n ensures candidates[k].path != c.path {
          assert Find(kept, candidates[k].path).Some?;
        }
        NewBest(candidates, n);
      }
    case Some(j) =>
      BestBeats(candidates, n, kept[j]);
      if i == j && c.score > kept[j].score {
        NewBest(candidates, n);
      } else {
        BestOfMore(candidates, n, kept[i]);
      }
  }

  lemma KeepKeepsDistinct(kept: seq<Candidate>, c: Candidate)
    requires DistinctPaths(kept)
    ensures DistinctPaths(Keep(kept, c))
  {
  }

  lemma KeepNextKeepsBest(candidates: seq<Candidate>, n: nat, kept: seq<Candidate>)
    requires n < |candidates| && KeepsBest(candidates, n, kept)
    ensures KeepsBest(candidates, n + 1, Keep(kept, candidates[n]))
  {
    var next := Keep(kept, candidates[n]);
    KeepKeepsDistinct(kept, candidates[n]);
    forall i | 0 <= i < |next| ensures BestOf(candidates, n + 1, next[i]) {
      KeepKeepsBest(candidates, n, kept, i);
    }
    forall k | 0 <= k < n + 1 ensures Find(next, candidates[k].path).Some? {
      KeepFinds(kept, candidates[n], candidates[k].path);
    }
  }

  /** Ranking keeps the best candidate of each path. */
  lemma RankingKeepsBest(candidates: seq<Candidate>, n: nat)
    requires n <= |candidates|
    ensures KeepsBest(candidates, n, KeepUpTo(candidates, n))
  {
    var inv := (kept: seq<Candidate>, k: nat) => KeepsBest(candidates, k, kept);
    var next := KeepNext(candidates);
    forall kept: seq<Candidate>, k: nat | k < n && inv(kept, k) ensures inv(next(kept, k), k + 1) {
      KeepNextKeepsBest(candidates, k, kept);
    }
    assert KeepsBest(candidates, 0, []);
    IterateKeeps(next, inv, [], n);
  }

  // ---- order -----------------------------------------------------------------------------------

  /** Alphabetical order by code point. */
  predicate Earlier(a: string, b: string) {
    |b| > 0 && (|a| == 0 || a[0] < b[0] || (a[0] == b[0] && Earlier(a[1..], b[1..])))
  }

  lemma {:induction false} EarlierIsTotal(a: string, b: string)
    ensures Earlier(a, b) || Earlier(b, a) || a == b
    ensures !(Earlier(a, b) && Earlier(b, a))
  {
    if |a| > 0 && |b| > 0 {
      EarlierIsTotal(a[1..], b[1..]);
      assert a == [a[0]] + a[1..] && b == [b[0]] + b[1..];
    }
  }

  lemma {:induction false} EarlierIsTransitive(a: string, b: string, c: string)
    requires Earlier(a, b) && Earlier(b, c)
    ensures Earlier(a, c)
  {
    if |a| > 0 && a[0] == b[0] && b[0] == c[0] {
      EarlierIsTransitive(a[1..], b[1..], c[1..]);
    }
  }

  /** By falling score, then by path. */
  predicate Before(a: Candidate, b: Candidate) {
    a.score > b.score || (a.score == b.score && Earlier(a.path, b.path))
  }

  lemma BeforeIsOrder(a: Candidate, b: Candidate, c: Candidate)
    ensures a.path != b.path ==> Before(a, b) || Before(b, a)
    ensures Before(a, b) && Before(b, c) ==> Before(a, c)
    ensures !Before(a, a)
  {
    EarlierIsTotal(a.path, b.path);
    EarlierIsTotal(a.path, a.path);
    if Earlier(a.path, b.path) && Earlier(b.path, c.path) {
      EarlierIsTransitive(a.path, b.path, c.path);
    }
  }

  function Insert(c: Candidate, sorted: seq<Candidate>): seq<Candidate> {
    if |sorted| == 0 || Before(c, sorted[0]) then [c] + sorted else [sorted[0]] + Insert(c, sorted[1..])
  }

  function Sort(kept: seq<Candidate>): seq<Candidate> {
    if |kept| == 0 then [] else Insert(kept[0], Sort(kept[1..]))
  }

  predicate InOrder(sorted: seq<Candidate>) {
    forall i, j | 0 <= i < j < |sorted| :: Before(sorted[i], sorted[j])
  }

  lemma {:induction false} InsertPermutes(c: Candidate, sorted: seq<Candidate>)
    ensures multiset(Insert(c, sorted)) == multiset{c} + multiset(sorted)
  {
    if |sorted| > 0 && !Before(c, sorted[0]) {
      InsertPermutes(c, sorted[1..]);
      assert sorted == [sorted[0]] + sorted[1..];
    }
  }

  lemma {:induction false} InsertOrders(c: Candidate, sorted: seq<Candidate>)
    requires InOrder(sorted) && forall i | 0 <= i < |sorted| :: sorted[i].path != c.path
    ensures InOrder(Insert(c, sorted))
  {
    if |sorted| > 0 && Before(c, sorted[0]) {
      forall j | 0 <= j < |sorted| ensures Before(c, sorted[j]) {
        BeforeIsOrder(c, sorted[0], sorted[j]);
      }
    } else if |sorted| > 0 {
      InsertOrders(c, sorted[1..]);
      InsertPermutes(c, sorted[1..]);
      BeforeIsOrder(sorted[0], c, c);
      var rest := Insert(c, sorted[1..]);
      forall j | 0 <= j < |rest| ensures Before(sorted[0], rest[j]) {
        assert rest[j] in multiset(rest);
        assert rest[j] == c || rest[j] in sorted[1..];
      }
    }
  }

  lemma {:induction false} InsertKeepsDistinct(c: Candidate, sorted: seq<Candidate>)
    requires DistinctPaths(sorted) && forall i | 0 <= i < |sorted| :: sorted[i].path != c.path
    ensures DistinctPaths(Insert(c, sorted))
  {
    if |sorted| > 0 && !Before(c, sorted[0]) {
      InsertKeepsDistinct(c, sorted[1..]);
      InsertPermutes(c, sorted[1..]);
      var rest := Insert(c, sorted[1..]);
      forall j | 0 <= j < |rest| ensures rest[j].path != sorted[0].path {
        assert rest[j] in multiset(rest);
        assert rest[j] == c || rest[j] in sorted[1..];
      }
    }
  }

  /** Sorting puts the kept candidates, no more and no fewer, in order of falling score and then of path. */
  lemma {:induction false} SortOrders(kept: seq<Candidate>)
    requires DistinctPaths(kept)
    ensures multiset(Sort(kept)) == multiset(kept) && |Sort(kept)| == |kept|
    ensures InOrder(Sort(kept)) && DistinctPaths(Sort(kept))
  {
    if |kept| > 0 {
      var rest := Sort(kept[1..]);
      SortOrders(kept[1..]);
      InsertPermutes(kept[0], rest);
      assert kept == [kept[0]] + kept[1..];
      forall i | 0 <= i < |rest| ensures rest[i].path != kept[0].path {
        assert rest[i] in multiset(rest);
        assert rest[i] in kept[1..];
      }
      InsertOrders(kept[0], rest);
      InsertKeepsDistinct(kept[0], rest);
      assert |Insert(kept[0], rest)| == |multiset(Insert(kept[0], rest))|;
    }
  }

  // ---- choosing --------------------------------------------------------------------------------

  /** Makes the excerpt of a candidate under a limit, if there is room for any of it. */
  type Excerpter = (Candidate, nat) -> Option<Excerpt>

  function Excerpts(matches: string -> bool): Excerpter {
    (c: Candidate, limit: nat) => MakeExcerpt(c, matches, limit)
  }

  /** What choosing needs of the excerpts: they fit, bear their candidate's path, and are marked as truncated
      exactly if they are not all of it. */
  predicate FaithfulAt(make: Excerpter, c: Candidate, limit: nat) {
    make(c, limit).Some? ==>
      var e := make(c, limit).value;
      e.bytes <= limit && e.path == c.path && (e.truncated <==> e.content != c.text)
  }

  ghost predicate Faithful(make: Excerpter) {
    forall c, limit :: FaithfulAt(make, c, limit)
  }

  /** Excerpts meet the premise of the laws of selection below. */
  lemma ExcerptsAreFaithful(matches: string -> bool)
    ensures Faithful(Excerpts(matches))
  {
    forall c: Candidate, limit: nat ensures FaithfulAt(Excerpts(matches), c, limit) {
      if MakeExcerpt(c, matches, limit).Some? {
        ExcerptIsPiece(c, matches, limit);
      }
    }
  }

  /** What has been chosen so far. `from` says of which candidates, in order. */
  datatype Chosen = Chosen(excerpts: seq<Excerpt>, from: seq<nat>, total: nat, truncated: bool, stopped: bool)

  function Choose(c: Chosen, sorted: seq<Candidate>, i: nat, make: Excerpter, bounds: Bounds): Chosen {
    if c.stopped || i >= |sorted| then c
    else if |c.excerpts| >= bounds.files || c.total >= bounds.bytes then c.(truncated := true, stopped := true)
    else
      match make(sorted[i], Least(bounds.fileBytes, bounds.bytes - c.total))
      case None => c
      case Some(e) =>
        Chosen(c.excerpts + [e], c.from + [i], c.total + e.bytes, c.truncated || e.truncated, false)
  }

  function ChooseNext(sorted: seq<Candidate>, make: Excerpter, bounds: Bounds): (Chosen, nat) -> Chosen {
    (c: Chosen, i: nat) => Choose(c, sorted, i, make, bounds)
  }

  function ChooseUpTo(sorted: seq<Candidate>, make: Excerpter, bounds: Bounds, n: nat): Chosen {
    Iterate(ChooseNext(sorted, make, bounds), Chosen([], [], 0, false, false), n)
  }

  function Selection(candidates: seq<Candidate>, make: Excerpter, bounds: Bounds): Selected {
    var sorted := RankedCandidates(candidates);
    var c := ChooseUpTo(sorted, make, bounds, |sorted|);
    Selected(c.excerpts, c.total, c.truncated || |c.excerpts| < |sorted|)
  }

  function TotalBytes(excerpts: seq<Excerpt>, n: nat): nat
    requires n <= |excerpts|
  {
    if n == 0 then 0 else TotalBytes(excerpts, n - 1) + excerpts[n - 1].bytes
  }

  lemma {:induction false} TotalBytesOfMore(excerpts: seq<Excerpt>, e: Excerpt, n: nat)
    requires n <= |excerpts|
    ensures TotalBytes(excerpts + [e], n) == TotalBytes(excerpts, n)
  {
    if n > 0 {
      TotalBytesOfMore(excerpts, e, n - 1);
    }
  }

  /** Excerpt `k` is the one of its candidate, under what the earlier ones left of the bound. */
  ghost predicate ChosenAt(c: Chosen, sorted: seq<Candidate>, make: Excerpter, bounds: Bounds, k: nat)
    requires k < |c.excerpts| == |c.from|
  {
    && c.from[k] < |sorted|
    && TotalBytes(c.excerpts, k) <= bounds.bytes
    && make(sorted[c.from[k]], Least(bounds.fileBytes, bounds.bytes - TotalBytes(c.excerpts, k)))
       == Some(c.excerpts[k])
  }

  /** What choosing among the first `n` candidates keeps. */
  ghost predicate WellChosen(c: Chosen, sorted: seq<Candidate>, make: Excerpter, bounds: Bounds, n: nat) {
    && |c.excerpts| == |c.from| <= bounds.files
    && c.total == TotalBytes(c.excerpts, |c.excerpts|) <= bounds.bytes
    && (forall k | 0 <= k < |c.from| :: c.from[k] < n && ChosenAt(c, sorted, make, bounds, k))
    && (forall j, k | 0 <= j < k < |c.from| :: c.from[j] < c.from[k])
    && (c.truncated <==> c.stopped || AnyTruncated(c.excerpts))
    && |c.excerpts| + (if c.stopped then 1 else 0) <= n
  }

  lemma ChosenAtMore(c: Chosen, next: Chosen, e: Excerpt, i: nat, sorted: seq<Candidate>, make: Excerpter,
                     bounds: Bounds, k: nat)
    requires k < |c.excerpts| == |c.from| && ChosenAt(c, sorted, make, bounds, k)
    requires next.excerpts == c.excerpts + [e] && next.from == c.from + [i]
    ensures ChosenAt(next, sorted, make, bounds, k)
  {
    TotalBytesOfMore(c.excerpts, e, k);
  }

  lemma StopKeepsWellChosen(c: Chosen, sorted: seq<Candidate>, i: nat, make: Excerpter, bounds: Bounds)
    requires WellChosen(c, sorted, make, bounds, i) && !c.stopped
    ensures WellChosen(c, sorted, make, bounds, i + 1)
    ensures WellChosen(c.(truncated := true, stopped := true), sorted, make, bounds, i + 1)
  {
    var stopped := c.(truncated := true, stopped := true);
    forall k | 0 <= k < |c.from| ensures ChosenAt(stopped, sorted, make, bounds, k) {
      assert ChosenAt(c, sorted, make, bounds, k);
    }
  }

  lemma TakeKeepsWellChosen(c: Chosen, sorted: seq<Candidate>, i: nat, make: Excerpter, bounds: Bounds, e: Excerpt)
    requires i < |sorted| && WellChosen(c, sorted, make, bounds, i) && !c.stopped
    requires |c.excerpts| < bounds.files
    requires make(sorted[i], Least(bounds.fileBytes, bounds.bytes - c.total)) == Some(e)
    requires e.bytes <= bounds.bytes - c.total
    ensures WellChosen(Chosen(c.excerpts + [e], c.from + [i], c.total + e.bytes, c.truncated || e.truncated, false),
                       sorted, make, bounds, i + 1)
  {
    var next := Chosen(c.excerpts + [e], c.from + [i], c.total + e.bytes, c.truncated || e.truncated, false);
    var n := |c.excerpts|;
    TotalBytesOfMore(c.excerpts, e, n);
    forall k | 0 <= k < n + 1 ensures ChosenAt(next, sorted, make, bounds, k) {
      if k < n {
        ChosenAtMore(c, next, e, i, sorted, make, bounds, k);
      }
    }
    TruncatedMore(c.excerpts, e);
  }

  lemma ChooseKeepsWellChosen(c: Chosen, sorted: seq<Candidate>, i: nat, make: Excerpter, bounds: Bounds)
    requires i < |sorted| && WellChosen(c, sorted, make, bounds, i)
    requires Faithful(make)
    ensures WellChosen(Choose(c, sorted, i, make, bounds), sorted, make, bounds, i + 1)
  {
    if !c.stopped {
      StopKeepsWellChosen(c, sorted, i, make, bounds);
      if |c.excerpts| < bounds.files && c.total < bounds.bytes {
        var limit := Least(bounds.fileBytes, bounds.bytes - c.total);
        var taken := make(sorted[i], limit);
        if taken.Some? {
          assert FaithfulAt(make, sorted[i], limit);
          TakeKeepsWellChosen(c, sorted, i, make, bounds, taken.value);
        }
      }
    }
  }

  ghost predicate AnyTruncated(excerpts: seq<Excerpt>) {
    exists k :: 0 <= k < |excerpts| && excerpts[k].truncated
  }

  lemma TruncatedMore(excerpts: seq<Excerpt>, e: Excerpt)
    ensures AnyTruncated(excerpts + [e]) <==> AnyTruncated(excerpts) || e.truncated
  {
    if AnyTruncated(excerpts) {
      var k :| 0 <= k < |excerpts| && excerpts[k].truncated;
      assert (excerpts + [e])[k].truncated;
    }
    if e.truncated {
      assert (excerpts + [e])[|excerpts|].truncated;
    }
  }

  lemma ChoosingIsWellChosen(sorted: seq<Candidate>, make: Excerpter, bounds: Bounds)
    requires Faithful(make)
    ensures WellChosen(ChooseUpTo(sorted, make, bounds, |sorted|), sorted, make, bounds, |sorted|)
  {
    var inv := (c: Chosen, i: nat) => WellChosen(c, sorted, make, bounds, i);
    var next := ChooseNext(sorted, make, bounds);
    forall c: Chosen, i: nat | i < |sorted| && inv(c, i) ensures inv(next(c, i), i + 1) {
      ChooseKeepsWellChosen(c, sorted, i, make, bounds);
    }
    IterateKeeps(next, inv, Chosen([], [], 0, false, false), |sorted|);
  }

  lemma {:induction false} IncreasingSpread(from: seq<nat>, j: nat, k: nat)
    requires j <= k < |from| && forall a, b | 0 <= a < b < |from| :: from[a] < from[b]
    ensures from[j] + (k - j) <= from[k]
  {
    if j < k {
      IncreasingSpread(from, j, k - 1);
    }
  }

  lemma IncreasingIsAll(from: seq<nat>, n: nat, k: nat)
    requires k < |from| == n && forall a, b | 0 <= a < b < n :: from[a] < from[b]
    requires forall a | 0 <= a < n :: from[a] < n
    ensures from[k] == k
  {
    IncreasingSpread(from, 0, k);
    IncreasingSpread(from, k, n - 1);
  }

  /** The candidates in rank order. */
  function RankedCandidates(candidates: seq<Candidate>): seq<Candidate> {
    Sort(KeepUpTo(candidates, |candidates|))
  }

  /** The candidates, one for each path, are the best of their paths, in order of falling score. */
  lemma RankedAreBest(candidates: seq<Candidate>)
    ensures var sorted := RankedCandidates(candidates);
            && InOrder(sorted) && DistinctPaths(sorted)
            && multiset(sorted) == multiset(KeepUpTo(candidates, |candidates|))
            && KeepsBest(candidates, |candidates|, KeepUpTo(candidates, |candidates|))
  {
    RankingKeepsBest(candidates, |candidates|);
    SortOrders(KeepUpTo(candidates, |candidates|));
  }

  /** Which ranked candidates a selection took its excerpts from. */
  function TakenFrom(candidates: seq<Candidate>, make: Excerpter, bounds: Bounds): seq<nat> {
    ChooseUpTo(RankedCandidates(candidates), make, bounds, |RankedCandidates(candidates)|).from
  }

  /** A selection's total is the bytes of its excerpts and within the bound, as is their number. */
  lemma SelectionIsBounded(candidates: seq<Candidate>, make: Excerpter, bounds: Bounds)
    requires Faithful(make)
    ensures var r := Selection(candidates, make, bounds);
            && r.total == TotalBytes(r.excerpts, |r.excerpts|) <= bounds.bytes
            && |r.excerpts| == |TakenFrom(candidates, make, bounds)| <= bounds.files
  {
    ChoosingIsWellChosen(RankedCandidates(candidates), make, bounds);
  }

  /** Each excerpt is its candidate's, under what the earlier excerpts left of the bound on bytes. */
  lemma ExcerptIsTaken(candidates: seq<Candidate>, make: Excerpter, bounds: Bounds, k: nat)
    requires Faithful(make) && k < |TakenFrom(candidates, make, bounds)|
    ensures var r := Selection(candidates, make, bounds);
            var sorted, i := RankedCandidates(candidates), TakenFrom(candidates, make, bounds)[k];
            && i < |sorted| && k < |r.excerpts| && TotalBytes(r.excerpts, k) <= bounds.bytes
            && make(sorted[i], Least(bounds.fileBytes, bounds.bytes - TotalBytes(r.excerpts, k)))
               == Some(r.excerpts[k])
  {
    var sorted := RankedCandidates(candidates);
    ChoosingIsWellChosen(sorted, make, bounds);
    TakenAt(ChooseUpTo(sorted, make, bounds, |sorted|), sorted, make, bounds, k);
  }

  lemma TakenAt(c: Chosen, sorted: seq<Candidate>, make: Excerpter, bounds: Bounds, k: nat)
    requires WellChosen(c, sorted, make, bounds, |sorted|) && k < |c.from|
    ensures k < |c.excerpts| && c.from[k] < |sorted| && TotalBytes(c.excerpts, k) <= bounds.bytes
    ensures make(sorted[c.from[k]], Least(bounds.fileBytes, bounds.bytes - TotalBytes(c.excerpts, k)))
         == Some(c.excerpts[k])
  {
    assert ChosenAt(c, sorted, make, bounds, k);
  }

  lemma ExcerptsAreWhole(candidates: seq<Candidate>, make: Excerpter, bounds: Bounds, k: nat)
    requires Faithful(make) && k < |TakenFrom(candidates, make, bounds)|
    ensures var sorted := RankedCandidates(candidates);
            var c := ChooseUpTo(sorted, make, bounds, |sorted|);
            && |c.from| == |c.excerpts| && c.from[k] < |sorted|
            && c.excerpts[k].path == sorted[c.from[k]].path
            && (c.excerpts[k].truncated <==> c.excerpts[k].content != sorted[c.from[k]].text)
  {
    var sorted := RankedCandidates(candidates);
    var c := ChooseUpTo(sorted, make, bounds, |sorted|);
    ChoosingIsWellChosen(sorted, make, bounds);
    assert ChosenAt(c, sorted, make, bounds, k);
    assert FaithfulAt(make, sorted[c.from[k]], Least(bounds.fileBytes, bounds.bytes - TotalBytes(c.excerpts, k)));
  }

  /** The excerpts belong to different ranked candidates in rank order: their paths differ and their scores do
      not rise. */
  lemma SelectionIsInOrder(candidates: seq<Candidate>, make: Excerpter, bounds: Bounds, j: nat, k: nat)
    requires Faithful(make) && j < k < |TakenFrom(candidates, make, bounds)|
    ensures var r := Selection(candidates, make, bounds);
            var sorted, from := RankedCandidates(candidates), TakenFrom(candidates, make, bounds);
            && |r.excerpts| == |from| && from[j] < from[k] < |sorted|
            && r.excerpts[j].path == sorted[from[j]].path && r.excerpts[k].path == sorted[from[k]].path
            && r.excerpts[j].path != r.excerpts[k].path
            && sorted[from[j]].score >= sorted[from[k]].score
  {
    var sorted := RankedCandidates(candidates);
    ChoosingIsWellChosen(sorted, make, bounds);
    RankedAreBest(candidates);
    ExcerptsAreWhole(candidates, make, bounds, j);
    ExcerptsAreWhole(candidates, make, bounds, k);
  }

  /** A selection is marked as truncated exactly if some ranked candidate is not included in full. */
  lemma TruncatedExactly(candidates: seq<Candidate>, make: Excerpter, bounds: Bounds)
    requires Faithful(make)
    ensures var r := Selection(candidates, make, bounds);
            var sorted := RankedCandidates(candidates);
            !r.truncated <==>
              && |r.excerpts| == |sorted|
              && forall k | 0 <= k < |sorted| ::
                   r.excerpts[k].path == sorted[k].path && r.excerpts[k].content == sorted[k].text
  {
    var sorted := RankedCandidates(candidates);
    var c := ChooseUpTo(sorted, make, bounds, |sorted|);
    ChoosingIsWellChosen(sorted, make, bounds);
    if |c.from| == |sorted| {
      forall k | 0 <= k < |sorted|
        ensures c.excerpts[k].path == sorted[k].path
                && (c.excerpts[k].truncated <==> c.excerpts[k].content != sorted[k].text)
      {
        IncreasingIsAll(c.from, |sorted|, k);
        ExcerptsAreWhole(candidates, make, bounds, k);
      }
    }
  }

  // ---- the selector ----------------------------------------------------------------------------

  /** A file that was offered: nothing if it is unsafe, unreadable, not UTF-8, binary or secret. */
  type Offered = Option<Candidate>

  function Readable(offered: seq<Offered>, n: nat): (candidates: seq<Candidate>)
    requires n <= |offered|
  {
    if n == 0 then []
    else if offered[n - 1].None? then Readable(offered, n - 1)
    else Readable(offered, n - 1) + [offered[n - 1].value]
  }

  lemma ChooseUpToNext(sorted: seq<Candidate>, make: Excerpter, bounds: Bounds, i: nat)
    ensures ChooseUpTo(sorted, make, bounds, i + 1)
            == Choose(ChooseUpTo(sorted, make, bounds, i), sorted, i, make, bounds)
  {
  }

  lemma {:induction false} StoppedForGood(sorted: seq<Candidate>, make: Excerpter, bounds: Bounds, i: nat, n: nat)
    requires ChooseUpTo(sorted, make, bounds, i).stopped && i <= n
    ensures ChooseUpTo(sorted, make, bounds, n) == ChooseUpTo(sorted, make, bounds, i)
  {
    if i < n {
      StoppedForGood(sorted, make, bounds, i, n - 1);
    }
  }

  lemma {:induction false} KeepOfPrefix(candidates: seq<Candidate>, c: Candidate, n: nat)
    requires n <= |candidates|
    ensures KeepUpTo(candidates + [c], n) == KeepUpTo(candidates, n)
  {
    if n > 0 {
      KeepOfPrefix(candidates, c, n - 1);
      assert (candidates + [c])[n - 1] == candidates[n - 1];
    }
  }

  lemma KeepOneMore(candidates: seq<Candidate>, c: Candidate)
    ensures KeepUpTo(candidates + [c], |candidates| + 1) == Keep(KeepUpTo(candidates, |candidates|), c)
  {
    KeepOfPrefix(candidates, c, |candidates|);
  }

  class BuildContextSelector {
    const bounds: Bounds

    constructor (bounds: Bounds)
      ensures this.bounds == bounds
    {
      this.bounds := bounds;
    }

    /** Limits must be positive, and a file's limit is no more than that of all files. */
    static method Make(maxBytes: int, maxFileBytes: int, maxFiles: int) returns (r: Option<BuildContextSelector>)
      ensures r.Some? <==> maxBytes > 0 && maxFileBytes > 0 && maxFiles > 0
      ensures r.Some? ==> r.value.bounds == Bounds(maxBytes, Least(maxFileBytes, maxBytes), maxFiles)
    {
      if maxBytes <= 0 || maxFileBytes <= 0 || maxFiles <= 0 {
        return None;
      }
      var limit := if maxFileBytes < maxBytes then maxFileBytes else maxBytes;
      var selector := new BuildContextSelector(Bounds(maxBytes, limit, maxFiles));
      r := Some(selector);
    }

    /** Ranks the candidates, keeping the best of each path. */
    method Rank(offered: seq<Offered>) returns (ranked: seq<Candidate>)
      ensures ranked == KeepUpTo(Readable(offered, |offered|), |Readable(offered, |offered|)|)
    {
      ranked := [];
      for i := 0 to |offered|
        invariant ranked == KeepUpTo(Readable(offered, i), |Readable(offered, i)|)
      {
        if offered[i].Some? {
          var value := offered[i].value;
          KeepOneMore(Readable(offered, i), value);
          var current := Find(ranked, value.path);
          if current.None? {
            ranked := ranked + [value];
          } else if value.score > ranked[current.value].score {
            ranked := ranked[current.value := value];
          }
        }
      }
    }

    /** Takes excerpts in rank order until a bound is reached. */
    method Choose(sorted: seq<Candidate>, make: Excerpter) returns (excerpts: seq<Excerpt>, total: nat, truncated: bool)
      ensures var c := ChooseUpTo(sorted, make, bounds, |sorted|);
              excerpts == c.excerpts && total == c.total && truncated == c.truncated
    {
      excerpts, total, truncated := [], 0, false;
      ghost var c := ChooseUpTo(sorted, make, bounds, 0);
      for i := 0 to |sorted|
        invariant c == ChooseUpTo(sorted, make, bounds, i) && !c.stopped
        invariant c.excerpts == excerpts && c.total == total && c.truncated == truncated
      {
        ChooseUpToNext(sorted, make, bounds, i);
        c := ChooseUpTo(sorted, make, bounds, i + 1);
        if |excerpts| >= bounds.files || total >= bounds.bytes {
          truncated := true;
          StoppedForGood(sorted, make, bounds, i + 1, |sorted|);
          return;
        }
        var left := bounds.bytes - total;
        var excerpt := make(sorted[i], if bounds.fileBytes < left then bounds.fileBytes else left);
        if excerpt.Some? {
          excerpts := excerpts + [excerpt.value];
          total := total + excerpt.value.bytes;
          truncated := truncated || excerpt.value.truncated;
        }
      }
    }

    method Select(offered: seq<Offered>, matches: string -> bool) returns (r: Selected)
      ensures r == Selection(Readable(offered, |offered|), Excerpts(matches), bounds)
    {
      var ranked := Rank(offered);
      RankingKeepsBest(Readable(offered, |offered|), |Readable(offered, |offered|)|);
      SortOrders(ranked);
      var excerpts, total, truncated := Choose(Sort(ranked), Excerpts(matches));
      if |excerpts| < |ranked| {
        truncated := true;
      }
      r := Selected(excerpts, total, truncated);
    }
  }
}
