/**
 The line arithmetic of a mutation scope (scripts/mutants_matrix.py): test-only ranges
 are merged, subtracted from the function spans, turned into a diff that adds exactly
 the lines in scope, and asked again, line by line, whether a mutant is in scope.
 */
module ScopeRanges {
  import opened Common

  /** First and last line, inclusive. */
  type Range = (int, int)

  predicate In(r: Range, k: int) {
    r.0 <= k <= r.1
  }

  predicate Covers(rs: seq<Range>, k: int) {
    exists r <- rs :: In(r, k)
  }

  predicate Proper(r: Range) {
    r.0 <= r.1
  }

  lemma CoversAppend(a: seq<Range>, b: seq<Range>, k: int)
    ensures Covers(a + b, k) <==> Covers(a, k) || Covers(b, k)
  {
  }

  lemma CoversOne(r: Range, k: int)
    ensures Covers([r], k) <==> In(r, k)
  {
  }

  ghost predicate AllProper(rs: seq<Range>) {
    forall r <- rs :: Proper(r)
  }

  // ---------------------------------------------------------------- merging

  predicate Before(a: Range, b: Range) {
    a.0 < b.0 || (a.0 == b.0 && a.1 <= b.1)
  }

  ghost predicate IsSorted(rs: seq<Range>) {
    forall i, j :: 0 <= i < j < |rs| ==> Before(rs[i], rs[j])
  }

  function Inserted(r: Range, rs: seq<Range>): seq<Range> {
    if rs == [] || Before(r, rs[0]) then [r] + rs else [rs[0]] + Inserted(r, rs[1..])
  }

  function Sorted(rs: seq<Range>): seq<Range> {
    if rs == [] then [] else Inserted(rs[0], Sorted(rs[1..]))
  }

  lemma {:induction false} InsertedSorts(r: Range, rs: seq<Range>)
    requires IsSorted(rs)
    ensures IsSorted(Inserted(r, rs)) && multiset(Inserted(r, rs)) == multiset(rs) + multiset{r}
  {
    if rs != [] && !Before(r, rs[0]) {
      InsertedSorts(r, rs[1..]);
      var rest := Inserted(r, rs[1..]);
      assert rs == [rs[0]] + rs[1..];
      forall x <- rest ensures Before(rs[0], x) {
        assert x in multiset(rest);
        assert x == r || x in rs[1..];
      }
    } else {
      assert multiset([r] + rs) == multiset{r} + multiset(rs);
    }
  }

  lemma {:induction false} SortedSorts(rs: seq<Range>)
    ensures IsSorted(Sorted(rs)) && multiset(Sorted(rs)) == multiset(rs)
  {
    if rs != [] {
      SortedSorts(rs[1..]);
      InsertedSorts(rs[0], Sorted(rs[1..]));
      assert rs == [rs[0]] + rs[1..];
    }
  }

  lemma SortedCovers(rs: seq<Range>)
    ensures forall k :: Covers(Sorted(rs), k) <==> Covers(rs, k)
    ensures forall r :: r in Sorted(rs) <==> r in rs
  {
    SortedSorts(rs);
    forall r ensures r in Sorted(rs) <==> r in rs {
      assert r in multiset(Sorted(rs)) <==> r in multiset(rs);
    }
  }

  /** Ranges in order with at least one line between neighbours' ends and starts. */
  ghost predicate Apart(rs: seq<Range>) {
    forall i, j :: 0 <= i < j < |rs| ==> rs[i].1 < rs[j].0
  }

  /** One step of the merge: widen the last range, or start another. */
  function MergeOne(merged: seq<Range>, r: Range): seq<Range> {
    if merged != [] && r.0 <= merged[|merged| - 1].1 then
      var last := merged[|merged| - 1];
      merged[..|merged| - 1] + [(last.0, if r.1 > last.1 then r.1 else last.1)]
    else merged + [r]
  }

  /** The merge so far: the lines of the ranges read, the last range no later than the next one. */
  ghost predicate MergedSoFar(merged: seq<Range>, sorted: seq<Range>, i: nat)
    requires i <= |sorted|
  {
    && (forall k :: Covers(merged, k) <==> Covers(sorted[..i], k))
    && (merged != [] ==> i > 0 && merged[|merged| - 1].0 <= sorted[i - 1].0)
    && (AllProper(sorted) ==> Apart(merged) && AllProper(merged))
  }

  lemma MergeStep(merged: seq<Range>, sorted: seq<Range>, i: nat)
    requires i < |sorted| && IsSorted(sorted) && MergedSoFar(merged, sorted, i)
    ensures MergedSoFar(MergeOne(merged, sorted[i]), sorted, i + 1)
  {
    var r, next := sorted[i], MergeOne(merged, sorted[i]);
    assert i > 0 ==> Before(sorted[i - 1], r);
    assert sorted[..i + 1] == sorted[..i] + [r];
    if next != merged + [r] {
      Widened(merged, next, r);
    }
    forall k ensures Covers(next, k) <==> Covers(sorted[..i + 1], k) {
      CoversAppend(sorted[..i], [r], k);
      CoversAppend(merged, [r], k);
    }
    if AllProper(sorted) {
      MergeKeepsApart(merged, r);
    }
  }

  lemma MergeKeepsApart(merged: seq<Range>, r: Range)
    requires Apart(merged) && AllProper(merged) && Proper(r) && (merged != [] ==> merged[|merged| - 1].0 <= r.0)
    ensures Apart(MergeOne(merged, r)) && AllProper(MergeOne(merged, r))
  {
  }

  /** The merge loop: the same lines, whatever the ranges, and proper ranges come out proper and apart. */
  method Merge(ranges: seq<Range>) returns (merged: seq<Range>)
    ensures forall k :: Covers(merged, k) <==> Covers(ranges, k)
    ensures AllProper(ranges) ==> Apart(merged) && AllProper(merged)
  {
    var sorted := Sorted(ranges);
    SortedSorts(ranges);
    SortedCovers(ranges);
    merged := [];
    var i := 0;
    while i < |sorted|
      invariant 0 <= i <= |sorted|
      invariant MergedSoFar(merged, sorted, i)
    {
      MergeStep(merged, sorted, i);
      var r := sorted[i];
      if merged != [] && r.0 <= merged[|merged| - 1].1 {
        var last := merged[|merged| - 1];
        merged := merged[..|merged| - 1] + [(last.0, if r.1 > last.1 then r.1 else last.1)];
      } else {
        merged := merged + [r];
      }
      i := i + 1;
    }
    assert sorted[..|sorted|] == sorted;
  }

  /** Widening the last range by one that starts inside it adds that range's lines. */
  lemma Widened(was: seq<Range>, now: seq<Range>, r: Range)
    requires was != [] && was[|was| - 1].0 <= r.0 <= was[|was| - 1].1
    requires now == was[..|was| - 1] + [(was[|was| - 1].0, if r.1 > was[|was| - 1].1 then r.1 else was[|was| - 1].1)]
    ensures forall k :: Covers(now, k) <==> Covers(was + [r], k)
  {
    var last := was[|was| - 1];
    assert was == was[..|was| - 1] + [last];
    forall k ensures Covers(now, k) <==> Covers(was + [r], k) {
      CoversAppend(was[..|was| - 1], [now[|now| - 1]], k);
      CoversAppend(was[..|was| - 1], [last], k);
      CoversAppend(was, [r], k);
      CoversOne(last, k);
      CoversOne(r, k);
      CoversOne(now[|now| - 1], k);
    }
  }

  // ---------------------------------------------------------------- subtracting

  function CutOne(seg: Range, hole: Range): seq<Range> {
    if hole.1 < seg.0 || hole.0 > seg.1 then [seg]
    else (if seg.0 < hole.0 then [(seg.0, hole.0 - 1)] else []) + if hole.1 < seg.1 then [(hole.1 + 1, seg.1)] else []
  }

  function CutAll(segs: seq<Range>, hole: Range): seq<Range> {
    if segs == [] then [] else CutAll(segs[..|segs| - 1], hole) + CutOne(segs[|segs| - 1], hole)
  }

  lemma CutOneCovers(seg: Range, hole: Range, k: int)
    ensures Covers(CutOne(seg, hole), k) <==> In(seg, k) && !In(hole, k)
    ensures Proper(seg) && Proper(hole) ==> AllProper(CutOne(seg, hole))
  {
    var left: seq<Range> := if seg.0 < hole.0 then [(seg.0, hole.0 - 1)] else [];
    var right: seq<Range> := if hole.1 < seg.1 then [(hole.1 + 1, seg.1)] else [];
    CoversAppend(left, right, k);
    CoversOne(seg, k);
    CoversOne((seg.0, hole.0 - 1), k);
    CoversOne((hole.1 + 1, seg.1), k);
  }

  lemma {:induction false} CutAllCovers(segs: seq<Range>, hole: Range, k: int)
    ensures Covers(CutAll(segs, hole), k) <==> Covers(segs, k) && !In(hole, k)
    ensures Proper(hole) && AllProper(segs) ==> AllProper(CutAll(segs, hole))
  {
    if segs != [] {
      var init, last := segs[..|segs| - 1], segs[|segs| - 1];
      assert segs == init + [last];
      CutAllCovers(init, hole, k);
      CutOneCovers(last, hole, k);
      CoversAppend(CutAll(init, hole), CutOne(last, hole), k);
      CoversAppend(init, [last], k);
      CoversOne(last, k);
    }
  }

  /** What is left of a span is its lines outside every hole, exactly, even where ranges are inverted. */
  method Subtract(a: int, b: int, holes: seq<Range>) returns (segs: seq<Range>)
    ensures forall k :: Covers(segs, k) <==> a <= k <= b && !Covers(holes, k)
    ensures a <= b && AllProper(holes) ==> AllProper(segs)
  {
    segs := [(a, b)];
    var i := 0;
    assert forall k :: Covers(segs, k) <==> In((a, b), k);
    while i < |holes|
      invariant 0 <= i <= |holes|
      invariant forall k :: Covers(segs, k) <==> a <= k <= b && !Covers(holes[..i], k)
      invariant a <= b && AllProper(holes) ==> AllProper(segs)
    {
      var next := CutSegments(segs, holes[i]);
      assert holes[i] in holes && holes[..i + 1] == holes[..i] + [holes[i]];
      forall k ensures Covers(next, k) <==> a <= k <= b && !Covers(holes[..i + 1], k) {
        CutAllCovers(segs, holes[i], k);
        CoversAppend(holes[..i], [holes[i]], k);
        CoversOne(holes[i], k);
      }
      CutAllCovers(segs, holes[i], 0);
      segs := next;
      i := i + 1;
    }
    assert holes[..|holes|] == holes;
  }

  /** The inner loop: every segment against one hole. */
  method CutSegments(segs: seq<Range>, hole: Range) returns (next: seq<Range>)
    ensures next == CutAll(segs, hole)
  {
    next := [];
    var i := 0;
    while i < |segs|
      invariant 0 <= i <= |segs|
      invariant next == CutAll(segs[..i], hole)
    {
      var seg := segs[i];
      assert segs[..i + 1][..i] == segs[..i];
      ghost var done := next;
      if hole.1 < seg.0 || hole.0 > seg.1 {
        next := next + [seg];
      } else {
        if seg.0 < hole.0 {
          next := next + [(seg.0, hole.0 - 1)];
        }
        if hole.1 < seg.1 {
          next := next + [(hole.1 + 1, seg.1)];
        }
        assert next == done + CutOne(seg, hole);
      }
      i := i + 1;
    }
    assert segs[..|segs|] == segs;
  }

  // ---------------------------------------------------------------- the scope

  datatype Scoped = Scoped(file: string, first: int, last: int)

  /** A file and the spans of its named functions; none named means the whole file. */
  datatype Entry = Entry(file: string, spans: seq<Range>)

  /** What the repository says about a file: its text and its test-only ranges. */
  datatype Repo = Repo(text: string -> string, holes: string -> seq<Range>)

  function Newlines(text: string): nat {
    if text == "" then 0 else (if text[0] == '\n' then 1 else 0) + Newlines(text[1..])
  }

  function SpansOf(repo: Repo, e: Entry): seq<Range> {
    if e.spans == [] then [(1, Newlines(repo.text(e.file)) + 1)] else e.spans
  }

  ghost predicate InScopeLine(ranges: seq<Scoped>, file: string, k: int) {
    exists r <- ranges :: r.file == file && r.first <= k <= r.last
  }

  ghost predicate EntryHas(repo: Repo, e: Entry, file: string, k: int) {
    e.file == file && Covers(SpansOf(repo, e), k) && !Covers(repo.holes(file), k)
  }

  ghost predicate EntriesHave(repo: Repo, entries: seq<Entry>, file: string, k: int) {
    exists e <- entries :: EntryHas(repo, e, file, k)
  }

  /** A scope's lines are its spans' lines minus test-only ones, per file. */
  method ScopeRangesOf(repo: Repo, entries: seq<Entry>) returns (out: seq<Scoped>)
    ensures forall file, k :: InScopeLine(out, file, k) <==> EntriesHave(repo, entries, file, k)
    ensures (forall e <- entries :: ProperEntry(repo, e)) ==> forall r <- out :: r.first <= r.last
  {
    out := [];
    var i := 0;
    while i < |entries|
      invariant 0 <= i <= |entries|
      invariant forall file, k :: InScopeLine(out, file, k) <==> EntriesHave(repo, entries[..i], file, k)
      invariant (forall e <- entries :: ProperEntry(repo, e)) ==> forall r <- out :: r.first <= r.last
    {
      var e := entries[i];
      assert e in entries && entries[..i + 1] == entries[..i] + [e];
      var more := EntryRanges(repo, e);
      ghost var was := out;
      out := out + more;
      forall file, k ensures InScopeLine(out, file, k) <==> EntriesHave(repo, entries[..i + 1], file, k) {
        ScopedAppend(was, more, file, k);
        assert forall x :: x in entries[..i + 1] <==> x in entries[..i] || x == e;
      }
      i := i + 1;
    }
    assert entries[..|entries|] == entries;
  }

  ghost predicate ProperEntry(repo: Repo, e: Entry) {
    AllProper(SpansOf(repo, e)) && AllProper(repo.holes(e.file))
  }

  lemma ScopedAppend(a: seq<Scoped>, b: seq<Scoped>, file: string, k: int)
    ensures InScopeLine(a + b, file, k) <==> InScopeLine(a, file, k) || InScopeLine(b, file, k)
  {
  }

  method EntryRanges(repo: Repo, e: Entry) returns (out: seq<Scoped>)
    ensures forall file, k :: InScopeLine(out, file, k) <==> EntryHas(repo, e, file, k)
    ensures ProperEntry(repo, e) ==> forall r <- out :: r.first <= r.last
  {
    var spans := SpansOf(repo, e);
    var holes := repo.holes(e.file);
    out := [];
    var i := 0;
    while i < |spans|
      invariant 0 <= i <= |spans|
      invariant forall r <- out :: r.file == e.file
      invariant forall k :: InScopeLine(out, e.file, k) <==> Covers(spans[..i], k) && !Covers(holes, k)
      invariant ProperEntry(repo, e) ==> forall r <- out :: r.first <= r.last
    {
      assert spans[i] in spans && spans[..i + 1] == spans[..i] + [spans[i]];
      var segs := Subtract(spans[i].0, spans[i].1, holes);
      var more := Placed(e.file, segs);
      assert AllProper(segs) ==> forall j :: 0 <= j < |more| ==> segs[j] in segs && more[j].first <= more[j].last;
      ghost var was := out;
      out := out + more;
      forall k ensures InScopeLine(out, e.file, k) <==> Covers(spans[..i + 1], k) && !Covers(holes, k) {
        ScopedAppend(was, more, e.file, k);
        PlacedCovers(e.file, segs, k);
        CoversAppend(spans[..i], [spans[i]], k);
        CoversOne(spans[i], k);
      }
      i := i + 1;
    }
    assert spans[..|spans|] == spans;
  }

  function Placed(file: string, segs: seq<Range>): seq<Scoped> {
    seq(|segs|, i requires 0 <= i < |segs| => Scoped(file, segs[i].0, segs[i].1))
  }

  lemma PlacedCovers(file: string, segs: seq<Range>, k: int)
    ensures InScopeLine(Placed(file, segs), file, k) <==> Covers(segs, k)
  {
    if InScopeLine(Placed(file, segs), file, k) {
      var i :| 0 <= i < |segs| && Placed(file, segs)[i].first <= k <= Placed(file, segs)[i].last;
      assert segs[i] in segs && In(segs[i], k);
    }
    if Covers(segs, k) {
      var i :| 0 <= i < |segs| && In(segs[i], k);
      assert Placed(file, segs)[i] in Placed(file, segs);
    }
  }

  // ---------------------------------------------------------------- the diff

  function Split(text: string): (lines: seq<string>)
    ensures |lines| == Newlines(text) + 1
  {
    if text == "" then [""]
    else
      var rest := Split(text[1..]);
      if text[0] == '\n' then [""] + rest else [[text[0]] + rest[0]] + rest[1..]
  }

  /** The lines of a text; a final newline ends the last line and starts no other. */
  function Lines(text: string): (lines: seq<string>)
    ensures |lines| == Newlines(text) || |lines| == Newlines(text) + 1
  {
    var all := Split(text);
    if all[|all| - 1] == "" then all[..|all| - 1] else all
  }

  function Joined(lines: seq<string>): string {
    if lines == [] then "" else if |lines| == 1 then lines[0] else lines[0] + "\n" + Joined(lines[1..])
  }

  /** The pieces joined by newlines are the text, and no piece holds a newline. */
  lemma {:induction false} SplitJoins(text: string)
    ensures Joined(Split(text)) == text && forall line <- Split(text) :: '\n' !in line
  {
    if text != "" {
      var rest := Split(text[1..]);
      SplitJoins(text[1..]);
      assert text == [text[0]] + text[1..] && rest == [rest[0]] + rest[1..];
    }
  }

  /** So are the lines, but for a newline that ends the text. */
  lemma LinesJoin(text: string)
    ensures forall line <- Lines(text) :: '\n' !in line
    ensures if text == "" then Lines(text) == []
            else if text[|text| - 1] == '\n' then Lines(text) != [] && Joined(Lines(text)) + "\n" == text
            else Joined(Lines(text)) == text
  {
    var all := Split(text);
    SplitJoins(text);
    JoinedInit(all);
    var last := all[|all| - 1];
    if last != "" {
      assert last in all && last[|last| - 1] in last && text[|text| - 1] == last[|last| - 1];
    }
  }

  lemma {:induction false} JoinedInit(lines: seq<string>)
    requires lines != []
    ensures Joined(lines) == if |lines| == 1 then lines[0] else Joined(lines[..|lines| - 1]) + "\n" + lines[|lines| - 1]
  {
    if |lines| > 1 {
      JoinedInit(lines[1..]);
      assert lines[1..][..|lines| - 2] == lines[..|lines| - 1][1..];
    }
  }

  datatype DiffLine = DiffLine(added: bool, text: string)

  /** One file's hunk: its header numbers and its body. */
  datatype FileDiff = FileDiff(file: string, oldStart: nat, oldCount: nat, newStart: nat, newCount: nat, body: seq<DiffLine>)

  function OldSide(body: seq<DiffLine>): seq<string> {
    if body == [] then [] else OldSide(body[..|body| - 1]) + if body[|body| - 1].added then [] else [body[|body| - 1].text]
  }

  function NewSide(body: seq<DiffLine>): seq<string> {
    seq(|body|, i requires 0 <= i < |body| => body[i].text)
  }

  /** The hunk is well formed: its counts are its body's, and its new side is the file. */
  ghost predicate Consistent(d: FileDiff, lines: seq<string>) {
    && NewSide(d.body) == lines && d.newCount == |lines| && d.newStart == 1
    && d.oldCount == |OldSide(d.body)| && d.oldStart == if d.oldCount == 0 then 0 else 1
  }

  /** Line `k` of the file, counted from one, is added exactly when it is in scope. */
  ghost predicate AddsScope(d: FileDiff, ranges: seq<Scoped>) {
    forall k :: 1 <= k <= |d.body| ==> (d.body[k - 1].added <==> InScopeLine(ranges, d.file, k))
  }

  predicate AddedAt(d: FileDiff, k: int) {
    1 <= k <= |d.body| && d.body[k - 1].added
  }

  method AddedLines(ranges: seq<Scoped>, file: string) returns (added: set<int>)
    ensures forall k :: k in added <==> InScopeLine(ranges, file, k)
  {
    added := {};
    var i := 0;
    while i < |ranges|
      invariant 0 <= i <= |ranges|
      invariant forall k :: k in added <==> InScopeLine(ranges[..i], file, k)
    {
      var r := ranges[i];
      assert ranges[..i + 1] == ranges[..i] + [r];
      ghost var was := added;
      if r.file == file {
        added := AddLines(added, r.first, r.last);
      }
      forall k ensures k in added <==> InScopeLine(ranges[..i + 1], file, k) {
        ScopedAppend(ranges[..i], [r], file, k);
        assert InScopeLine([r], file, k) <==> r.file == file && r.first <= k <= r.last;
      }
      i := i + 1;
    }
    assert ranges[..|ranges|] == ranges;
  }

  /** `added.update(range(first, last + 1))`. */
  method AddLines(added: set<int>, first: int, last: int) returns (more: set<int>)
    ensures forall k :: k in more <==> k in added || first <= k <= last
  {
    more := added;
    var k := first;
    while k <= last
      invariant first <= k && (k == first || k <= last + 1)
      invariant forall x :: x in more <==> x in added || first <= x < k
      decreases last - k + 1
    {
      more := more + {k};
      k := k + 1;
    }
  }

  method FileHunk(file: string, lines: seq<string>, ranges: seq<Scoped>) returns (d: FileDiff)
    ensures d.file == file && Consistent(d, lines) && AddsScope(d, ranges)
  {
    var added := AddedLines(ranges, file);
    var ctx: nat := 0;
    var body: seq<DiffLine> := [];
    var k := 1;
    while k <= |lines|
      invariant 1 <= k <= |lines| + 1 && |body| == k - 1
      invariant forall j :: 0 <= j < |body| ==> body[j] == DiffLine(j + 1 in added, lines[j])
      invariant ctx == |OldSide(body)|
    {
      var line := DiffLine(k in added, lines[k - 1]);
      assert (body + [line])[..|body|] == body;
      if k !in added {
        ctx := ctx + 1;
      }
      body := body + [line];
      k := k + 1;
    }
    d := FileDiff(file, if ctx > 0 then 1 else 0, ctx, 1, |lines|, body);
  }

  ghost predicate IsHunk(repo: Repo, ranges: seq<Scoped>, file: string, d: FileDiff) {
    d.file == file && Consistent(d, Lines(repo.text(file))) && AddsScope(d, ranges)
  }

  ghost predicate NamesFile(ranges: seq<Scoped>, file: string) {
    exists r <- ranges :: r.file == file
  }

  ghost predicate HasHunk(diff: seq<FileDiff>, file: string) {
    exists d <- diff :: d.file == file
  }

  /** One hunk per file the scope names and no other, the files in order. */
  method ScopeDiff(repo: Repo, ranges: seq<Scoped>) returns (diff: seq<FileDiff>)
    ensures forall d <- diff :: IsHunk(repo, ranges, d.file, d)
    ensures forall file :: HasHunk(diff, file) <==> NamesFile(ranges, file)
    ensures forall i, j :: 0 <= i < j < |diff| ==> Precedes(diff[i].file, diff[j].file)
  {
    diff := [];
    var files := FilesOf(ranges);
    while |diff| < |files|
      invariant |diff| <= |files|
      invariant forall i :: 0 <= i < |diff| ==> IsHunk(repo, ranges, files[i], diff[i])
    {
      var d := FileHunk(files[|diff|], Lines(repo.text(files[|diff|])), ranges);
      diff := diff + [d];
    }
    FilesNamed(repo, ranges, files, diff);
  }

  method FilesOf(ranges: seq<Scoped>) returns (files: seq<string>)
    ensures Alphabetical(files) && forall file :: file in files <==> NamesFile(ranges, file)
  {
    files := Alphabetized(set r <- ranges :: r.file);
  }

  lemma FilesNamed(repo: Repo, ranges: seq<Scoped>, files: seq<string>, diff: seq<FileDiff>)
    requires |diff| == |files| && forall i :: 0 <= i < |diff| ==> IsHunk(repo, ranges, files[i], diff[i])
    ensures forall d <- diff :: IsHunk(repo, ranges, d.file, d)
    ensures forall file :: HasHunk(diff, file) <==> file in files
    ensures Alphabetical(files) ==> forall i, j :: 0 <= i < j < |diff| ==> Precedes(diff[i].file, diff[j].file)
  {
    forall file <- files ensures HasHunk(diff, file) {
      var i :| 0 <= i < |files| && files[i] == file;
      assert diff[i] in diff;
    }
  }

  ghost predicate AddsLine(diff: seq<FileDiff>, file: string, k: int) {
    exists d <- diff :: d.file == file && AddedAt(d, k)
  }

  ghost predicate SpanAdded(diff: seq<FileDiff>, file: string, line: int, last: int) {
    exists k :: line <= k <= last && AddsLine(diff, file, k)
  }

  /**
   From entries to the diff: the `+` lines are the lines of the spans outside test-only
   ranges, where the file has them, and for proper entries a mutant inside its file is in
   scope exactly when its span has such a line.
   */
  method Resolve(repo: Repo, entries: seq<Entry>) returns (ranges: seq<Scoped>, diff: seq<FileDiff>)
    ensures forall file, k :: InScopeLine(ranges, file, k) <==> EntriesHave(repo, entries, file, k)
    ensures forall file, k :: AddsLine(diff, file, k) <==> 1 <= k <= |Lines(repo.text(file))| && EntriesHave(repo, entries, file, k)
    ensures (forall e <- entries :: ProperEntry(repo, e)) ==>
              forall file, line, end :: 1 <= line && SpanEnd(line, end) <= |Lines(repo.text(file))| ==>
                (InScope(ranges, file, line, end) <==> SpanAdded(diff, file, line, SpanEnd(line, end)))
  {
    ranges := ScopeRangesOf(repo, entries);
    diff := ScopeDiff(repo, ranges);
    if forall r <- ranges :: r.first <= r.last {
      MutantsMatch(repo, ranges, diff);
    }
    forall file, k ensures AddsLine(diff, file, k) <==> 1 <= k <= |Lines(repo.text(file))| && InScopeLine(ranges, file, k) {
      HunksAdd(repo, ranges, diff, file, k);
    }
  }

  lemma MutantsMatch(repo: Repo, ranges: seq<Scoped>, diff: seq<FileDiff>)
    requires forall d <- diff :: IsHunk(repo, ranges, d.file, d)
    requires forall file :: HasHunk(diff, file) <==> NamesFile(ranges, file)
    requires forall r <- ranges :: r.first <= r.last
    ensures forall file, line, end :: 1 <= line && SpanEnd(line, end) <= |Lines(repo.text(file))| ==>
              (InScope(ranges, file, line, end) <==> SpanAdded(diff, file, line, SpanEnd(line, end)))
  {
    forall file, line, end | 1 <= line && SpanEnd(line, end) <= |Lines(repo.text(file))|
      ensures InScope(ranges, file, line, end) <==> SpanAdded(diff, file, line, SpanEnd(line, end))
    {
      SpanAgrees(ranges, file, line, end);
      forall k | line <= k <= SpanEnd(line, end) ensures AddsLine(diff, file, k) <==> InScopeLine(ranges, file, k) {
        HunksAdd(repo, ranges, diff, file, k);
      }
    }
  }

  lemma HunksAdd(repo: Repo, ranges: seq<Scoped>, diff: seq<FileDiff>, file: string, k: int)
    requires forall d <- diff :: IsHunk(repo, ranges, d.file, d)
    requires HasHunk(diff, file) <==> NamesFile(ranges, file)
    ensures AddsLine(diff, file, k) <==> 1 <= k <= |Lines(repo.text(file))| && InScopeLine(ranges, file, k)
  {
    forall d <- diff | d.file == file
      ensures AddedAt(d, k) <==> 1 <= k <= |Lines(repo.text(file))| && InScopeLine(ranges, file, k)
    {
      assert |NewSide(d.body)| == |d.body|;
    }
    if InScopeLine(ranges, file, k) {
      assert NamesFile(ranges, file);
    }
  }

  // ---------------------------------------------------------------- asking again

  function SpanEnd(line: int, end: Option<int>): int {
    if end.None? || end.value < line then line else end.value
  }

  predicate InScope(ranges: seq<Scoped>, file: string, line: int, end: Option<int>) {
    exists r <- ranges :: r.file == file && r.first <= SpanEnd(line, end) && line <= r.last
  }

  /** The span has a line the scope has. */
  ghost predicate Touches(ranges: seq<Scoped>, file: string, line: int, last: int) {
    exists k :: line <= k <= last && InScopeLine(ranges, file, k)
  }

  /** An inverted range is harmless where the scope has a line between its ends. */
  ghost predicate Harmless(ranges: seq<Scoped>, r: Scoped) {
    r.first <= r.last || Touches(ranges, r.file, r.last, r.first)
  }

  /** The two filters agree on every span of a file exactly when no range of that file is harmfully inverted. */
  lemma FiltersAgreeIff(ranges: seq<Scoped>, file: string)
    ensures (forall line, end :: InScope(ranges, file, line, end) <==> Touches(ranges, file, line, SpanEnd(line, end)))
            <==> (forall r <- ranges :: r.file == file ==> Harmless(ranges, r))
  {
    if forall r <- ranges :: r.file == file ==> Harmless(ranges, r) {
      forall line, end ensures InScope(ranges, file, line, end) <==> Touches(ranges, file, line, SpanEnd(line, end)) {
        SpanAgrees(ranges, file, line, end);
      }
    } else {
      var r :| r in ranges && r.file == file && !Harmless(ranges, r);
      assert SpanEnd(r.last, Some(r.first)) == r.first;
      assert InScope(ranges, file, r.last, Some(r.first));
      assert !Touches(ranges, file, r.last, SpanEnd(r.last, Some(r.first)));
    }
  }

  lemma SpanAgrees(ranges: seq<Scoped>, file: string, line: int, end: Option<int>)
    requires forall r <- ranges :: r.file == file ==> Harmless(ranges, r)
    ensures InScope(ranges, file, line, end) <==> Touches(ranges, file, line, SpanEnd(line, end))
  {
    var last := SpanEnd(line, end);
    if InScope(ranges, file, line, end) {
      var r :| r in ranges && r.file == file && r.first <= last && line <= r.last;
      if r.first <= r.last {
        var k := if line < r.first then r.first else line;
        assert line <= k <= last && InScopeLine(ranges, file, k);
      } else {
        var k :| r.last <= k <= r.first && InScopeLine(ranges, file, k);
        assert line <= k <= last;
      }
    }
    if Touches(ranges, file, line, last) {
      var k :| line <= k <= last && InScopeLine(ranges, file, k);
      var r :| r in ranges && r.file == file && r.first <= k <= r.last;
    }
  }

  /** Ranges made from proper spans and test-only ranges: a mutant inside the file is in scope exactly when it touches a `+` line. */
  lemma MutantsMatchTheDiff(ranges: seq<Scoped>, d: FileDiff, line: int, end: Option<int>)
    requires (forall r <- ranges :: r.first <= r.last) && AddsScope(d, ranges)
    requires 1 <= line && SpanEnd(line, end) <= |d.body|
    ensures InScope(ranges, d.file, line, end) <==> exists k :: line <= k <= SpanEnd(line, end) && AddedAt(d, k)
  {
    SpanAgrees(ranges, d.file, line, end);
    var last := SpanEnd(line, end);
    if Touches(ranges, d.file, line, last) {
      var k :| line <= k <= last && InScopeLine(ranges, d.file, k);
      assert AddedAt(d, k);
    }
    if k :| line <= k <= last && AddedAt(d, k) {
      assert InScopeLine(ranges, d.file, k);
    }
  }

  /** A whole-file entry adds every line of the file outside test-only ranges. */
  lemma WholeFileCoversFile(repo: Repo, e: Entry, k: int)
    requires e.spans == [] && 1 <= k <= |Lines(repo.text(e.file))|
    ensures EntryHas(repo, e, e.file, k) <==> !Covers(repo.holes(e.file), k)
  {
    var span := (1, Newlines(repo.text(e.file)) + 1);
    assert SpansOf(repo, e) == [span] && span in SpansOf(repo, e) && In(span, k);
  }
}
