/**
 * Line-oriented parsers for three kinds of git output: the porcelain list of
 * worktrees, the porcelain status and the unified diff. Each parser is a
 * method that walks the lines of its input once, as `parseWorktreeList`,
 * `parseStatusOutput` and `parseDiff` do, and is proved equal to a left fold
 * of a one-line step function; the lemmas state what the fold computes.
 */
module GitParser {
  import opened JsBuiltins

  // ===================================================================
  // git worktree list --porcelain
  // ===================================================================

  datatype Worktree = Worktree(
    path: string,
    branch: Option<string>,
    head: Option<string>,
    isMain: bool,
    isBare: bool,
    locked: bool,
    prunable: bool)

  /** The worktree under construction (the parser's `current`). */
  datatype Partial = Partial(
    path: Option<string>,
    head: Option<string>,
    branch: Option<string>,
    isBare: bool,
    locked: bool,
    prunable: bool)

  datatype WorktreeScan = WorktreeScan(worktrees: seq<Worktree>, current: Partial)

  const Blank := Partial(None, None, None, false, false, false)

  /** A `worktree <path>` line opens a new block. */
  predicate IsWorktreeLine(line: string) {
    StartsWith(line, "worktree ")
  }

  function Complete(p: Partial): Worktree
    requires p.path.Some?
  {
    Worktree(p.path.value, p.branch, p.head, false, p.isBare, p.locked, p.prunable)
  }

  /** The branch shown for a detached HEAD: the first seven characters of the commit, or `undefined` before any HEAD line. */
  function DetachedBranch(head: Option<string>): string {
    "(detached at " + (if head.Some? then SliceTo(head.value, 7) else "undefined") + ")"
  }

  /** The effect of a line other than `worktree <path>` on the worktree under construction. */
  function Annotate(p: Partial, line: string): Partial {
    if StartsWith(line, "HEAD ") then p.(head := Some(SliceFrom(line, 5)))
    else if StartsWith(line, "branch ") then p.(branch := Some(ReplaceFirst(SliceFrom(line, 7), "refs/heads/", "")))
    else if line == "bare" then p.(isBare := true)
    else if line == "locked" then p.(locked := true)
    else if line == "prunable" then p.(prunable := true)
    else if StartsWith(line, "detached") then p.(branch := Some(DetachedBranch(p.head)))
    else p
  }

  /** Push the worktree under construction when it has a non-empty path. */
  function Flush(worktrees: seq<Worktree>, p: Partial): seq<Worktree> {
    if Truthy(p.path) then worktrees + [Complete(p)] else worktrees
  }

  function WorktreeStep(st: WorktreeScan, line: string): WorktreeScan {
    if IsWorktreeLine(line) then
      WorktreeScan(Flush(st.worktrees, st.current), Blank.(path := Some(SliceFrom(line, 9))))
    else
      st.(current := Annotate(st.current, line))
  }

  function ScanWorktrees(lines: seq<string>): WorktreeScan
    decreases |lines|
  {
    if lines == [] then WorktreeScan([], Blank)
    else WorktreeStep(ScanWorktrees(lines[..|lines| - 1]), lines[|lines| - 1])
  }

  function MarkMain(worktrees: seq<Worktree>): seq<Worktree> {
    if worktrees == [] then [] else [worktrees[0].(isMain := true)] + worktrees[1..]
  }

  function WorktreesOfLines(lines: seq<string>): seq<Worktree> {
    var st := ScanWorktrees(lines);
    MarkMain(Flush(st.worktrees, st.current))
  }

  function WorktreesOf(output: string): seq<Worktree> {
    WorktreesOfLines(Split(output, '\n'))
  }

  method ParseWorktreeList(output: string) returns (worktrees: seq<Worktree>)
    ensures worktrees == WorktreesOf(output)
  {
    var lines := Split(output, '\n');
    worktrees := [];
    var current := Blank;
    for i := 0 to |lines|
      invariant WorktreeScan(worktrees, current) == ScanWorktrees(lines[..i])
    {
      var line := lines[i];
      assert lines[..i + 1][..i] == lines[..i];
      if StartsWith(line, "worktree ") {
        if Truthy(current.path) {
          worktrees := worktrees + [Complete(current)];
        }
        current := Partial(Some(SliceFrom(line, 9)), None, None, false, false, false);
      } else if StartsWith(line, "HEAD ") {
        current := current.(head := Some(SliceFrom(line, 5)));
      } else if StartsWith(line, "branch ") {
        current := current.(branch := Some(ReplaceFirst(SliceFrom(line, 7), "refs/heads/", "")));
      } else if line == "bare" {
        current := current.(isBare := true);
      } else if line == "locked" {
        current := current.(locked := true);
      } else if line == "prunable" {
        current := current.(prunable := true);
      } else if StartsWith(line, "detached") {
        current := current.(branch := Some(DetachedBranch(current.head)));
      }
    }
    assert lines[..|lines|] == lines;
    if Truthy(current.path) {
      worktrees := worktrees + [Complete(current)];
    }
    if |worktrees| > 0 {
      worktrees := worktrees[0 := worktrees[0].(isMain := true)];
    }
  }

  /** The paths of the `worktree <path>` lines whose path is not empty, in input order. */
  function HeaderPaths(lines: seq<string>): seq<string>
    decreases |lines|
  {
    if lines == [] then []
    else
      var last := lines[|lines| - 1];
      HeaderPaths(lines[..|lines| - 1]) + (if IsWorktreeLine(last) && |last| > 9 then [last[9..]] else [])
  }

  function Paths(worktrees: seq<Worktree>): (r: seq<string>)
    ensures |r| == |worktrees|
    ensures forall k :: 0 <= k < |r| ==> r[k] == worktrees[k].path
  {
    if worktrees == [] then [] else Paths(worktrees[..|worktrees| - 1]) + [worktrees[|worktrees| - 1].path]
  }

  lemma PathsAppend(worktrees: seq<Worktree>, w: Worktree)
    ensures Paths(worktrees + [w]) == Paths(worktrees) + [w.path]
  {
  }

  lemma {:induction false} ScanPaths(lines: seq<string>)
    ensures var st := ScanWorktrees(lines);
      Paths(Flush(st.worktrees, st.current)) == HeaderPaths(lines)
      && forall w :: w in st.worktrees ==> !w.isMain
    decreases |lines|
  {
    if lines != [] {
      var init, line := lines[..|lines| - 1], lines[|lines| - 1];
      ScanPaths(init);
      var st := ScanWorktrees(init);
      if IsWorktreeLine(line) {
        var flushed := Flush(st.worktrees, st.current);
        var cur := Blank.(path := Some(SliceFrom(line, 9)));
        assert ScanWorktrees(lines) == WorktreeScan(flushed, cur);
        if |line| > 9 {
          PathsAppend(flushed, Complete(cur));
        }
      } else {
        AnnotateFlags(st.current, line);
        assert ScanWorktrees(lines) == st.(current := Annotate(st.current, line));
      }
    }
  }

  /** One worktree per `worktree <path>` line with a non-empty path, in input order. */
  lemma WorktreePerHeader(lines: seq<string>)
    ensures Paths(WorktreesOfLines(lines)) == HeaderPaths(lines)
  {
    ScanPaths(lines);
    var st := ScanWorktrees(lines);
    var flushed := Flush(st.worktrees, st.current);
    assert Paths(MarkMain(flushed)) == Paths(flushed);
  }

  /** Exactly the first worktree is the main one. */
  lemma OnlyFirstIsMain(lines: seq<string>)
    ensures var ws := WorktreesOfLines(lines);
      forall k :: 0 <= k < |ws| ==> (ws[k].isMain <==> k == 0)
  {
    ScanPaths(lines);
  }

  /** Empty output lists no worktree. */
  lemma NoWorktreesInEmptyOutput()
    ensures WorktreesOf("") == []
  {
    assert Split("", '\n') == [""];
    assert ScanWorktrees([""]) == WorktreeScan([], Blank);
  }

  /** The lines of a block, applied to the worktree its header started. */
  function AnnotateAll(p: Partial, body: seq<string>): Partial
    decreases |body|
  {
    if body == [] then p else Annotate(AnnotateAll(p, body[..|body| - 1]), body[|body| - 1])
  }

  lemma AnnotateFlags(p: Partial, line: string)
    ensures Annotate(p, line).path == p.path
    ensures Annotate(p, line).isBare <==> p.isBare || line == "bare"
    ensures Annotate(p, line).locked <==> p.locked || line == "locked"
    ensures Annotate(p, line).prunable <==> p.prunable || line == "prunable"
  {
    if line == "locked" {
      assert line[0] == 'l';
    } else if line == "prunable" {
      assert line[0] == 'p';
    }
  }

  lemma {:induction false} AnnotateAllFlags(p: Partial, body: seq<string>)
    ensures AnnotateAll(p, body).path == p.path
    ensures AnnotateAll(p, body).isBare <==> p.isBare || "bare" in body
    ensures AnnotateAll(p, body).locked <==> p.locked || "locked" in body
    ensures AnnotateAll(p, body).prunable <==> p.prunable || "prunable" in body
    decreases |body|
  {
    if body != [] {
      var init := body[..|body| - 1];
      AnnotateAllFlags(p, init);
      AnnotateFlags(AnnotateAll(p, init), body[|body| - 1]);
      assert body == init + [body[|body| - 1]];
      assert forall l :: l in body <==> l in init || l == body[|body| - 1];
    }
  }

  lemma {:induction false} ScanBlock(pre: seq<string>, body: seq<string>)
    requires forall l :: l in body ==> !IsWorktreeLine(l)
    ensures ScanWorktrees(pre + body)
      == WorktreeScan(ScanWorktrees(pre).worktrees, AnnotateAll(ScanWorktrees(pre).current, body))
    decreases |body|
  {
    if body == [] {
      assert pre + body == pre;
    } else {
      var init := body[..|body| - 1];
      assert (pre + body)[..|pre + body| - 1] == pre + init;
      ScanBlock(pre, init);
    }
  }

  lemma {:induction false} ScanExtends(pre: seq<string>, more: seq<string>)
    ensures var a := ScanWorktrees(pre); var b := ScanWorktrees(pre + more);
      a.worktrees <= b.worktrees && a.worktrees <= Flush(b.worktrees, b.current)
      && (more != [] && IsWorktreeLine(more[0]) ==> Flush(a.worktrees, a.current) <= b.worktrees)
    decreases |more|
  {
    if more == [] {
      assert pre + more == pre;
    } else if |more| == 1 {
      assert pre + more == pre + [more[0]];
      assert (pre + more)[..|pre + more| - 1] == pre;
    } else {
      var init := more[..|more| - 1];
      assert (pre + more)[..|pre + more| - 1] == pre + init;
      ScanExtends(pre, init);
    }
  }

  /**
   * The worktree a block describes: for a header `worktree <path>` with a
   * non-empty path, followed by lines that open no other block, the entry at
   * the header's position has that path, and isBare, locked and prunable are
   * set exactly when the lines `bare`, `locked` and `prunable` occur in the block.
   */
  lemma BlockFlags(pre: seq<string>, header: string, body: seq<string>, rest: seq<string>)
    requires IsWorktreeLine(header) && |header| > 9
    requires forall l :: l in body ==> !IsWorktreeLine(l)
    requires rest == [] || IsWorktreeLine(rest[0])
    ensures var ws := WorktreesOfLines(pre + [header] + body + rest);
      var k := |HeaderPaths(pre)|;
      k < |ws| && ws[k].path == header[9..]
      && (ws[k].isBare <==> "bare" in body)
      && (ws[k].locked <==> "locked" in body)
      && (ws[k].prunable <==> "prunable" in body)
  {
    var k := |HeaderPaths(pre)|;
    ScanPaths(pre);
    var s0 := ScanWorktrees(pre);
    var w1 := Flush(s0.worktrees, s0.current);
    assert |w1| == k;
    var started := Blank.(path := Some(header[9..]));
    assert ScanWorktrees(pre + [header]) == WorktreeScan(w1, started) by {
      assert (pre + [header])[..|pre + [header]| - 1] == pre;
    }
    ScanBlock(pre + [header], body);
    var c := AnnotateAll(started, body);
    AnnotateAllFlags(started, body);
    var mid := pre + [header] + body;
    assert ScanWorktrees(mid) == WorktreeScan(w1, c);
    var whole := mid + rest;
    ScanExtends(mid, rest);
    var sw := ScanWorktrees(whole);
    var final := Flush(sw.worktrees, sw.current);
    assert w1 + [Complete(c)] <= final by {
      if rest == [] {
        assert whole == mid;
      }
    }
    assert final[k] == Complete(c);
    var ws := MarkMain(final);
    assert ws == WorktreesOfLines(whole);
    assert ws[k].path == final[k].path;
  }

  /** `branch refs/heads/X` names the branch X. */
  lemma BranchFromRef(p: Partial, name: string)
    ensures Annotate(p, "branch refs/heads/" + name).branch == Some(name)
  {
    var line := "branch refs/heads/" + name;
    var ref := "refs/heads/" + name;
    assert !StartsWith(line, "HEAD ") by { assert line[0] == 'b'; }
    assert StartsWith(line, "branch ") by { assert line[..7] == "branch "; }
    assert SliceFrom(line, 7) == ref;
    assert StartsWith(ref, "refs/heads/") by { assert ref[..11] == "refs/heads/"; }
    assert ReplaceFirst(ref, "refs/heads/", "") == "" + ref[11..];
    assert "" + ref[11..] == name;
  }

  /** A `detached` line names the branch after the first seven characters of the HEAD seen so far. */
  lemma DetachedNamesHead(p: Partial, line: string)
    requires StartsWith(line, "detached") && p.head.Some? && |p.head.value| >= 7
    ensures Annotate(p, line).branch == Some("(detached at " + p.head.value[..7] + ")")
  {
    assert line[0] == 'd';
  }

  // ===================================================================
  // git status --porcelain
  // ===================================================================

  datatype StatusCounts = StatusCounts(staged: nat, unstaged: nat, untracked: nat, hasConflicts: bool)

  /** Column 0 or 1 is `U`, or the line starts `AA` or `DD`. */
  predicate IsConflictLine(line: string) {
    var x, y := CharAt(line, 0), CharAt(line, 1);
    x == Some('U') || y == Some('U')
    || (x == Some('A') && y == Some('A'))
    || (x == Some('D') && y == Some('D'))
  }

  predicate IsUntrackedLine(line: string) {
    CharAt(line, 0) == Some('?') && CharAt(line, 1) == Some('?')
  }

  /** A tracked line counts as staged unless its index column is ` ` or `?`. */
  predicate IsStagedLine(line: string) {
    !IsUntrackedLine(line) && CharAt(line, 0) != Some(' ') && CharAt(line, 0) != Some('?')
  }

  /** A tracked line counts as unstaged unless its work-tree column is ` ` or `?` (a missing column counts). */
  predicate IsUnstagedLine(line: string) {
    !IsUntrackedLine(line) && CharAt(line, 1) != Some(' ') && CharAt(line, 1) != Some('?')
  }

  function Tally(b: bool): nat {
    if b then 1 else 0
  }

  function StatusStep(c: StatusCounts, line: string): StatusCounts {
    if line == "" then c
    else StatusCounts(
      c.staged + Tally(IsStagedLine(line)),
      c.unstaged + Tally(IsUnstagedLine(line)),
      c.untracked + Tally(IsUntrackedLine(line)),
      c.hasConflicts || IsConflictLine(line))
  }

  function CountStatus(lines: seq<string>): StatusCounts
    decreases |lines|
  {
    if lines == [] then StatusCounts(0, 0, 0, false)
    else StatusStep(CountStatus(lines[..|lines| - 1]), lines[|lines| - 1])
  }

  function StatusOf(output: string): StatusCounts {
    CountStatus(Split(output, '\n'))
  }

  method ParseStatusOutput(output: string) returns (r: StatusCounts)
    ensures r == StatusOf(output)
  {
    var lines := Split(output, '\n');
    var staged, unstaged, untracked := 0, 0, 0;
    var hasConflicts := false;
    for i := 0 to |lines|
      invariant StatusCounts(staged, unstaged, untracked, hasConflicts) == CountStatus(lines[..i])
    {
      var line := lines[i];
      assert lines[..i + 1][..i] == lines[..i];
      if line == "" {
        continue;
      }
      var indexStatus := CharAt(line, 0);
      var workingStatus := CharAt(line, 1);
      if indexStatus == Some('U') || workingStatus == Some('U')
        || (indexStatus == Some('A') && workingStatus == Some('A'))
        || (indexStatus == Some('D') && workingStatus == Some('D'))
      {
        hasConflicts := true;
      }
      if indexStatus == Some('?') && workingStatus == Some('?') {
        untracked := untracked + 1;
      } else {
        if indexStatus != Some(' ') && indexStatus != Some('?') {
          staged := staged + 1;
        }
        if workingStatus != Some(' ') && workingStatus != Some('?') {
          unstaged := unstaged + 1;
        }
      }
    }
    assert lines[..|lines|] == lines;
    r := StatusCounts(staged, unstaged, untracked, hasConflicts);
  }

  function NonEmptyLines(lines: seq<string>): nat
    decreases |lines|
  {
    if lines == [] then 0 else NonEmptyLines(lines[..|lines| - 1]) + Tally(lines[|lines| - 1] != "")
  }

  /**
   * An untracked line counts only as untracked, and every other non-empty line
   * adds at most one to staged and at most one to unstaged.
   */
  lemma {:induction false} StatusBounds(lines: seq<string>)
    ensures var c := CountStatus(lines);
      c.untracked + c.staged <= NonEmptyLines(lines)
      && c.untracked + c.unstaged <= NonEmptyLines(lines)
    decreases |lines|
  {
    if lines != [] {
      StatusBounds(lines[..|lines| - 1]);
    }
  }

  /** A conflict is reported exactly when some line is a conflict line. */
  lemma {:induction false} ConflictsIffConflictLine(lines: seq<string>)
    ensures CountStatus(lines).hasConflicts <==> exists i :: 0 <= i < |lines| && IsConflictLine(lines[i])
    decreases |lines|
  {
    if lines != [] {
      var init := lines[..|lines| - 1];
      ConflictsIffConflictLine(init);
      if exists i :: 0 <= i < |init| && IsConflictLine(init[i]) {
        var i :| 0 <= i < |init| && IsConflictLine(init[i]);
        assert lines[i] == init[i];
      }
      if exists i :: 0 <= i < |lines| && IsConflictLine(lines[i]) {
        var i :| 0 <= i < |lines| && IsConflictLine(lines[i]);
        if i < |init| {
          assert init[i] == lines[i];
        }
      }
    }
  }

  /** Empty output gives zero counts and no conflict. */
  lemma EmptyStatus()
    ensures StatusOf("") == StatusCounts(0, 0, 0, false)
  {
    assert Split("", '\n') == [""];
  }

  // ===================================================================
  // git diff
  // ===================================================================

  datatype FileStatus = Added | Modified | Deleted | Renamed | Copied
  datatype LineKind = Context | Add | Delete

  datatype DiffLine = DiffLine(kind: LineKind, content: string, oldLineNumber: Option<int>, newLineNumber: Option<int>)

  datatype Hunk = Hunk(oldStart: nat, oldLines: nat, newStart: nat, newLines: nat, header: string, lines: seq<DiffLine>)

  datatype DiffFile = DiffFile(path: string, status: FileStatus, oldPath: Option<string>, hunks: seq<Hunk>, binary: bool)

  datatype DiffStats = DiffStats(filesChanged: nat, insertions: nat, deletions: nat)

  datatype DiffResult = DiffResult(files: seq<DiffFile>, stats: DiffStats)

  /** The numbers of a hunk header `@@ -a[,b] +c[,d] @@`. */
  datatype HunkRange = HunkRange(oldStart: nat, oldLines: nat, newStart: nat, newLines: nat)

  predicate IsDigit(c: char) {
    '0' <= c <= '9'
  }

  /** The length of the run of decimal digits that `s` starts with. */
  function DigitRun(s: string): (n: nat)
    ensures n <= |s|
    ensures forall i :: 0 <= i < n ==> IsDigit(s[i])
    ensures n < |s| ==> !IsDigit(s[n])
    decreases |s|
  {
    if s == [] || !IsDigit(s[0]) then 0 else 1 + DigitRun(s[1..])
  }

  /** `parseInt(ds, 10)` of a string of decimal digits. */
  function DecimalValue(ds: string): nat
    decreases |ds|
  {
    if ds == [] then 0
    else
      var d := ds[|ds| - 1];
      10 * DecimalValue(ds[..|ds| - 1]) + (if IsDigit(d) then (d as int) - ('0' as int) else 0)
  }

  /** `(\d+)`: a number and what follows it. */
  function Number(s: string): Option<(nat, string)> {
    var n := DigitRun(s);
    if n == 0 then None else Some((DecimalValue(s[..n]), s[n..]))
  }

  /** `(\d+)(?:,(\d+))?`: a start, a count that defaults to 1, and what follows. */
  function Range(s: string): Option<(nat, nat, string)> {
    match Number(s)
    case None => None
    case Some((start, rest)) =>
      if |rest| > 0 && rest[0] == ',' && Number(rest[1..]).Some? then
        var (count, rest') := Number(rest[1..]).value;
        Some((start, count, rest'))
      else
        Some((start, 1, rest))
  }

  /** `@@ -(\d+)(?:,(\d+))? \+(\d+)(?:,(\d+))? @@(.*)`, matched at the start of the line. */
  function ParseHunkHeader(line: string): Option<HunkRange> {
    if !StartsWith(line, "@@ -") then None
    else match Range(line[4..])
      case None => None
      case Some((oldStart, oldLines, rest)) =>
        if !StartsWith(rest, " +") then None
        else match Range(rest[2..])
          case None => None
          case Some((newStart, newLines, rest')) =>
            if StartsWith(rest', " @@") then Some(HunkRange(oldStart, oldLines, newStart, newLines)) else None
  }

  /** The decimal digits of `n`, without leading zeros. */
  function Digits(n: nat): (r: string)
    ensures |r| >= 1 && forall i :: 0 <= i < |r| ==> IsDigit(r[i])
    decreases n
  {
    (if n < 10 then "" else Digits(n / 10)) + [(('0' as int) + n % 10) as char]
  }

  lemma {:induction false} DecimalOfDigits(n: nat)
    ensures DecimalValue(Digits(n)) == n
    decreases n
  {
    var ds := Digits(n);
    var init := if n < 10 then "" else Digits(n / 10);
    var d := (('0' as int) + n % 10) as char;
    assert ds == init + [d];
    assert ds[..|ds| - 1] == init && ds[|ds| - 1] == d;
    assert IsDigit(d) && (d as int) - ('0' as int) == n % 10;
    assert DecimalValue(ds) == 10 * DecimalValue(init) + n % 10;
    if n >= 10 {
      DecimalOfDigits(n / 10);
      assert 10 * (n / 10) + n % 10 == n;
    }
  }

  lemma {:induction false} DigitRunOf(ds: string, s: string)
    requires forall i :: 0 <= i < |ds| ==> IsDigit(ds[i])
    requires s == [] || !IsDigit(s[0])
    ensures DigitRun(ds + s) == |ds|
    decreases |ds|
  {
    if ds != [] {
      assert (ds + s)[1..] == ds[1..] + s;
      DigitRunOf(ds[1..], s);
    }
  }

  lemma NumberOf(n: nat, s: string)
    requires s == [] || !IsDigit(s[0])
    ensures Number(Digits(n) + s) == Some((n, s))
  {
    var ds := Digits(n);
    DigitRunOf(ds, s);
    assert (ds + s)[..|ds|] == ds;
    assert (ds + s)[|ds|..] == s;
    DecimalOfDigits(n);
  }

  /** The text of a hunk header with both counts written out, followed by a section heading. */
  function FormatHunkHeader(r: HunkRange, heading: string): string {
    "@@ -" + (Digits(r.oldStart) + ("," + (Digits(r.oldLines)
    + (" +" + (Digits(r.newStart) + ("," + (Digits(r.newLines) + (" @@" + heading))))))))
  }

  /** `a,b` followed by text that starts with neither a digit nor a comma. */
  lemma RangeWithCount(a: nat, b: nat, s: string)
    requires s == [] || (!IsDigit(s[0]) && s[0] != ',')
    ensures Range(Digits(a) + ("," + (Digits(b) + s))) == Some((a, b, s))
  {
    var tail := "," + (Digits(b) + s);
    NumberOf(a, tail);
    assert tail[1..] == Digits(b) + s;
    NumberOf(b, s);
  }

  /** `a` alone, followed by text that starts with neither a digit nor a comma: the count is 1. */
  lemma RangeWithoutCount(a: nat, s: string)
    requires s == [] || (!IsDigit(s[0]) && s[0] != ',')
    ensures Range(Digits(a) + s) == Some((a, 1, s))
  {
    NumberOf(a, s);
  }

  /** The hunk header parser, given what each of its steps reads. */
  lemma HeaderOfParts(oldPart: string, newPart: string, tail: string, o: (nat, nat), n: (nat, nat))
    requires Range(oldPart) == Some((o.0, o.1, " +" + newPart))
    requires Range(newPart) == Some((n.0, n.1, " @@" + tail))
    ensures ParseHunkHeader("@@ -" + oldPart) == Some(HunkRange(o.0, o.1, n.0, n.1))
  {
    var line := "@@ -" + oldPart;
    assert StartsWith(line, "@@ -") by { assert line[..4] == "@@ -"; }
    assert line[4..] == oldPart;
    var rest1 := " +" + newPart;
    assert StartsWith(rest1, " +") by { assert rest1[..2] == " +"; }
    assert rest1[2..] == newPart;
    var rest2 := " @@" + tail;
    assert StartsWith(rest2, " @@") by { assert rest2[..3] == " @@"; }
  }

  /** Reading back a written header gives its four numbers, whatever section heading follows. */
  lemma HunkHeaderRoundTrip(r: HunkRange, heading: string)
    ensures ParseHunkHeader(FormatHunkHeader(r, heading)) == Some(r)
  {
    var newPart := Digits(r.newStart) + ("," + (Digits(r.newLines) + (" @@" + heading)));
    var oldPart := Digits(r.oldStart) + ("," + (Digits(r.oldLines) + (" +" + newPart)));
    RangeWithCount(r.oldStart, r.oldLines, " +" + newPart);
    RangeWithCount(r.newStart, r.newLines, " @@" + heading);
    HeaderOfParts(oldPart, newPart, heading, (r.oldStart, r.oldLines), (r.newStart, r.newLines));
  }

  /** One side of a hunk header: the start, then `,count` unless the count is omitted. */
  function RangeText(start: nat, count: Option<nat>): string {
    Digits(start) + (if count.Some? then "," + Digits(count.value) else "")
  }

  /** Reading one side back gives its start and its count, 1 when omitted. */
  lemma RangeOfText(start: nat, count: Option<nat>, s: string)
    requires s == [] || (!IsDigit(s[0]) && s[0] != ',')
    ensures Range(RangeText(start, count) + s) == Some((start, count.GetOr(1), s))
  {
    if count.Some? {
      assert RangeText(start, count) + s == Digits(start) + ("," + (Digits(count.value) + s));
      RangeWithCount(start, count.value, s);
    } else {
      assert RangeText(start, count) + s == Digits(start) + s;
      RangeWithoutCount(start, s);
    }
  }

  /**
   * Each side of a header defaults its count to 1 on its own when the count
   * is omitted: `@@ -0,0 +1 @@` and `@@ -1 +1,2 @@` as much as `@@ -a +c @@`.
   */
  lemma OmittedCountIsOne(oldStart: nat, oldLines: Option<nat>, newStart: nat, newLines: Option<nat>, heading: string)
    ensures ParseHunkHeader("@@ -" + (RangeText(oldStart, oldLines) + (" +" + (RangeText(newStart, newLines) + (" @@" + heading)))))
      == Some(HunkRange(oldStart, oldLines.GetOr(1), newStart, newLines.GetOr(1)))
  {
    var newPart := RangeText(newStart, newLines) + (" @@" + heading);
    RangeOfText(oldStart, oldLines, " +" + newPart);
    RangeOfText(newStart, newLines, " @@" + heading);
    HeaderOfParts(RangeText(oldStart, oldLines) + (" +" + newPart), newPart, heading,
                  (oldStart, oldLines.GetOr(1)), (newStart, newLines.GetOr(1)));
  }

  /** The parser's state: finished files, the open file and hunk, the two line counters and the running stats. */
  datatype DiffScan = DiffScan(
    files: seq<DiffFile>,
    file: Option<DiffFile>,
    hunk: Option<Hunk>,
    oldLineNum: int,
    newLineNum: int,
    stats: DiffStats)

  const NewFile := DiffFile("", Modified, None, [], false)

  /** Close the open hunk into its file. */
  function WithHunk(f: DiffFile, hunk: Option<Hunk>): DiffFile {
    if hunk.Some? then f.(hunks := f.hunks + [hunk.value]) else f
  }

  /** The header lines that describe the open file rather than its content. */
  predicate IsFileInfoLine(line: string) {
    StartsWith(line, "--- a/") || StartsWith(line, "--- /dev/null")
    || StartsWith(line, "+++ b/") || StartsWith(line, "+++ /dev/null")
    || StartsWith(line, "rename from ") || StartsWith(line, "rename to ")
    || StartsWith(line, "Binary files")
  }

  /** The effect of a file information line on the open file; it never touches the hunks. */
  function Describe(f: DiffFile, line: string): (r: DiffFile)
    ensures r.hunks == f.hunks
  {
    if StartsWith(line, "--- a/") then f.(oldPath := Some(SliceFrom(line, 6)))
    else if StartsWith(line, "--- /dev/null") then f.(status := Added)
    else if StartsWith(line, "+++ b/") then f.(path := SliceFrom(line, 6))
    else if StartsWith(line, "+++ /dev/null") then f.(status := Deleted, path := if Truthy(f.oldPath) then f.oldPath.value else "")
    else if StartsWith(line, "rename from ") then f.(status := Renamed, oldPath := Some(SliceFrom(line, 12)))
    else if StartsWith(line, "rename to ") then f.(path := SliceFrom(line, 10))
    else if StartsWith(line, "Binary files") then f.(binary := true)
    else f
  }

  /** The hunk line a content line inside a hunk becomes: `+` added, `-` deleted, ` ` context, anything else nothing. */
  function ContentLine(line: string, oldNum: int, newNum: int): Option<DiffLine> {
    if StartsWith(line, "+") then Some(DiffLine(Add, SliceFrom(line, 1), None, Some(newNum)))
    else if StartsWith(line, "-") then Some(DiffLine(Delete, SliceFrom(line, 1), Some(oldNum), None))
    else if StartsWith(line, " ") then Some(DiffLine(Context, SliceFrom(line, 1), Some(oldNum), Some(newNum)))
    else None
  }

  /** A `diff --git` line closes the open file (with its open hunk) and opens a new one. */
  function OpenFile(st: DiffScan): DiffScan {
    st.(files := if st.file.Some? then st.files + [WithHunk(st.file.value, st.hunk)] else st.files,
        file := Some(NewFile),
        hunk := None)
  }

  /** An `@@` line closes the open hunk and opens a new one when the header parses. */
  function OpenHunk(st: DiffScan, f: DiffFile, line: string): DiffScan {
    match ParseHunkHeader(line)
    case Some(r) =>
      st.(file := Some(WithHunk(f, st.hunk)),
          hunk := Some(Hunk(r.oldStart, r.oldLines, r.newStart, r.newLines, line, [])),
          oldLineNum := r.oldStart,
          newLineNum := r.newStart)
    case None =>
      st.(file := Some(WithHunk(f, st.hunk)), hunk := None)
  }

  /** A content line appended to the open hunk advances the counters of its sides and the stats of its kind. */
  function AddLine(st: DiffScan, h: Hunk, l: DiffLine): DiffScan {
    st.(hunk := Some(h.(lines := h.lines + [l])),
        oldLineNum := st.oldLineNum + Tally(l.kind != Add),
        newLineNum := st.newLineNum + Tally(l.kind != Delete),
        stats := st.stats.(insertions := st.stats.insertions + Tally(l.kind == Add),
                           deletions := st.stats.deletions + Tally(l.kind == Delete)))
  }

  function DiffStep(st: DiffScan, line: string): DiffScan {
    if StartsWith(line, "diff --git") then OpenFile(st)
    else if st.file.None? then st
    else if IsFileInfoLine(line) then st.(file := Some(Describe(st.file.value, line)))
    else if StartsWith(line, "@@") then OpenHunk(st, st.file.value, line)
    else if st.hunk.None? then st
    else match ContentLine(line, st.oldLineNum, st.newLineNum)
      case None => st
      case Some(l) => AddLine(st, st.hunk.value, l)
  }

  const DiffStart := DiffScan([], None, None, 0, 0, DiffStats(0, 0, 0))

  function ScanDiff(lines: seq<string>): DiffScan
    decreases |lines|
  {
    if lines == [] then DiffStart
    else DiffStep(ScanDiff(lines[..|lines| - 1]), lines[|lines| - 1])
  }

  /** Push the last file and hunk, and count the files. */
  function FinishDiff(st: DiffScan): DiffResult {
    var files := if st.file.Some? then st.files + [WithHunk(st.file.value, st.hunk)] else st.files;
    DiffResult(files, st.stats.(filesChanged := |files|))
  }

  function DiffOfLines(lines: seq<string>): DiffResult {
    FinishDiff(ScanDiff(lines))
  }

  function DiffOf(output: string): DiffResult {
    DiffOfLines(Split(output, '\n'))
  }

  /** The branches of the loop below that rewrite the open file from a file information line. */
  method DescribeFile(f: DiffFile, line: string) returns (g: DiffFile)
    requires IsFileInfoLine(line)
    ensures g == Describe(f, line)
  {
    if StartsWith(line, "--- a/") {
      g := f.(oldPath := Some(SliceFrom(line, 6)));
    } else if StartsWith(line, "--- /dev/null") {
      g := f.(status := Added);
    } else if StartsWith(line, "+++ b/") {
      g := f.(path := SliceFrom(line, 6));
    } else if StartsWith(line, "+++ /dev/null") {
      g := f.(status := Deleted, path := if Truthy(f.oldPath) then f.oldPath.value else "");
    } else if StartsWith(line, "rename from ") {
      g := f.(status := Renamed, oldPath := Some(SliceFrom(line, 12)));
    } else if StartsWith(line, "rename to ") {
      g := f.(path := SliceFrom(line, 10));
    } else {
      g := f.(binary := true);
    }
  }

  /** The branches of the loop below that append a content line to the open hunk and advance the counters. */
  method AddContent(h: Hunk, line: string, oldNum: int, newNum: int, stats: DiffStats)
    returns (h': Hunk, oldNum': int, newNum': int, stats': DiffStats)
    ensures var st := DiffScan([], None, Some(h), oldNum, newNum, stats);
      var r := match ContentLine(line, oldNum, newNum) case None => st case Some(l) => AddLine(st, h, l);
      r == DiffScan([], None, Some(h'), oldNum', newNum', stats')
  {
    h', oldNum', newNum', stats' := h, oldNum, newNum, stats;
    if StartsWith(line, "+") {
      h' := h.(lines := h.lines + [DiffLine(Add, SliceFrom(line, 1), None, Some(newNum))]);
      newNum' := newNum + 1;
      stats' := stats.(insertions := stats.insertions + 1);
    } else if StartsWith(line, "-") {
      h' := h.(lines := h.lines + [DiffLine(Delete, SliceFrom(line, 1), Some(oldNum), None)]);
      oldNum' := oldNum + 1;
      stats' := stats.(deletions := stats.deletions + 1);
    } else if StartsWith(line, " ") {
      h' := h.(lines := h.lines + [DiffLine(Context, SliceFrom(line, 1), Some(oldNum), Some(newNum))]);
      oldNum' := oldNum + 1;
      newNum' := newNum + 1;
    }
  }

  method ParseDiff(diffOutput: string) returns (result: DiffResult)
    ensures result == DiffOf(diffOutput)
  {
    var files: seq<DiffFile> := [];
    var currentFile: Option<DiffFile> := None;
    var currentHunk: Option<Hunk> := None;
    var oldLineNum, newLineNum := 0, 0;
    var stats := DiffStats(0, 0, 0);
    var lines := Split(diffOutput, '\n');
    for i := 0 to |lines|
      invariant DiffScan(files, currentFile, currentHunk, oldLineNum, newLineNum, stats) == ScanDiff(lines[..i])
    {
      var line := lines[i];
      assert lines[..i + 1][..i] == lines[..i];
      if StartsWith(line, "diff --git") {
        if currentFile.Some? {
          files := files + [WithHunk(currentFile.value, currentHunk)];
        }
        currentFile := Some(DiffFile("", Modified, None, [], false));
        currentHunk := None;
        continue;
      }
      if currentFile.None? {
        continue;
      }
      var f := currentFile.value;
      if IsFileInfoLine(line) {
        f := DescribeFile(f, line);
        currentFile := Some(f);
      } else if StartsWith(line, "@@") {
        if currentHunk.Some? {
          currentFile := Some(f.(hunks := f.hunks + [currentHunk.value]));
        }
        var header := ParseHunkHeader(line);
        if header.Some? {
          oldLineNum := header.value.oldStart;
          newLineNum := header.value.newStart;
          currentHunk := Some(Hunk(oldLineNum, header.value.oldLines, newLineNum, header.value.newLines, line, []));
        } else {
          currentHunk := None;
        }
      } else if currentHunk.Some? {
        var h := currentHunk.value;
        h, oldLineNum, newLineNum, stats := AddContent(h, line, oldLineNum, newLineNum, stats);
        currentHunk := Some(h);
      }
    }
    assert lines[..|lines|] == lines;
    if currentFile.Some? {
      files := files + [WithHunk(currentFile.value, currentHunk)];
    }
    stats := stats.(filesChanged := |files|);
    result := DiffResult(files, stats);
  }

  // --- counting -------------------------------------------------------

  predicate IsFileHeader(line: string) {
    StartsWith(line, "diff --git")
  }

  function FileHeaders(lines: seq<string>): nat
    decreases |lines|
  {
    if lines == [] then 0 else FileHeaders(lines[..|lines| - 1]) + Tally(IsFileHeader(lines[|lines| - 1]))
  }

  function LinesOfKind(lines: seq<DiffLine>, k: LineKind): nat
    decreases |lines|
  {
    if lines == [] then 0 else LinesOfKind(lines[..|lines| - 1], k) + Tally(lines[|lines| - 1].kind == k)
  }

  function HunkLinesOfKind(hunks: seq<Hunk>, k: LineKind): nat
    decreases |hunks|
  {
    if hunks == [] then 0 else HunkLinesOfKind(hunks[..|hunks| - 1], k) + LinesOfKind(hunks[|hunks| - 1].lines, k)
  }

  function FileLinesOfKind(files: seq<DiffFile>, k: LineKind): nat
    decreases |files|
  {
    if files == [] then 0 else FileLinesOfKind(files[..|files| - 1], k) + HunkLinesOfKind(files[|files| - 1].hunks, k)
  }

  /** The lines of kind `k` held by a scan state, closed or still open. */
  function ScannedOfKind(st: DiffScan, k: LineKind): nat {
    FileLinesOfKind(st.files, k)
    + (if st.file.Some? then HunkLinesOfKind(st.file.value.hunks, k) else 0)
    + (if st.hunk.Some? then LinesOfKind(st.hunk.value.lines, k) else 0)
  }

  lemma AppendHunk(hunks: seq<Hunk>, h: Hunk, k: LineKind)
    ensures HunkLinesOfKind(hunks + [h], k) == HunkLinesOfKind(hunks, k) + LinesOfKind(h.lines, k)
  {
    assert (hunks + [h])[..|hunks + [h]| - 1] == hunks;
  }

  lemma AppendFile(files: seq<DiffFile>, f: DiffFile, k: LineKind)
    ensures FileLinesOfKind(files + [f], k) == FileLinesOfKind(files, k) + HunkLinesOfKind(f.hunks, k)
  {
    assert (files + [f])[..|files + [f]| - 1] == files;
  }

  lemma AppendLine(lines: seq<DiffLine>, l: DiffLine, k: LineKind)
    ensures LinesOfKind(lines + [l], k) == LinesOfKind(lines, k) + Tally(l.kind == k)
  {
    assert (lines + [l])[..|lines + [l]| - 1] == lines;
  }

  lemma CloseKeepsCount(f: DiffFile, hunk: Option<Hunk>, k: LineKind)
    ensures HunkLinesOfKind(WithHunk(f, hunk).hunks, k)
      == HunkLinesOfKind(f.hunks, k) + (if hunk.Some? then LinesOfKind(hunk.value.lines, k) else 0)
  {
    if hunk.Some? {
      AppendHunk(f.hunks, hunk.value, k);
    }
  }

  /** The invariant of the diff scan: the counters count the lines held, files and hunks nest, and files match headers. */
  ghost predicate DiffScanInv(st: DiffScan, lines: seq<string>) {
    && st.stats.insertions == ScannedOfKind(st, Add)
    && st.stats.deletions == ScannedOfKind(st, Delete)
    && (st.hunk.Some? ==> st.file.Some?)
    && |st.files| + Tally(st.file.Some?) == FileHeaders(lines)
  }

  lemma DiffStepInv(st: DiffScan, lines: seq<string>, line: string)
    requires DiffScanInv(st, lines)
    ensures DiffScanInv(DiffStep(st, line), lines + [line])
  {
    assert (lines + [line])[..|lines + [line]| - 1] == lines;
    var st' := DiffStep(st, line);
    forall k: LineKind
      ensures ScannedOfKind(st', k) == ScannedOfKind(st, k) + Tally(StepAdds(st, line, k))
    {
      StepCount(st, line, k);
    }
  }

  /** Whether a step appends a hunk line of kind `k`. */
  predicate StepAdds(st: DiffScan, line: string, k: LineKind) {
    && !StartsWith(line, "diff --git")
    && st.file.Some? && !IsFileInfoLine(line) && !StartsWith(line, "@@")
    && st.hunk.Some?
    && var l := ContentLine(line, st.oldLineNum, st.newLineNum);
       l.Some? && l.value.kind == k
  }

  lemma OpenFileCount(st: DiffScan, k: LineKind)
    requires st.hunk.Some? ==> st.file.Some?
    ensures ScannedOfKind(OpenFile(st), k) == ScannedOfKind(st, k)
  {
    if st.file.Some? {
      AppendFile(st.files, WithHunk(st.file.value, st.hunk), k);
      CloseKeepsCount(st.file.value, st.hunk, k);
    }
  }

  lemma OpenHunkCount(st: DiffScan, f: DiffFile, line: string, k: LineKind)
    requires st.file == Some(f)
    ensures ScannedOfKind(OpenHunk(st, f, line), k) == ScannedOfKind(st, k)
  {
    CloseKeepsCount(f, st.hunk, k);
    assert LinesOfKind([], k) == 0;
  }

  lemma AddLineCount(st: DiffScan, h: Hunk, l: DiffLine, k: LineKind)
    requires st.hunk == Some(h)
    ensures ScannedOfKind(AddLine(st, h, l), k) == ScannedOfKind(st, k) + Tally(l.kind == k)
  {
    AppendLine(h.lines, l, k);
  }

  lemma StepCount(st: DiffScan, line: string, k: LineKind)
    requires st.hunk.Some? ==> st.file.Some?
    ensures ScannedOfKind(DiffStep(st, line), k) == ScannedOfKind(st, k) + Tally(StepAdds(st, line, k))
  {
    if StartsWith(line, "diff --git") {
      OpenFileCount(st, k);
    } else if st.file.Some? && !IsFileInfoLine(line) {
      if StartsWith(line, "@@") {
        OpenHunkCount(st, st.file.value, line, k);
      } else if st.hunk.Some? {
        var l := ContentLine(line, st.oldLineNum, st.newLineNum);
        if l.Some? {
          AddLineCount(st, st.hunk.value, l.value, k);
        }
      }
    }
  }

  lemma {:induction false} ScanDiffInv(lines: seq<string>)
    ensures DiffScanInv(ScanDiff(lines), lines)
    decreases |lines|
  {
    if lines == [] {
    } else {
      var init := lines[..|lines| - 1];
      ScanDiffInv(init);
      DiffStepInv(ScanDiff(init), init, lines[|lines| - 1]);
      assert init + [lines[|lines| - 1]] == lines;
    }
  }

  /**
   * One file per `diff --git` line, filesChanged is the number of files, and
   * insertions and deletions count exactly the added and deleted lines the
   * hunks hold.
   */
  lemma DiffCounts(lines: seq<string>)
    ensures var r := DiffOfLines(lines);
      |r.files| == FileHeaders(lines)
      && r.stats.filesChanged == |r.files|
      && r.stats.insertions == FileLinesOfKind(r.files, Add)
      && r.stats.deletions == FileLinesOfKind(r.files, Delete)
  {
    ScanDiffInv(lines);
    var st := ScanDiff(lines);
    if st.file.Some? {
      forall k: LineKind
        ensures FileLinesOfKind(DiffOfLines(lines).files, k) == ScannedOfKind(st, k)
      {
        AppendFile(st.files, WithHunk(st.file.value, st.hunk), k);
        CloseKeepsCount(st.file.value, st.hunk, k);
      }
    }
  }

  /** The `\ No newline at end of file` marker changes nothing. */
  lemma NoNewlineMarkerIgnored(st: DiffScan)
    ensures DiffStep(st, "\\ No newline at end of file") == st
  {
    var m := "\\ No newline at end of file";
    assert forall k :: 0 < k <= |m| ==> m[..k][0] == '\\';
    assert !StartsWith(m, "diff --git") && !IsFileInfoLine(m) && !StartsWith(m, "@@");
    assert ContentLine(m, st.oldLineNum, st.newLineNum) == None;
  }

  /** Empty output has no file and zero stats. */
  lemma EmptyDiff()
    ensures DiffOf("") == DiffResult([], DiffStats(0, 0, 0))
  {
    assert Split("", '\n') == [""];
  }

  // --- line numbering ---------------------------------------------------

  function NewSide(lines: seq<DiffLine>): nat
    decreases |lines|
  {
    if lines == [] then 0 else NewSide(lines[..|lines| - 1]) + Tally(lines[|lines| - 1].kind != Delete)
  }

  function OldSide(lines: seq<DiffLine>): nat
    decreases |lines|
  {
    if lines == [] then 0 else OldSide(lines[..|lines| - 1]) + Tally(lines[|lines| - 1].kind != Add)
  }

  /**
   * Line `k` of a hunk is numbered from the hunk's starts: an added line has
   * only a new number, a deleted line only an old number, a context line both,
   * each being the start plus the lines before it on that side.
   */
  ghost predicate NumberedAt(h: Hunk, k: nat)
    requires k < |h.lines|
  {
    var l := h.lines[k];
    (l.kind != Delete ==> l.newLineNumber == Some(h.newStart + NewSide(h.lines[..k])))
    && (l.kind == Delete ==> l.newLineNumber == None)
    && (l.kind != Add ==> l.oldLineNumber == Some(h.oldStart + OldSide(h.lines[..k])))
    && (l.kind == Add ==> l.oldLineNumber == None)
  }

  ghost predicate WellNumbered(h: Hunk) {
    forall k :: 0 <= k < |h.lines| ==> NumberedAt(h, k)
  }

  ghost predicate AllNumbered(files: seq<DiffFile>) {
    forall i, j :: 0 <= i < |files| && 0 <= j < |files[i].hunks| ==> WellNumbered(files[i].hunks[j])
  }

  ghost predicate HunksNumbered(hunks: seq<Hunk>) {
    forall j :: 0 <= j < |hunks| ==> WellNumbered(hunks[j])
  }

  ghost predicate NumberingInv(st: DiffScan) {
    && AllNumbered(st.files)
    && (st.file.Some? ==> HunksNumbered(st.file.value.hunks))
    && (st.hunk.Some? ==>
          WellNumbered(st.hunk.value)
          && st.newLineNum == st.hunk.value.newStart + NewSide(st.hunk.value.lines)
          && st.oldLineNum == st.hunk.value.oldStart + OldSide(st.hunk.value.lines))
  }

  lemma AppendNumbered(h: Hunk, l: DiffLine, oldNum: int, newNum: int)
    requires WellNumbered(h)
    requires newNum == h.newStart + NewSide(h.lines) && oldNum == h.oldStart + OldSide(h.lines)
    requires l.kind != Delete ==> l.newLineNumber == Some(newNum)
    requires l.kind == Delete ==> l.newLineNumber == None
    requires l.kind != Add ==> l.oldLineNumber == Some(oldNum)
    requires l.kind == Add ==> l.oldLineNumber == None
    ensures var h' := h.(lines := h.lines + [l]);
      WellNumbered(h')
      && newNum + Tally(l.kind != Delete) == h'.newStart + NewSide(h'.lines)
      && oldNum + Tally(l.kind != Add) == h'.oldStart + OldSide(h'.lines)
  {
    var h' := h.(lines := h.lines + [l]);
    assert h'.lines[..|h'.lines| - 1] == h.lines;
    forall k | 0 <= k < |h'.lines|
      ensures NumberedAt(h', k)
    {
      if k < |h.lines| {
        assert h'.lines[..k] == h.lines[..k];
        assert h'.lines[k] == h.lines[k];
        assert NumberedAt(h, k);
      } else {
        assert h'.lines[..k] == h.lines;
      }
    }
  }

  lemma OpenFileNumbering(st: DiffScan)
    requires NumberingInv(st) && (st.hunk.Some? ==> st.file.Some?)
    ensures NumberingInv(OpenFile(st))
  {
    var st' := OpenFile(st);
    if st.file.Some? {
      var closed := WithHunk(st.file.value, st.hunk);
      assert st'.files == st.files + [closed];
      assert HunksNumbered(closed.hunks);
    }
    assert st'.file == Some(NewFile);
  }

  lemma OpenHunkNumbering(st: DiffScan, f: DiffFile, line: string)
    requires NumberingInv(st) && st.file == Some(f)
    ensures NumberingInv(OpenHunk(st, f, line))
  {
    assert HunksNumbered(WithHunk(f, st.hunk).hunks);
  }

  lemma AddLineNumbering(st: DiffScan, h: Hunk, l: DiffLine)
    requires NumberingInv(st) && st.hunk == Some(h)
    requires l.kind != Delete ==> l.newLineNumber == Some(st.newLineNum)
    requires l.kind == Delete ==> l.newLineNumber == None
    requires l.kind != Add ==> l.oldLineNumber == Some(st.oldLineNum)
    requires l.kind == Add ==> l.oldLineNumber == None
    ensures NumberingInv(AddLine(st, h, l))
  {
    AppendNumbered(h, l, st.oldLineNum, st.newLineNum);
  }

  lemma NumberingStep(st: DiffScan, line: string)
    requires NumberingInv(st) && (st.hunk.Some? ==> st.file.Some?)
    ensures NumberingInv(DiffStep(st, line))
  {
    if StartsWith(line, "diff --git") {
      OpenFileNumbering(st);
    } else if st.file.Some? && !IsFileInfoLine(line) {
      if StartsWith(line, "@@") {
        OpenHunkNumbering(st, st.file.value, line);
      } else if st.hunk.Some? {
        var l := ContentLine(line, st.oldLineNum, st.newLineNum);
        if l.Some? {
          AddLineNumbering(st, st.hunk.value, l.value);
        }
      }
    }
  }

  lemma {:induction false} ScanNumbering(lines: seq<string>)
    ensures NumberingInv(ScanDiff(lines)) && (ScanDiff(lines).hunk.Some? ==> ScanDiff(lines).file.Some?)
    decreases |lines|
  {
    if lines != [] {
      var init := lines[..|lines| - 1];
      ScanNumbering(init);
      NumberingStep(ScanDiff(init), lines[|lines| - 1]);
    }
  }

  /**
   * Every hunk of the result is numbered from its header: added lines take
   * consecutive new line numbers from newStart, deleted lines consecutive old
   * line numbers from oldStart, and context lines advance both.
   */
  lemma HunksWellNumbered(lines: seq<string>)
    ensures AllNumbered(DiffOfLines(lines).files)
  {
    ScanNumbering(lines);
    var st := ScanDiff(lines);
    if st.file.Some? {
      var closed := WithHunk(st.file.value, st.hunk);
      assert HunksNumbered(closed.hunks);
      var files := st.files + [closed];
      forall i, j | 0 <= i < |files| && 0 <= j < |files[i].hunks|
        ensures WellNumbered(files[i].hunks[j])
      {
        if i < |st.files| {
          assert files[i] == st.files[i];
        }
      }
    }
  }
}
