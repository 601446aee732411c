/** Diff statistics and the patch risk gate of rfsn_swebench/gate.py, and what
    the hunk minimiser of rfsn_kernel/patch_minimize.py does to them. */
module DiffGate {
  import opened Common
  import opened TextLines
  import opened DiffMinimize

  /** What the gate asks of text and does not spell out here: whether a file name
      or a line mentions "test" in any case, and how a "diff --git" line names
      its file - None when it has fewer than four fields. */
  datatype Lexer = Lexer(mentionsTest: string -> bool, gitPath: string -> Option<string>)

  datatype Stats = Stats(sizeBytes: nat, filesTouched: set<string>, newFiles: nat, addedLines: nat, deletedLines: nat,
                         deletedTestLines: nat, plusLines: seq<string>, plusLinesTest: seq<string>, plusLinesSource: seq<string>)

  // ------------------------------------------------------------- line by line

  /** The part of the statistics that each line contributes on its own. */
  datatype Local = Local(files: set<string>, newFiles: nat, plus: seq<string>, deleted: nat, deletedTest: nat)

  const NOTHING := Local({}, 0, [], 0, 0)

  function Both(a: Local, b: Local): Local {
    Local(a.files + b.files, a.newFiles + b.newFiles, a.plus + b.plus, a.deleted + b.deleted, a.deletedTest + b.deletedTest)
  }

  predicate IsGitHeader(line: string) { StartsWith(line, "diff --git ") }

  function GitFile(lx: Lexer, line: string): Option<string> {
    if IsGitHeader(line) then lx.gitPath(line) else None
  }

  function LocalOf(lx: Lexer, line: string): Local {
    Local(match GitFile(lx, line) case Some(f) => {f} case None => {},
          if StartsWith(line, "new file mode") then 1 else 0,
          if IsPlus(line) then [line[1..]] else [],
          if IsMinus(line) then 1 else 0,
          if IsMinus(line) && lx.mentionsTest(line) then 1 else 0)
  }

  function Total(lx: Lexer, lines: seq<string>): Local {
    if lines == [] then NOTHING else Both(Total(lx, lines[..|lines| - 1]), LocalOf(lx, lines[|lines| - 1]))
  }

  /** The file a line makes current, if it does. */
  function Sets(lx: Lexer, line: string): Option<string> {
    if StartsWith(line, "+++ b/") then Some(line[6..]) else GitFile(lx, line)
  }

  /** The file the added lines after `lines` belong to. */
  function CurrentFile(lx: Lexer, from: string, lines: seq<string>): string {
    if lines == [] then from
    else Sets(lx, lines[|lines| - 1]).GetOr(CurrentFile(lx, from, lines[..|lines| - 1]))
  }

  /** The added lines of test files, or those of all other files. */
  function Attributed(lx: Lexer, test: bool, from: string, lines: seq<string>): seq<string> {
    if lines == [] then []
    else
      var last := lines[|lines| - 1];
      Attributed(lx, test, from, lines[..|lines| - 1])
      + (if IsPlus(last) && lx.mentionsTest(CurrentFile(lx, from, lines)) == test then [last[1..]] else [])
  }

  function StatsOf(lx: Lexer, size: nat, lines: seq<string>): Stats {
    var t := Total(lx, lines);
    Stats(size, t.files, t.newFiles, |t.plus|, t.deleted, t.deletedTest, t.plus,
          Attributed(lx, true, "", lines), Attributed(lx, false, "", lines))
  }

  function Analysis(lx: Lexer, diff: string): Stats {
    StatsOf(lx, Bytes(diff), SplitLines(diff))
  }

  /** The statistics after one more line, the current file already updated. */
  function AddLine(lx: Lexer, s: Stats, currentFile: string, line: string): Stats {
    var test := lx.mentionsTest(currentFile);
    s.(filesTouched := if GitFile(lx, line).Some? then s.filesTouched + {GitFile(lx, line).value} else s.filesTouched,
       newFiles := if StartsWith(line, "new file mode") then s.newFiles + 1 else s.newFiles,
       addedLines := if IsPlus(line) then s.addedLines + 1 else s.addedLines,
       plusLines := if IsPlus(line) then s.plusLines + [line[1..]] else s.plusLines,
       plusLinesTest := if IsPlus(line) && test then s.plusLinesTest + [line[1..]] else s.plusLinesTest,
       plusLinesSource := if IsPlus(line) && !test then s.plusLinesSource + [line[1..]] else s.plusLinesSource,
       deletedLines := if IsMinus(line) then s.deletedLines + 1 else s.deletedLines,
       deletedTestLines := if IsMinus(line) && lx.mentionsTest(line) then s.deletedTestLines + 1 else s.deletedTestLines)
  }

  lemma AddLineIsStats(lx: Lexer, size: nat, lines: seq<string>, line: string)
    ensures StatsOf(lx, size, lines + [line]) ==
            AddLine(lx, StatsOf(lx, size, lines), CurrentFile(lx, "", lines + [line]), line)
    ensures CurrentFile(lx, "", lines + [line]) == Sets(lx, line).GetOr(CurrentFile(lx, "", lines))
  {
    assert (lines + [line])[..|lines|] == lines;
  }

  lemma NoLines(lx: Lexer, size: nat)
    ensures StatsOf(lx, size, []) == Stats(size, {}, 0, 0, 0, 0, [], [], []) && CurrentFile(lx, "", []) == ""
  {
  }

  /** The body of the loop over the lines of a diff. */
  method CountLine(lx: Lexer, s: Stats, file: string, line: string) returns (stats: Stats, currentFile: string)
    ensures currentFile == Sets(lx, line).GetOr(file)
    ensures stats == AddLine(lx, s, currentFile, line)
  {
    stats, currentFile := s, file;
    assert IsPlus(line) ==> line[..1] == "+" && line[0] == '+';
    assert IsMinus(line) ==> line[..1] == "-" && line[0] == '-';
    if IsGitHeader(line) {
      var path := lx.gitPath(line);
      if path.Some? {
        currentFile := path.value;
        stats := stats.(filesTouched := stats.filesTouched + {path.value});
      }
    }
    if StartsWith(line, "+++ b/") {
      currentFile := line[6..];
    }
    if StartsWith(line, "new file mode") {
      stats := stats.(newFiles := stats.newFiles + 1);
    }
    if IsPlus(line) {
      stats := stats.(addedLines := stats.addedLines + 1, plusLines := stats.plusLines + [line[1..]]);
      if lx.mentionsTest(currentFile) {
        stats := stats.(plusLinesTest := stats.plusLinesTest + [line[1..]]);
      } else {
        stats := stats.(plusLinesSource := stats.plusLinesSource + [line[1..]]);
      }
    } else if IsMinus(line) {
      stats := stats.(deletedLines := stats.deletedLines + 1);
      if lx.mentionsTest(line) {
        stats := stats.(deletedTestLines := stats.deletedTestLines + 1);
      }
    }
  }

  method DiffAnalysis(lx: Lexer, diff: string) returns (stats: Stats)
    ensures stats == Analysis(lx, diff)
  {
    hide StatsOf, CurrentFile, AddLine, Sets, SplitLines, Bytes;
    stats := Stats(Bytes(diff), {}, 0, 0, 0, 0, [], [], []);
    var currentFile := "";
    var lines := SplitLines(diff);
    NoLines(lx, Bytes(diff));
    assert lines[..0] == [];
    for i := 0 to |lines|
      invariant stats == StatsOf(lx, Bytes(diff), lines[..i])
      invariant currentFile == CurrentFile(lx, "", lines[..i])
    {
      assert lines[..i + 1] == lines[..i] + [lines[i]];
      AddLineIsStats(lx, Bytes(diff), lines[..i], lines[i]);
      stats, currentFile := CountLine(lx, stats, currentFile, lines[i]);
    }
    assert lines[..|lines|] == lines;
  }

  // ------------------------------------------------ the statistics, on the lines

  lemma PlusChars(line: string)
    ensures IsPlus(line) <==> line != "" && line[0] == '+' && !("+++" <= line)
    ensures IsMinus(line) <==> line != "" && line[0] == '-' && !("---" <= line)
  {
    assert "+"[0] == '+' && "-"[0] == '-';
    if line != "" { assert line[..1] == [line[0]]; }
  }

  lemma TotalNext(lx: Lexer, front: seq<string>, last: string)
    ensures var t, t' := Total(lx, front), Total(lx, front + [last]);
            && |t'.plus| == |t.plus| + (if IsPlus(last) then 1 else 0) && t'.deleted == t.deleted + (if IsMinus(last) then 1 else 0)
            && t'.deletedTest == t.deletedTest + (if IsMinus(last) && lx.mentionsTest(last) then 1 else 0)
            && t'.newFiles == t.newFiles + (if StartsWith(last, "new file mode") then 1 else 0)
            && forall f :: f in t'.files <==> f in t.files || GitFile(lx, last) == Some(f)
  {
    hide IsPlus, IsMinus, StartsWith, GitFile;
    assert (front + [last])[..|front|] == front;
  }

  lemma {:induction false} TotalCounts(lx: Lexer, lines: seq<string>, test: string -> bool, added: string -> bool)
    requires (forall l :: test(l) <==> IsMinus(l) && lx.mentionsTest(l)) && forall l :: added(l) <==> StartsWith(l, "new file mode")
    ensures var t := Total(lx, lines);
            && |t.plus| == |Places(lines, IsPlus)| && t.deleted == |Places(lines, IsMinus)|
            && t.deletedTest == |Places(lines, test)| && t.newFiles == |Places(lines, added)|
  {
    if lines != [] {
      var front, last := lines[..|lines| - 1], lines[|lines| - 1];
      TotalCounts(lx, front, test, added);
      assert lines == front + [last];
      TotalNext(lx, front, last);
      hide Total, IsPlus, IsMinus, StartsWith;
      PlacesNext(front, last, IsPlus);
      PlacesNext(front, last, IsMinus);
      PlacesNext(front, last, test);
      PlacesNext(front, last, added);
    }
  }

  lemma {:induction false} TotalFiles(lx: Lexer, lines: seq<string>, f: string)
    ensures f in Total(lx, lines).files <==> exists i :: 0 <= i < |lines| && GitFile(lx, lines[i]) == Some(f)
  {
    if lines != [] {
      var front, last := lines[..|lines| - 1], lines[|lines| - 1];
      TotalFiles(lx, front, f);
      assert lines == front + [last];
      TotalNext(lx, front, last);
    }
  }

  /** What the statistics of a diff are, in terms of its lines: the bytes of the
      text, the files its "diff --git" lines name, and how many lines begin a new
      file, add, delete, or delete a line that mentions a test. */
  lemma {:induction false} AnalysisMeans(lx: Lexer, diff: string)
    ensures var s, lines := Analysis(lx, diff), SplitLines(diff);
            && s.sizeBytes == Bytes(diff)
            && (forall f :: f in s.filesTouched <==> exists i :: 0 <= i < |lines| && "diff --git " <= lines[i] && lx.gitPath(lines[i]) == Some(f))
            && s.newFiles == |set i | 0 <= i < |lines| && "new file mode" <= lines[i]|
            && s.addedLines == |s.plusLines| == |set i | 0 <= i < |lines| && lines[i] != "" && lines[i][0] == '+' && !("+++" <= lines[i])|
            && s.deletedLines == |set i | 0 <= i < |lines| && lines[i] != "" && lines[i][0] == '-' && !("---" <= lines[i])|
            && s.deletedTestLines ==
               |set i | 0 <= i < |lines| && lines[i] != "" && lines[i][0] == '-' && !("---" <= lines[i]) && lx.mentionsTest(lines[i])|
  {
    hide SplitLines, Total, Attributed, IsPlus, IsMinus, Bytes;
    var lines := SplitLines(diff);
    var test, added := l => IsMinus(l) && lx.mentionsTest(l), l => StartsWith(l, "new file mode");
    TotalCounts(lx, lines, test, added);
    forall f
      ensures f in Total(lx, lines).files <==> exists i :: 0 <= i < |lines| && "diff --git " <= lines[i] && lx.gitPath(lines[i]) == Some(f)
    {
      TotalFiles(lx, lines, f);
    }
    ChangePlaces(lines);
    forall i | 0 <= i < |lines|
      ensures test(lines[i]) <==> lines[i] != "" && lines[i][0] == '-' && !("---" <= lines[i]) && lx.mentionsTest(lines[i])
    {
      PlusChars(lines[i]);
    }
    assert Places(lines, test) == set i | 0 <= i < |lines| && lines[i] != "" && lines[i][0] == '-' && !("---" <= lines[i]) && lx.mentionsTest(lines[i]);
    assert Places(lines, added) == set i | 0 <= i < |lines| && "new file mode" <= lines[i];
  }

  lemma ChangePlaces(lines: seq<string>)
    ensures Places(lines, IsPlus) == set i | 0 <= i < |lines| && lines[i] != "" && lines[i][0] == '+' && !("+++" <= lines[i])
    ensures Places(lines, IsMinus) == set i | 0 <= i < |lines| && lines[i] != "" && lines[i][0] == '-' && !("---" <= lines[i])
  {
    hide IsPlus, IsMinus;
    forall i | 0 <= i < |lines|
      ensures IsPlus(lines[i]) <==> lines[i] != "" && lines[i][0] == '+' && !("+++" <= lines[i])
      ensures IsMinus(lines[i]) <==> lines[i] != "" && lines[i][0] == '-' && !("---" <= lines[i])
    {
      PlusChars(lines[i]);
    }
  }

  lemma {:induction false} TotalPrefix(lx: Lexer, lines: seq<string>, i: nat)
    requires i <= |lines|
    ensures Total(lx, lines[..i]).plus <= Total(lx, lines).plus
    ensures Attributed(lx, true, "", lines[..i]) <= Attributed(lx, true, "", lines)
    ensures Attributed(lx, false, "", lines[..i]) <= Attributed(lx, false, "", lines)
  {
    if i == |lines| {
      assert lines[..i] == lines;
    } else {
      TotalPrefix(lx, lines[..|lines| - 1], i);
      assert lines[..|lines| - 1][..i] == lines[..i];
    }
  }

  /** The file the line at `i` is in: the one named last, above it or by it, by a
      "+++ b/" line or by a "diff --git" line, and none before the first. */
  lemma {:induction false} CurrentFileIs(lx: Lexer, lines: seq<string>, i: nat)
    requires i <= |lines|
    requires forall k :: i <= k < |lines| ==> !("+++ b/" <= lines[k]) && !("diff --git " <= lines[k] && lx.gitPath(lines[k]).Some?)
    ensures i == 0 ==> CurrentFile(lx, "", lines) == ""
    ensures i > 0 && "+++ b/" <= lines[i - 1] ==> CurrentFile(lx, "", lines) == lines[i - 1][6..]
    ensures i > 0 && !("+++ b/" <= lines[i - 1]) && "diff --git " <= lines[i - 1] && lx.gitPath(lines[i - 1]).Some? ==>
              CurrentFile(lx, "", lines) == lx.gitPath(lines[i - 1]).value
  {
    if i < |lines| { CurrentFileIs(lx, lines[..|lines| - 1], i); }
  }

  /** Each added line is listed, without its mark, behind those added above it, and
      once more with the test lines or with the source lines, by the file it is in. */
  lemma {:induction false} AddedLine(lx: Lexer, diff: string, i: nat)
    requires i < |SplitLines(diff)| && SplitLines(diff)[i] != "" && SplitLines(diff)[i][0] == '+' && !("+++" <= SplitLines(diff)[i])
    ensures var s, lines := Analysis(lx, diff), SplitLines(diff);
            var above, text := StatsOf(lx, 0, lines[..i]), lines[i][1..];
            var test := lx.mentionsTest(CurrentFile(lx, "", lines[..i]));
            && above.plusLines + [text] <= s.plusLines
            && (if test then above.plusLinesTest + [text] else above.plusLinesTest) <= s.plusLinesTest
            && (if test then above.plusLinesSource else above.plusLinesSource + [text]) <= s.plusLinesSource
  {
    hide SplitLines, IsMinus, Bytes, IsGitHeader;
    var lines := SplitLines(diff);
    PlusChars(lines[i]);
    TotalPrefix(lx, lines, i + 1);
    assert lines[..i + 1] == lines[..i] + [lines[i]];
    AddLineIsStats(lx, 0, lines[..i], lines[i]);
    PlusNamesNone(lx, lines[i]);
  }

  /** Nothing else is listed, and every listed line is with one of the two. */
  lemma {:induction false} ListedLines(lx: Lexer, diff: string)
    ensures var s := Analysis(lx, diff);
            |s.plusLinesTest| + |s.plusLinesSource| == |s.plusLines|
  {
    AttributedLengths(lx, SplitLines(diff));
  }

  lemma {:induction false} AttributedLengths(lx: Lexer, lines: seq<string>)
    ensures |Attributed(lx, true, "", lines)| + |Attributed(lx, false, "", lines)| == |Total(lx, lines).plus|
  {
    if lines != [] { AttributedLengths(lx, lines[..|lines| - 1]); }
  }

  // ---------------------------------------------- statistics and minimisation

  lemma {:induction false} TotalAppend(lx: Lexer, a: seq<string>, b: seq<string>)
    ensures Total(lx, a + b) == Both(Total(lx, a), Total(lx, b))
  {
    hide Both, LocalOf;
    if b == [] {
      assert a + b == a;
      NothingBoth(Total(lx, a));
    } else {
      var front := b[..|b| - 1];
      TotalAppend(lx, a, front);
      assert (a + b)[..|a + b| - 1] == a + front;
      BothAssociates(Total(lx, a), Total(lx, front), LocalOf(lx, b[|b| - 1]));
    }
  }

  lemma BothAssociates(a: Local, b: Local, c: Local)
    ensures Both(Both(a, b), c) == Both(a, Both(b, c))
  {
  }

  lemma NothingBoth(a: Local)
    ensures Both(a, NOTHING) == a
  {
    assert a.plus + [] == a.plus && a.files + {} == a.files;
  }

  /** `a` counts the same changes as `b`, and no more files. */
  predicate Trims(a: Local, b: Local) {
    a.plus == b.plus && a.deleted == b.deleted && a.deletedTest == b.deletedTest
    && a.newFiles <= b.newFiles && a.files <= b.files
  }

  lemma {:induction false} UnchangedTotal(lx: Lexer, lines: seq<string>)
    requires !HasChange(lines)
    ensures Total(lx, lines).plus == [] && Total(lx, lines).deleted == 0 && Total(lx, lines).deletedTest == 0
  {
    if lines != [] {
      var n := |lines| - 1;
      assert !IsChange(lines[n]);
      assert forall i :: 0 <= i < n ==> lines[..n][i] == lines[i];
      UnchangedTotal(lx, lines[..n]);
    }
  }

  lemma TrimsBoth(hunk: Local, a: Local, b: Local)
    requires Trims(a, b)
    ensures Trims(Both(hunk, a), Both(hunk, b))
    ensures hunk.plus == [] && hunk.deleted == 0 && hunk.deletedTest == 0 ==> Trims(a, Both(hunk, b))
  {
    assert [] + b.plus == b.plus;
  }

  lemma {:induction false} KeptTrims(lx: Lexer, lines: seq<string>)
    ensures Trims(Total(lx, Kept(lines)), Total(lx, lines))
    decreases |lines|
  {
    if lines != [] {
      var header := IsHunkHeader(lines[0]);
      var head := if header then FirstHunk(lines) else [lines[0]];
      var rest := if header then AfterHunk(lines) else lines[1..];
      KeptSplit(lines, head, rest);
      KeptTrims(lx, rest);
      TotalAppend(lx, head, rest);
      TotalAppend(lx, head, Kept(rest));
      TrimsBoth(Total(lx, head), Total(lx, Kept(rest)), Total(lx, rest));
      if header && !HasChange(head) { UnchangedTotal(lx, head); }
      hide Total, HasChange, Kept, IsHunkHeader;
    }
  }

  lemma BlankTotal(lx: Lexer, lines: seq<string>)
    ensures Total(lx, lines + [""]) == Total(lx, lines)
    ensures Attributed(lx, true, "", lines + [""]) == Attributed(lx, true, "", lines)
    ensures Attributed(lx, false, "", lines + [""]) == Attributed(lx, false, "", lines)
  {
    assert (lines + [""])[..|lines|] == lines;
    var t := Total(lx, lines);
    assert LocalOf(lx, "") == NOTHING && t.plus + [] == t.plus && t.files + {} == t.files;
  }

  /** The split of the minimised text counts as the lines kept do. */
  lemma {:induction false} ResplitStats(lx: Lexer, size: nat, out: seq<string>, newline: bool)
    ensures StatsOf(lx, size, Resplit(out, newline)) == StatsOf(lx, size, out)
  {
    if out == [] {
      BlankTotal(lx, []);
      assert [] + [""] == [""];
    } else if out[|out| - 1] == "" {
      assert out == out[..|out| - 1] + [""];
      BlankTotal(lx, out[..|out| - 1]);
    }
  }

  lemma {:induction false} MinimizedStats(lx: Lexer, diff: string)
    requires diff != ""
    ensures Analysis(lx, Minimized(diff)) == StatsOf(lx, Bytes(Minimized(diff)), Kept(SplitLines(diff)))
  {
    SplitMinimized(diff);
    ResplitStats(lx, Bytes(Minimized(diff)), Kept(SplitLines(diff)), EndsWithNewline(diff));
  }

  /** Minimising a diff keeps its added and deleted lines exactly, and never lets
      its size, the files it touches or its new files grow. */
  lemma MinimizePreservesAnalysis(lx: Lexer, diff: string)
    ensures var a, b := Analysis(lx, Minimized(diff)), Analysis(lx, diff);
            && a.plusLines == b.plusLines && a.addedLines == b.addedLines
            && a.deletedLines == b.deletedLines && a.deletedTestLines == b.deletedTestLines
            && a.sizeBytes <= b.sizeBytes && a.filesTouched <= b.filesTouched && a.newFiles <= b.newFiles
  {
    if diff != "" {
      MinimizedStats(lx, diff);
      KeptTrims(lx, SplitLines(diff));
      MinimizeShrinks(diff);
    }
  }

  // --------------------------------------------------------------- attribution

  /** No hunk that is dropped contains a line that makes a file current. */
  predicate DroppedSetNoFile(lx: Lexer, lines: seq<string>)
    decreases |lines|
  {
    lines == [] ||
    if !IsHunkHeader(lines[0]) then DroppedSetNoFile(lx, lines[1..])
    else
      (HasChange(FirstHunk(lines)) || forall i :: 0 <= i < |FirstHunk(lines)| ==> Sets(lx, FirstHunk(lines)[i]).None?)
      && DroppedSetNoFile(lx, AfterHunk(lines))
  }

  lemma {:induction false} AttributedAppend(lx: Lexer, test: bool, from: string, a: seq<string>, b: seq<string>)
    ensures CurrentFile(lx, from, a + b) == CurrentFile(lx, CurrentFile(lx, from, a), b)
    ensures Attributed(lx, test, from, a + b) ==
            Attributed(lx, test, from, a) + Attributed(lx, test, CurrentFile(lx, from, a), b)
  {
    if b == [] {
      assert a + b == a;
    } else {
      var front := b[..|b| - 1];
      AttributedAppend(lx, test, from, a, front);
      assert (a + b)[..|a + b| - 1] == a + front;
    }
  }

  lemma {:induction false} QuietHunk(lx: Lexer, test: bool, from: string, lines: seq<string>)
    requires !HasChange(lines) && forall i :: 0 <= i < |lines| ==> Sets(lx, lines[i]).None?
    ensures CurrentFile(lx, from, lines) == from && Attributed(lx, test, from, lines) == []
  {
    if lines != [] {
      var n := |lines| - 1;
      assert !IsChange(lines[n]);
      assert forall i :: 0 <= i < n ==> lines[..n][i] == lines[i];
      QuietHunk(lx, test, from, lines[..n]);
    }
  }

  lemma {:induction false} KeptAttributed(lx: Lexer, test: bool, from: string, lines: seq<string>)
    requires DroppedSetNoFile(lx, lines)
    ensures Attributed(lx, test, from, Kept(lines)) == Attributed(lx, test, from, lines)
    decreases |lines|
  {
    if lines != [] {
      var header := IsHunkHeader(lines[0]);
      var head := if header then FirstHunk(lines) else [lines[0]];
      var rest := if header then AfterHunk(lines) else lines[1..];
      KeptSplit(lines, head, rest);
      KeptAttributed(lx, test, CurrentFile(lx, from, head), rest);
      AttributedAppend(lx, test, from, head, rest);
      AttributedAppend(lx, test, from, head, Kept(rest));
      if header && !HasChange(head) { QuietHunk(lx, test, from, head); }
      hide Attributed, CurrentFile, HasChange, Kept, IsHunkHeader;
    }
  }

  /** The first line or hunk, and what becomes of it. */
  lemma KeptSplit(lines: seq<string>, head: seq<string>, rest: seq<string>)
    requires lines != []
    requires head == if IsHunkHeader(lines[0]) then FirstHunk(lines) else [lines[0]]
    requires rest == if IsHunkHeader(lines[0]) then AfterHunk(lines) else lines[1..]
    ensures lines == head + rest
    ensures Kept(lines) == if IsHunkHeader(lines[0]) && !HasChange(head) then Kept(rest) else head + Kept(rest)
  {
    if IsHunkHeader(lines[0]) { HunkParts(lines); }
    assert [] + Kept(rest) == Kept(rest);
  }

  /** If no dropped hunk names a file, each added line also stays attributed to a
      test file or to a source file as before. */
  lemma MinimizePreservesAttribution(lx: Lexer, diff: string)
    requires DroppedSetNoFile(lx, SplitLines(diff))
    ensures var a, b := Analysis(lx, Minimized(diff)), Analysis(lx, diff);
            a.plusLinesTest == b.plusLinesTest && a.plusLinesSource == b.plusLinesSource
  {
    if diff != "" {
      MinimizedStats(lx, diff);
      KeptAttributed(lx, true, "", SplitLines(diff));
      KeptAttributed(lx, false, "", SplitLines(diff));
    }
  }

  /** Of each added line, whether it belongs to a test file. */
  function Flags(lx: Lexer, from: string, lines: seq<string>): seq<bool> {
    if lines == [] then []
    else
      var last := lines[|lines| - 1];
      Flags(lx, from, lines[..|lines| - 1]) + (if IsPlus(last) then [lx.mentionsTest(CurrentFile(lx, from, lines))] else [])
  }

  /** The lines whose flag is `test`. */
  function Picked(plus: seq<string>, flags: seq<bool>, test: bool): seq<string>
    requires |plus| == |flags|
  {
    if plus == [] then []
    else
      var n := |plus| - 1;
      Picked(plus[..n], flags[..n], test) + (if flags[n] == test then [plus[n]] else [])
  }

  /** The two lists of attributed lines are the added lines sorted by flag. */
  lemma {:induction false} AttributedByFlag(lx: Lexer, test: bool, from: string, lines: seq<string>)
    ensures |Flags(lx, from, lines)| == |Total(lx, lines).plus|
    ensures Attributed(lx, test, from, lines) == Picked(Total(lx, lines).plus, Flags(lx, from, lines), test)
  {
    if lines != [] {
      var n := |lines| - 1;
      var front, last := lines[..n], lines[n];
      AttributedByFlag(lx, test, from, front);
      var plus, flags := Total(lx, front).plus, Flags(lx, from, front);
      if IsPlus(last) {
        var flag := lx.mentionsTest(CurrentFile(lx, from, lines));
        assert (plus + [last[1..]])[..|plus|] == plus && (flags + [flag])[..|plus|] == flags;
      } else {
        assert plus + [] == plus && flags + [] == flags;
      }
    }
  }

  lemma {:induction false} FlagsAppend(lx: Lexer, from: string, a: seq<string>, b: seq<string>)
    ensures Flags(lx, from, a + b) == Flags(lx, from, a) + Flags(lx, CurrentFile(lx, from, a), b)
  {
    if b == [] {
      assert a + b == a;
    } else {
      var front := b[..|b| - 1];
      FlagsAppend(lx, from, a, front);
      AttributedAppend(lx, true, from, a, b);
      assert (a + b)[..|a + b| - 1] == a + front;
      hide Attributed, CurrentFile;
    }
  }

  /** The lines add a line before they name any file. */
  ghost predicate AddsEarly(lx: Lexer, lines: seq<string>) {
    exists j :: 0 <= j < |lines| && IsPlus(lines[j]) && NamesNone(lx, lines[..j])
  }

  predicate NamesNone(lx: Lexer, lines: seq<string>) {
    forall i :: 0 <= i < |lines| ==> Sets(lx, lines[i]).None?
  }

  /** Where lines name a file, it does not matter which file was current before. */
  lemma {:induction false} CurrentAfter(lx: Lexer, here: string, there: string, lines: seq<string>)
    ensures if NamesNone(lx, lines) then CurrentFile(lx, here, lines) == here && CurrentFile(lx, there, lines) == there
            else CurrentFile(lx, here, lines) == CurrentFile(lx, there, lines)
  {
    if lines != [] {
      var n := |lines| - 1;
      CurrentAfter(lx, here, there, lines[..n]);
      assert lines == lines[..n] + [lines[n]];
    }
  }

  lemma PlusNamesNone(lx: Lexer, line: string)
    requires IsPlus(line)
    ensures Sets(lx, line).None?
  {
    assert "+++ b/"[..3] == "+++" && "diff --git "[0] == 'd' && "+"[0] == '+';
    assert |line| >= 6 ==> line[..6][..3] == line[..3];
  }

  lemma AddsEarlyStep(lx: Lexer, lines: seq<string>)
    requires lines != []
    ensures var n := |lines| - 1;
            AddsEarly(lx, lines) <==> AddsEarly(lx, lines[..n]) || (IsPlus(lines[n]) && NamesNone(lx, lines[..n]))
  {
    hide IsPlus, NamesNone;
    var n := |lines| - 1;
    assert forall j :: 0 <= j < n ==> lines[..n][..j] == lines[..j] && lines[..n][j] == lines[j];
    if AddsEarly(lx, lines[..n]) {
      var j :| 0 <= j < n && IsPlus(lines[..n][j]) && NamesNone(lx, lines[..n][..j]);
      assert IsPlus(lines[j]) && NamesNone(lx, lines[..j]);
    }
    if AddsEarly(lx, lines) {
      var j :| 0 <= j < |lines| && IsPlus(lines[j]) && NamesNone(lx, lines[..j]);
      if j < n { assert IsPlus(lines[..n][j]) && NamesNone(lx, lines[..n][..j]); }
    }
  }

  /** The lines are flagged alike after two different files exactly when both are
      test files or neither, or no line is added before a file is named. */
  lemma {:induction false} FlagsAlike(lx: Lexer, here: string, there: string, lines: seq<string>)
    ensures |Flags(lx, here, lines)| == |Flags(lx, there, lines)|
    ensures Flags(lx, here, lines) == Flags(lx, there, lines) <==>
            (AddsEarly(lx, lines) ==> lx.mentionsTest(here) == lx.mentionsTest(there))
  {
    if lines != [] {
      var n := |lines| - 1;
      var front, last := lines[..n], lines[n];
      var a, b := Flags(lx, here, front), Flags(lx, there, front);
      FlagsAlike(lx, here, there, front);
      CurrentAfter(lx, here, there, lines);
      CurrentAfter(lx, here, there, front);
      AddsEarlyStep(lx, lines);
      if IsPlus(last) {
        PlusNamesNone(lx, last);
        assert NamesNone(lx, lines) <==> NamesNone(lx, front) by { assert lines == front + [last]; }
        var f, g := lx.mentionsTest(CurrentFile(lx, here, lines)), lx.mentionsTest(CurrentFile(lx, there, lines));
        SameEnds(a, b, [f], [g]);
      } else {
        assert a + [] == a && b + [] == b;
      }
    }
  }

  lemma SameEnds<T>(a: seq<T>, b: seq<T>, c: seq<T>, d: seq<T>)
    requires |a| == |b|
    ensures a + c == b + d <==> a == b && c == d
  {
    if a + c == b + d {
      assert a == (a + c)[..|a|] == (b + d)[..|b|] == b;
      assert c == (a + c)[|a|..] == (b + d)[|b|..] == d;
    }
  }

  lemma {:induction false} UnchangedFlags(lx: Lexer, from: string, lines: seq<string>)
    requires !HasChange(lines)
    ensures Flags(lx, from, lines) == [] && !AddsEarly(lx, lines)
  {
    if lines != [] {
      var n := |lines| - 1;
      assert !IsChange(lines[n]);
      assert forall i :: 0 <= i < n ==> lines[..n][i] == lines[i];
      UnchangedFlags(lx, from, lines[..n]);
      AddsEarlyStep(lx, lines);
    }
  }

  /** The file current before the i-th hunk of the diff, and before what is left
      of it in the minimised diff. */
  function FileBefore(lx: Lexer, from: string, hunks: seq<seq<string>>): string { CurrentFile(lx, from, Flatten(hunks)) }

  function FileKeptBefore(lx: Lexer, from: string, hunks: seq<seq<string>>): string { FileBefore(lx, from, Changed(hunks)) }

  /** The i-th hunk adds no line before it names a file, or the two files current
      before it are both test files or neither. */
  ghost predicate SideKept(lx: Lexer, from: string, hunks: seq<seq<string>>, i: nat)
    requires i < |hunks|
  {
    AddsEarly(lx, hunks[i]) ==>
      lx.mentionsTest(FileBefore(lx, from, hunks[..i])) == lx.mentionsTest(FileKeptBefore(lx, from, hunks[..i]))
  }

  lemma {:induction false} HunkFlags(lx: Lexer, from: string, hunks: seq<seq<string>>)
    ensures |Flags(lx, from, Flatten(Changed(hunks)))| == |Flags(lx, from, Flatten(hunks))|
    ensures Flags(lx, from, Flatten(Changed(hunks))) == Flags(lx, from, Flatten(hunks)) <==>
            forall i :: 0 <= i < |hunks| ==> SideKept(lx, from, hunks, i)
  {
    if hunks != [] {
      var n := |hunks| - 1;
      var front, last := hunks[..n], hunks[n];
      assert hunks == front + [last];
      HunkFlags(lx, from, front);
      FlattenLast(front, last);
      FlagsAppend(lx, from, Flatten(front), last);
      forall i | 0 <= i < n
        ensures SideKept(lx, from, hunks, i) <==> SideKept(lx, from, front, i)
      {
        assert front[..i] == hunks[..i] && front[i] == hunks[i];
      }
      LastHunkFlags(lx, from, front, last);
      hide Flags, Flatten, Changed, HasChange, AddsEarly, FileBefore, FileKeptBefore, SideKept;
    }
  }

  lemma LastHunkFlags(lx: Lexer, from: string, front: seq<seq<string>>, last: seq<string>)
    requires |Flags(lx, from, Flatten(Changed(front)))| == |Flags(lx, from, Flatten(front))|
    ensures var hunks := front + [last];
            var a, b := Flags(lx, from, Flatten(Changed(hunks))), Flags(lx, from, Flatten(hunks));
            |a| == |b| && (a == b <==> Flags(lx, from, Flatten(Changed(front))) == Flags(lx, from, Flatten(front))
                                       && SideKept(lx, from, hunks, |front|))
  {
    var hunks := front + [last];
    var here, there := FileBefore(lx, from, front), FileKeptBefore(lx, from, front);
    assert hunks[..|front|] == front;
    FlattenLast(front, last);
    FlagsAppend(lx, from, Flatten(front), last);
    var a, b := Flags(lx, from, Flatten(Changed(front))), Flags(lx, from, Flatten(front));
    if HasChange(last) {
      FlattenLast(Changed(front), last);
      FlagsAppend(lx, from, Flatten(Changed(front)), last);
      FlagsAlike(lx, there, here, last);
      SameEnds(a, b, Flags(lx, there, last), Flags(lx, here, last));
    } else {
      UnchangedFlags(lx, here, last);
      assert Changed(front) + [] == Changed(front) && b + [] == b;
    }
    hide Flags, Flatten, Changed, HasChange, AddsEarly;
  }

  /** Each added line stays with the test files, or with the others, exactly when
      every hunk that adds a line before it names a file finds a file of the same
      side current in the minimised diff as in the diff. */
  lemma {:induction false} AttributionKept(lx: Lexer, diff: string)
    ensures var lines := SplitLines(diff);
            var from := CurrentFile(lx, "", Body(lines));
            Flags(lx, "", SplitLines(Minimized(diff))) == Flags(lx, "", lines) <==>
            forall i :: 0 <= i < |Hunks(lines)| ==> SideKept(lx, from, Hunks(lines), i)
  {
    var lines := SplitLines(diff);
    var lead, hunks := Body(lines), Hunks(lines);
    LeadAndHunks(lines);
    KeepsChangedHunks(lead, hunks);
    FlagsAppend(lx, "", lead, Flatten(hunks));
    FlagsAppend(lx, "", lead, Flatten(Changed(hunks)));
    HunkFlags(lx, CurrentFile(lx, "", lead), hunks);
    var before := Flags(lx, "", lead);
    SameEnds(before, before, Flags(lx, CurrentFile(lx, "", lead), Flatten(Changed(hunks))),
             Flags(lx, CurrentFile(lx, "", lead), Flatten(hunks)));
    hide SideKept, Flatten, Changed, Hunks, Body, CurrentFile, Flags;
    if diff != "" {
      SplitMinimized(diff);
      ResplitFlags(lx, Kept(lines), EndsWithNewline(diff));
    }
  }

  lemma {:induction false} ResplitFlags(lx: Lexer, out: seq<string>, newline: bool)
    ensures Flags(lx, "", Resplit(out, newline)) == Flags(lx, "", out)
  {
    if out == [] {
      assert [""][..0] == [];
    } else if out[|out| - 1] == "" {
      assert !IsPlus("");
    }
  }

  /** Then both lists of attributed lines are the same as before. */
  lemma {:induction false} AttributionKeptLists(lx: Lexer, diff: string)
    requires var lines := SplitLines(diff);
             forall i :: 0 <= i < |Hunks(lines)| ==> SideKept(lx, CurrentFile(lx, "", Body(lines)), Hunks(lines), i)
    ensures var a, b := Analysis(lx, Minimized(diff)), Analysis(lx, diff);
            a.plusLinesTest == b.plusLinesTest && a.plusLinesSource == b.plusLinesSource
  {
    hide Flags, Attributed, Total, SideKept, Hunks, Body, CurrentFile, Picked, SplitLines, Minimized;
    AttributionKept(lx, diff);
    MinimizePreservesAnalysis(lx, diff);
    forall test | test in {true, false}
      ensures Attributed(lx, test, "", SplitLines(Minimized(diff))) == Attributed(lx, test, "", SplitLines(diff))
    {
      AttributedByFlag(lx, test, "", SplitLines(Minimized(diff)));
      AttributedByFlag(lx, test, "", SplitLines(diff));
    }
    assert true in {true, false} && false in {true, false};
  }

  /** Lines that name no file all go where the current file goes. */
  lemma {:induction false} OneFileAttributed(lx: Lexer, test: bool, from: string, lines: seq<string>)
    requires forall i :: 0 <= i < |lines| ==> Sets(lx, lines[i]).None?
    ensures CurrentFile(lx, from, lines) == from
    ensures Attributed(lx, test, from, lines) == if lx.mentionsTest(from) == test then Total(lx, lines).plus else []
  {
    if lines != [] {
      var n := |lines| - 1;
      assert forall i :: 0 <= i < n ==> lines[..n][i] == lines[i];
      OneFileAttributed(lx, test, from, lines[..n]);
    }
  }

  lemma {:induction false} KeptLead(lead: seq<string>, rest: seq<string>)
    requires forall i :: 0 <= i < |lead| ==> !IsHunkHeader(lead[i])
    ensures Kept(lead + rest) == lead + Kept(rest)
  {
    hide HasChange, FirstHunk, AfterHunk;
    if lead == [] {
      assert [] + rest == rest && [] + Kept(rest) == Kept(rest);
    } else {
      KeptLead(lead[1..], rest);
      assert (lead + rest)[1..] == lead[1..] + rest;
    }
  }

  lemma {:induction false} KeepsSecondHunk(lead: seq<string>, a: seq<string>, b: seq<string>)
    requires forall i :: 0 <= i < |lead| ==> !IsHunkHeader(lead[i])
    requires IsHunk(a) && IsHunk(b) && !HasChange(a) && HasChange(b)
    ensures Kept(lead + (a + b)) == lead + b
  {
    hide HasChange, FirstHunk, AfterHunk;
    KeptLead(lead, a + b);
    HunkFirst(a, b);
    KeptSplit(a + b, a, b);
    HunkFirst(b, []);
    assert b + [] == b;
    KeptSplit(b, b, []);
  }

  /** A hunk without changes swallows the header lines of the file that follows
      it, so dropping it hands that file's added lines to the file before. They
      stay attributed as they were exactly when both are test files or neither. */
  lemma {:induction false} DroppedHunkMovesLines(lx: Lexer, lead: seq<string>, a: seq<string>, b: seq<string>)
    requires forall i :: 0 <= i < |lead| ==> !IsHunkHeader(lead[i])
    requires IsHunk(a) && IsHunk(b) && !HasChange(a) && Total(lx, b).plus != []
    requires forall i :: 0 <= i < |b| ==> Sets(lx, b[i]).None?
    ensures Attributed(lx, true, "", Kept(lead + (a + b))) == Attributed(lx, true, "", lead + (a + b)) <==>
            lx.mentionsTest(CurrentFile(lx, "", lead)) == lx.mentionsTest(CurrentFile(lx, "", lead + a))
  {
    if !HasChange(b) { UnchangedTotal(lx, b); }
    KeepsSecondHunk(lead, a, b);
    assert lead + (a + b) == lead + a + b;
    TwoHunkAttribution(lx, lead, a, b);
  }

  lemma {:induction false} TwoHunkAttribution(lx: Lexer, lead: seq<string>, a: seq<string>, b: seq<string>)
    requires !HasChange(a) && Total(lx, b).plus != []
    requires forall i :: 0 <= i < |b| ==> Sets(lx, b[i]).None?
    ensures Attributed(lx, true, "", lead + b) == Attributed(lx, true, "", lead + a + b) <==>
            lx.mentionsTest(CurrentFile(lx, "", lead)) == lx.mentionsTest(CurrentFile(lx, "", lead + a))
  {
    var before, after := CurrentFile(lx, "", lead), CurrentFile(lx, "", lead + a);
    var ours, plus := Attributed(lx, true, "", lead), Total(lx, b).plus;
    AttributedAppend(lx, true, "", lead, b);
    AttributedAppend(lx, true, "", lead, a);
    AttributedAppend(lx, true, "", lead + a, b);
    UnchangedAttributed(lx, true, before, a);
    OneFileAttributed(lx, true, before, b);
    OneFileAttributed(lx, true, after, b);
    hide Attributed, CurrentFile, Total, HasChange, Sets;
    assert ours + [] == ours;
    assert |ours + plus| != |ours|;
  }

  lemma {:induction false} UnchangedAttributed(lx: Lexer, test: bool, from: string, lines: seq<string>)
    requires !HasChange(lines)
    ensures Attributed(lx, test, from, lines) == []
  {
    if lines != [] {
      var n := |lines| - 1;
      assert !IsChange(lines[n]);
      assert forall i :: 0 <= i < n ==> lines[..n][i] == lines[i];
      UnchangedAttributed(lx, test, from, lines[..n]);
    }
  }

  /** It does happen: here a line added to a test file is counted as source. */
  lemma DroppedHunkExample(lx: Lexer)
    requires lx.mentionsTest("test_b.py") && !lx.mentionsTest("a.py")
    ensures var lines := ["+++ b/a.py"] + (["@@ one", "+++ b/test_b.py"] + ["@@ two", "+new"]);
            Attributed(lx, true, "", Kept(lines)) != Attributed(lx, true, "", lines)
  {
    var lead, a, b := ["+++ b/a.py"], ["@@ one", "+++ b/test_b.py"], ["@@ two", "+new"];
    ExampleLines(lx);
    ExampleHunks(lx);
    assert lead[..0] == [] && (lead + a)[..2][..1] == lead && (lead + a)[..2] == ["+++ b/a.py", "@@ one"];
    DroppedHunkMovesLines(lx, lead, a, b);
  }

  lemma ExampleLines(lx: Lexer)
    ensures !IsHunkHeader("+++ b/a.py") && Sets(lx, "+++ b/a.py") == Some("a.py")
    ensures Sets(lx, "+++ b/test_b.py") == Some("test_b.py")
    ensures Sets(lx, "@@ two").None? && Sets(lx, "+new").None?
  {
    assert "@@ two"[0] == '@' && "+new"[0] == '+' && "+new"[1] == 'n' && "+++ b/"[1] == '+' && "+++ b/"[0] == '+';
    assert "+++ b/a.py"[0] == '+' && "@@"[0] == '@' && "diff --git "[0] == 'd';
    assert "+++ b/a.py"[..6] == "+++ b/" && "+++ b/test_b.py"[..6] == "+++ b/";
  }

  lemma ExampleHunks(lx: Lexer)
    ensures IsHunk(["@@ one", "+++ b/test_b.py"]) && !HasChange(["@@ one", "+++ b/test_b.py"])
    ensures IsHunk(["@@ two", "+new"]) && Total(lx, ["@@ two", "+new"]).plus == ["new"]
  {
    ExampleHeaders();
    ExampleTotal(lx);
  }

  lemma ExampleHeaders()
    ensures IsHunk(["@@ one", "+++ b/test_b.py"]) && !HasChange(["@@ one", "+++ b/test_b.py"])
    ensures IsHunk(["@@ two", "+new"])
  {
    assert "@@ one"[..2] == "@@" && "@@ two"[..2] == "@@" && "@@ one"[0] == '@';
    assert "+new"[0] == '+' && "@@"[0] == '@' && "+++ b/test_b.py"[0] == '+' && "+++ b/test_b.py"[..3] == "+++";
  }

  lemma ExampleTotal(lx: Lexer)
    ensures Total(lx, ["@@ two", "+new"]).plus == ["new"]
  {
    PlusLine(lx);
    hide LocalOf;
    var a, b := ["@@ two"], ["@@ two", "+new"];
    assert a[..0] == [] && b[..1] == a;
    assert Total(lx, a) == Both(NOTHING, LocalOf(lx, "@@ two"));
    assert Total(lx, b) == Both(Total(lx, a), LocalOf(lx, "+new"));
  }

  lemma PlusLine(lx: Lexer)
    ensures LocalOf(lx, "+new").plus == ["new"] && LocalOf(lx, "@@ two").plus == []
  {
    assert "+new"[..1] == "+" && "+new"[1] == 'n' && "+++"[1] == '+' && "@@ two"[0] == '@';
    assert IsPlus("+new") && "+new"[1..] == "new";
  }

  // ------------------------------------------------------------------ the gate

  /** Limits of the call and of the loaded policy; a limit of 0 on added or
      deleted lines means none. The banned patterns are predicates on text. */
  datatype Gate = Gate(maxBytes: int, maxFiles: int, maxNewFiles: int, maxAdded: int, maxDeleted: int,
                       blockedPath: string -> bool, bannedCode: string -> bool, bannedTestCode: string -> bool)

  const MAX_DELETED_TEST_LINES := 50

  datatype Reason = TooLarge | TooManyFiles | TooManyNewFiles | BlockedPath | TooManyAdded | TooManyDeleted
                  | BannedCode | BannedTestCode | LargeTestDeletion

  /** What the gate lets through. */
  predicate Allows(g: Gate, s: Stats) {
    && s.sizeBytes <= g.maxBytes && |s.filesTouched| <= g.maxFiles && s.newFiles <= g.maxNewFiles
    && (forall f :: f in s.filesTouched ==> !g.blockedPath(f))
    && (g.maxAdded != 0 ==> s.addedLines <= g.maxAdded) && (g.maxDeleted != 0 ==> s.deletedLines <= g.maxDeleted)
    && !g.bannedCode(Join(s.plusLines))
    && (s.plusLinesTest != [] ==> !g.bannedTestCode(Join(s.plusLinesTest)))
    && s.deletedTestLines <= MAX_DELETED_TEST_LINES
  }

  predicate Allowed(lx: Lexer, g: Gate, diff: string) { Allows(g, Analysis(lx, diff)) }

  /** The checks of sizes and paths. */
  method SizeReasons(g: Gate, s: Stats) returns (reasons: seq<Reason>)
    ensures TooLarge in reasons <==> s.sizeBytes > g.maxBytes
    ensures TooManyFiles in reasons <==> |s.filesTouched| > g.maxFiles
    ensures TooManyNewFiles in reasons <==> s.newFiles > g.maxNewFiles
    ensures BlockedPath in reasons <==> exists f :: f in s.filesTouched && g.blockedPath(f)
    ensures forall r :: r in reasons ==> r in {TooLarge, TooManyFiles, TooManyNewFiles, BlockedPath}
  {
    reasons := [];
    if s.sizeBytes > g.maxBytes { reasons := reasons + [TooLarge]; }
    if |s.filesTouched| > g.maxFiles { reasons := reasons + [TooManyFiles]; }
    if s.newFiles > g.maxNewFiles { reasons := reasons + [TooManyNewFiles]; }
    if exists f :: f in s.filesTouched && g.blockedPath(f) { reasons := reasons + [BlockedPath]; }
  }

  /** The checks of changed lines. */
  method LineReasons(g: Gate, s: Stats) returns (reasons: seq<Reason>)
    ensures TooManyAdded in reasons <==> g.maxAdded != 0 && s.addedLines > g.maxAdded
    ensures TooManyDeleted in reasons <==> g.maxDeleted != 0 && s.deletedLines > g.maxDeleted
    ensures BannedCode in reasons <==> g.bannedCode(Join(s.plusLines))
    ensures BannedTestCode in reasons <==> s.plusLinesTest != [] && g.bannedTestCode(Join(s.plusLinesTest))
    ensures LargeTestDeletion in reasons <==> s.deletedTestLines > 50
    ensures forall r :: r in reasons ==> r in {TooManyAdded, TooManyDeleted, BannedCode, BannedTestCode, LargeTestDeletion}
  {
    hide Join;
    reasons := [];
    if g.maxAdded != 0 && s.addedLines > g.maxAdded { reasons := reasons + [TooManyAdded]; }
    if g.maxDeleted != 0 && s.deletedLines > g.maxDeleted { reasons := reasons + [TooManyDeleted]; }
    if g.bannedCode(Join(s.plusLines)) { reasons := reasons + [BannedCode]; }
    if s.plusLinesTest != [] && g.bannedTestCode(Join(s.plusLinesTest)) { reasons := reasons + [BannedTestCode]; }
    if s.deletedTestLines > MAX_DELETED_TEST_LINES { reasons := reasons + [LargeTestDeletion]; }
  }

  /** Each check appends its reason; the decision is ALLOW when there is none. */
  method PatchRiskGate(lx: Lexer, g: Gate, diff: string) returns (allow: bool, reasons: seq<Reason>)
    ensures allow <==> reasons == []
    ensures allow <==> Allowed(lx, g, diff)
    // Each reason is given exactly when its own limit is broken.
    ensures var s := Analysis(lx, diff);
            && (TooLarge in reasons <==> s.sizeBytes > g.maxBytes)
            && (TooManyFiles in reasons <==> |s.filesTouched| > g.maxFiles)
            && (TooManyNewFiles in reasons <==> s.newFiles > g.maxNewFiles)
            && (BlockedPath in reasons <==> exists f :: f in s.filesTouched && g.blockedPath(f))
            && (TooManyAdded in reasons <==> g.maxAdded != 0 && s.addedLines > g.maxAdded)
            && (TooManyDeleted in reasons <==> g.maxDeleted != 0 && s.deletedLines > g.maxDeleted)
            && (BannedCode in reasons <==> g.bannedCode(Join(s.plusLines)))
            && (BannedTestCode in reasons <==> s.plusLinesTest != [] && g.bannedTestCode(Join(s.plusLinesTest)))
            && (LargeTestDeletion in reasons <==> s.deletedTestLines > 50)
  {
    hide Analysis, Join;
    var s := DiffAnalysis(lx, diff);
    var sizes := SizeReasons(g, s);
    var lines := LineReasons(g, s);
    reasons := sizes + lines;
    allow := reasons == [];
    if !allow { assert reasons[0] in reasons; }
  }

  /** On the lines of a diff: no file it names is blocked, it names no more files,
      begins no more new ones, adds and deletes no more lines and no more lines of
      tests than the limits allow, and what it adds matches no banned pattern. */
  ghost predicate KeepsLimits(lx: Lexer, g: Gate, diff: string) {
    var s, lines := Analysis(lx, diff), SplitLines(diff);
    && Bytes(diff) <= g.maxBytes
    && (forall i :: 0 <= i < |lines| && "diff --git " <= lines[i] && lx.gitPath(lines[i]).Some? ==>
          !g.blockedPath(lx.gitPath(lines[i]).value))
    && |set i | 0 <= i < |lines| && "diff --git " <= lines[i] && lx.gitPath(lines[i]).Some? :: lx.gitPath(lines[i]).value| <= g.maxFiles
    && |set i | 0 <= i < |lines| && "new file mode" <= lines[i]| <= g.maxNewFiles
    && (g.maxAdded == 0
        || |set i | 0 <= i < |lines| && lines[i] != "" && lines[i][0] == '+' && !("+++" <= lines[i])| <= g.maxAdded)
    && (g.maxDeleted == 0
        || |set i | 0 <= i < |lines| && lines[i] != "" && lines[i][0] == '-' && !("---" <= lines[i])| <= g.maxDeleted)
    && |set i | 0 <= i < |lines| && lines[i] != "" && lines[i][0] == '-' && !("---" <= lines[i]) && lx.mentionsTest(lines[i])| <= 50
    && !g.bannedCode(Join(s.plusLines)) && (s.plusLinesTest == [] || !g.bannedTestCode(Join(s.plusLinesTest)))
  }

  /** That is exactly what the gate lets through. */
  lemma {:induction false} AllowedMeans(lx: Lexer, g: Gate, diff: string)
    ensures Allowed(lx, g, diff) <==> KeepsLimits(lx, g, diff)
  {
    hide SplitLines, Analysis, Join, Bytes;
    AnalysisMeans(lx, diff);
    var s, lines := Analysis(lx, diff), SplitLines(diff);
    var files := set i | 0 <= i < |lines| && "diff --git " <= lines[i] && lx.gitPath(lines[i]).Some? :: lx.gitPath(lines[i]).value;
    assert files == s.filesTouched;
    if Allowed(lx, g, diff) {
      forall i | 0 <= i < |lines| && "diff --git " <= lines[i] && lx.gitPath(lines[i]).Some?
        ensures !g.blockedPath(lx.gitPath(lines[i]).value)
      {
        assert lx.gitPath(lines[i]).value in s.filesTouched;
      }
    }
  }

  /** The empty diff passes any gate with nonnegative limits whose patterns do not
      match the empty text. */
  lemma EmptyDiffAllowed(lx: Lexer, g: Gate)
    requires g.maxBytes >= 0 && g.maxFiles >= 0 && g.maxNewFiles >= 0 && g.maxAdded >= 0 && g.maxDeleted >= 0
    requires !g.bannedCode("")
    ensures Allowed(lx, g, "")
  {
  }

  /** A diff that passes the gate passes it minimised too, unless the added lines
      then counted as test lines match a banned pattern: dropping a hunk that
      names a file may move lines there. */
  lemma {:induction false} MinimizeKeepsAllowed(lx: Lexer, g: Gate, diff: string)
    requires Allowed(lx, g, diff)
    ensures var test := Analysis(lx, Minimized(diff)).plusLinesTest;
            Allowed(lx, g, Minimized(diff)) <==> test == [] || !g.bannedTestCode(Join(test))
  {
    hide Analysis, Minimized, Join;
    MinimizePreservesAnalysis(lx, diff);
    SmallerSet(Analysis(lx, Minimized(diff)).filesTouched, Analysis(lx, diff).filesTouched);
  }

  const NAMES := "+++ b/"

  /** A line that names `file`, a hunk that names `other`, and a hunk that adds a line. */
  function MovedLines(): seq<string> {
    [NAMES + "test_a.py"] + (["@@ one", NAMES + "b.py"] + ["@@ two", "+new"])
  }

  function MovedDiff(): string { Join(MovedLines()) + "\n" }

  /** Minimising does reject: this diff passes a gate whose pattern for test lines
      matches the line it adds to a source file, and no longer does once minimised. */
  lemma {:induction false} MinimizedIsRejected(lx: Lexer, g: Gate)
    requires lx.mentionsTest("test_a.py") && !lx.mentionsTest("b.py")
    requires g.maxBytes >= Bytes(MovedDiff()) && g.maxFiles >= 0 && g.maxNewFiles >= 0 && g.maxAdded >= 1 && g.maxDeleted >= 0
    requires !g.bannedCode("new") && g.bannedTestCode("new")
    ensures Allowed(lx, g, MovedDiff()) && !Allowed(lx, g, Minimized(MovedDiff()))
  {
    hide MovedLines, Attributed, Total, Kept, SplitLines, Bytes, MovedDiff;
    MovedSplits();
    MovedStats(lx);
    MinimizedStats(lx, MovedDiff());
    assert Join(["new"]) == "new";
    MinimizeKeepsAllowed(lx, g, MovedDiff());
  }

  lemma MovedSplits()
    ensures SplitLines(MovedDiff()) == MovedLines() && MovedDiff() != ""
  {
    hide SplitLines, Join, MovedLines;
    MovedUnbroken();
    SplitTerminated(MovedLines());
  }

  lemma MovedUnbroken()
    ensures AllBreakFree(MovedLines()) && MovedLines() != []
  {
    forall i | 0 <= i < |MovedLines()|
      ensures BreakFree(MovedLines()[i])
    {
      assert MovedLines()[i] in [NAMES + "test_a.py", "@@ one", NAMES + "b.py", "@@ two", "+new"];
    }
  }

  lemma MovedStats(lx: Lexer)
    requires lx.mentionsTest("test_a.py") && !lx.mentionsTest("b.py")
    ensures Total(lx, MovedLines()) == Local({}, 0, ["new"], 0, 0)
    ensures Attributed(lx, true, "", MovedLines()) == [] && Attributed(lx, true, "", Kept(MovedLines())) == ["new"]
  {
    hide NAMES, Total, Attributed, Kept, Sets, LocalOf, IsPlus, IsHunkHeader, Quiet;
    NameLine(lx, "test_a.py");
    NameLine(lx, "b.py");
    HeaderLine(lx, "@@ one");
    HeaderLine(lx, "@@ two");
    NewLine(lx);
    ExampleHunks(lx);
    MovedTotal(lx, [NAMES + "test_a.py", "@@ one", NAMES + "b.py", "@@ two"], "+new");
    assert MovedLines() == [NAMES + "test_a.py", "@@ one", NAMES + "b.py", "@@ two"] + ["+new"];
    MovedSides(lx, NAMES + "test_a.py", "test_a.py", "@@ one", NAMES + "b.py", "b.py", ["@@ two", "+new"]);
  }

  lemma NameLine(lx: Lexer, file: string)
    ensures Quiet(lx, NAMES + file) && Sets(lx, NAMES + file) == Some(file) && !IsHunkHeader(NAMES + file)
  {
    var line := NAMES + file;
    assert NAMES[0] == '+' && NAMES[1] == '+' && NAMES[2] == '+' && "+++" == NAMES[..3] && line[..6] == NAMES && line[..3] == "+++";
    assert "diff --git "[0] == 'd' && "new file mode"[0] == 'n' && "-"[0] == '-' && "@@"[0] == '@' && line[0] == '+';
  }

  lemma HeaderLine(lx: Lexer, line: string)
    requires |line| >= 2 && line[0] == line[1] == '@'
    ensures Quiet(lx, line) && Sets(lx, line).None? && IsHunkHeader(line)
  {
    assert line[..2] == "@@" && NAMES[0] == '+' && "diff --git "[0] == 'd' && "new file mode"[0] == 'n' && "-"[0] == '-' && "+"[0] == '+';
  }

  lemma NewLine(lx: Lexer)
    ensures LocalOf(lx, "+new") == Local({}, 0, ["new"], 0, 0)
    ensures Sets(lx, "+new").None?
  {
    PlusLine(lx);
    assert "+new"[..1] == "+" && "+new"[1] == 'n' && "+++"[1] == '+';
    assert "+new"[0] == '+' && "diff --git "[0] == 'd' && "new file mode"[0] == 'n' && "-"[0] == '-' && NAMES[1] == '+';
  }

  /** The line counts as nothing and changes nothing. */
  predicate Quiet(lx: Lexer, line: string) { LocalOf(lx, line) == NOTHING && !IsChange(line) }

  lemma {:induction false} QuietTotal(lx: Lexer, lines: seq<string>)
    requires forall i :: 0 <= i < |lines| ==> Quiet(lx, lines[i])
    ensures Total(lx, lines) == NOTHING
  {
    hide LocalOf, Quiet, Both;
    if lines != [] {
      var front, last := lines[..|lines| - 1], lines[|lines| - 1];
      forall i | 0 <= i < |front|
        ensures Quiet(lx, front[i])
      {
        assert front[i] == lines[i];
      }
      QuietTotal(lx, front);
      NothingBoth(NOTHING);
      QuietIsNothing(lx, last);
    }
  }

  lemma QuietIsNothing(lx: Lexer, line: string)
    requires Quiet(lx, line)
    ensures LocalOf(lx, line) == NOTHING
  {
  }

  lemma MovedTotal(lx: Lexer, lines: seq<string>, last: string)
    requires forall i :: 0 <= i < |lines| ==> Quiet(lx, lines[i])
    ensures Total(lx, lines + [last]) == LocalOf(lx, last)
  {
    hide LocalOf, Quiet;
    QuietTotal(lx, lines);
    assert (lines + [last])[..|lines|] == lines;
    var n := LocalOf(lx, last);
    assert {} + n.files == n.files && [] + n.plus == n.plus;
  }

  lemma MovedSides(lx: Lexer, l: string, file: string, a1: string, a2: string, other: string, b: seq<string>)
    requires Quiet(lx, l) && Quiet(lx, a1) && Quiet(lx, a2) && !IsHunkHeader(l) && IsHunkHeader(a1) && !IsHunkHeader(a2)
    requires Sets(lx, l) == Some(file) && Sets(lx, a1).None? && Sets(lx, a2) == Some(other)
    requires IsHunk(b) && Total(lx, b).plus != [] && forall i :: 0 <= i < |b| ==> Sets(lx, b[i]).None?
    requires lx.mentionsTest(file) && !lx.mentionsTest(other)
    ensures var lines := [l] + ([a1, a2] + b);
            Attributed(lx, true, "", lines) == [] && Attributed(lx, true, "", Kept(lines)) == Total(lx, b).plus
  {
    hide LocalOf, Sets, IsPlus, IsMinus, IsHunkHeader, Kept, Attributed, Total;
    var a := [a1, a2];
    if !HasChange(b) { UnchangedTotal(lx, b); }
    assert !HasChange([l]) && !HasChange(a);
    KeepsSecondHunk([l], a, b);
    assert [l][..0] == [] && a[..1] == [a1] && [a1][..0] == [];
    assert CurrentFile(lx, "", [l]) == file && CurrentFile(lx, file, a) == other;
    UnchangedAttributed(lx, true, "", [l]);
    UnchangedAttributed(lx, true, file, a);
    AttributedAppend(lx, true, "", [l], b);
    AttributedAppend(lx, true, "", [l], a + b);
    AttributedAppend(lx, true, file, a, b);
    OneFileAttributed(lx, true, file, b);
    OneFileAttributed(lx, true, other, b);
  }

  /** In particular it passes when every added line stays where it was. */
  lemma {:induction false} KeptSidesAllowed(lx: Lexer, g: Gate, diff: string)
    requires Allowed(lx, g, diff)
    requires var lines := SplitLines(diff);
             forall i :: 0 <= i < |Hunks(lines)| ==> SideKept(lx, CurrentFile(lx, "", Body(lines)), Hunks(lines), i)
    ensures Allowed(lx, g, Minimized(diff))
  {
    hide Analysis, Minimized, Join, SideKept, Hunks, Body, CurrentFile, SplitLines;
    MinimizeKeepsAllowed(lx, g, diff);
    AttributionKeptLists(lx, diff);
  }
}
