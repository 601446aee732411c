/** The hunk minimiser of rfsn_kernel/patch_minimize.py. */
module DiffMinimize {
  import opened TextLines

  predicate StartsWith(line: string, prefix: string) {
    prefix <= line
  }

  predicate IsHunkHeader(line: string) { StartsWith(line, "@@") }

  predicate IsPlus(line: string) { StartsWith(line, "+") && !StartsWith(line, "+++") }

  predicate IsMinus(line: string) { StartsWith(line, "-") && !StartsWith(line, "---") }

  predicate IsChange(line: string) { IsPlus(line) || IsMinus(line) }

  predicate HasChange(lines: seq<string>) {
    exists i :: 0 <= i < |lines| && IsChange(lines[i])
  }

  /** Where the current hunk's body ends: at the next header, or at the end. */
  function BodyLength(lines: seq<string>): (n: nat)
    ensures n <= |lines| && (n < |lines| ==> IsHunkHeader(lines[n]))
    ensures forall i :: 0 <= i < n ==> !IsHunkHeader(lines[i])
  {
    if lines == [] || IsHunkHeader(lines[0]) then 0 else 1 + BodyLength(lines[1..])
  }

  function Body(lines: seq<string>): seq<string> { lines[..BodyLength(lines)] }

  function AfterBody(lines: seq<string>): (rest: seq<string>)
    ensures |rest| <= |lines| && (rest == [] || IsHunkHeader(rest[0]))
  {
    lines[BodyLength(lines)..]
  }

  /** A header and the lines up to the next one, whatever they are. */
  predicate IsHunk(hunk: seq<string>) {
    hunk != [] && IsHunkHeader(hunk[0]) && forall i :: 1 <= i < |hunk| ==> !IsHunkHeader(hunk[i])
  }

  function FirstHunk(lines: seq<string>): (hunk: seq<string>)
    requires lines != [] && IsHunkHeader(lines[0])
    ensures IsHunk(hunk)
  {
    [lines[0]] + Body(lines[1..])
  }

  function AfterHunk(lines: seq<string>): (rest: seq<string>)
    requires lines != []
    ensures |rest| < |lines| && (rest == [] || IsHunkHeader(rest[0]))
  {
    AfterBody(lines[1..])
  }

  /** The lines before the first hunk and, in order, the hunks with a change. */
  function Kept(lines: seq<string>): seq<string>
    decreases |lines|
  {
    if lines == [] then []
    else if !IsHunkHeader(lines[0]) then [lines[0]] + Kept(lines[1..])
    else (if HasChange(FirstHunk(lines)) then FirstHunk(lines) else []) + Kept(AfterHunk(lines))
  }

  function Minimized(diff: string): string {
    if diff == "" then "" else Join(Kept(SplitLines(diff))) + (if EndsWithNewline(diff) then "\n" else "")
  }

  // ----------------------------------------------------------------- the loop

  /** The lines still to be kept when the loop stands inside `hunk`. */
  ghost function FromHunk(hunk: seq<string>, rest: seq<string>): seq<string> {
    (if HasChange(hunk + Body(rest)) then hunk + Body(rest) else []) + Kept(AfterBody(rest))
  }

  lemma FromHunkStep(hunk: seq<string>, rest: seq<string>)
    requires rest != [] && !IsHunkHeader(rest[0])
    ensures FromHunk(hunk, rest) == FromHunk(hunk + [rest[0]], rest[1..])
  {
    assert Body(rest) == [rest[0]] + Body(rest[1..]);
    assert AfterBody(rest) == AfterBody(rest[1..]);
    assert hunk + Body(rest) == hunk + [rest[0]] + Body(rest[1..]);
  }

  lemma FromHunkFlush(hunk: seq<string>, rest: seq<string>)
    requires rest == [] || IsHunkHeader(rest[0])
    ensures FromHunk(hunk, rest) == (if HasChange(hunk) then hunk else []) + Kept(rest)
  {
    hide HasChange, Kept;
    assert Body(rest) == [] && AfterBody(rest) == rest;
    assert hunk + [] == hunk;
  }

  lemma KeptHeader(rest: seq<string>)
    requires rest != [] && IsHunkHeader(rest[0])
    ensures Kept(rest) == FromHunk([rest[0]], rest[1..])
  {
  }

  lemma HasChangeAppend(hunk: seq<string>, line: string)
    ensures HasChange(hunk + [line]) <==> HasChange(hunk) || IsChange(line)
  {
    if HasChange(hunk) {
      var i :| 0 <= i < |hunk| && IsChange(hunk[i]);
      assert IsChange((hunk + [line])[i]);
    }
    if IsChange(line) { assert IsChange((hunk + [line])[|hunk|]); }
  }

  /** What the loop has still to produce, by what it is holding. */
  ghost function ToKeep(hunk: seq<string>, rest: seq<string>): seq<string> {
    if hunk == [] then Kept(rest) else FromHunk(hunk, rest)
  }

  lemma {:induction false} ToKeepHeader(hunk: seq<string>, rest: seq<string>)
    requires rest != [] && IsHunkHeader(rest[0])
    ensures ToKeep(hunk, rest) == (if HasChange(hunk) then hunk else []) + ToKeep([rest[0]], rest[1..])
  {
    KeptHeader(rest);
    if hunk != [] { FromHunkFlush(hunk, rest); }
  }

  lemma ToKeepLine(hunk: seq<string>, rest: seq<string>)
    requires rest != [] && !IsHunkHeader(rest[0])
    ensures ToKeep(hunk, rest) == if hunk == [] then [rest[0]] + ToKeep([], rest[1..]) else ToKeep(hunk + [rest[0]], rest[1..])
  {
    if hunk != [] { FromHunkStep(hunk, rest); }
  }

  method MinimizeUnifiedDiff(diff: string) returns (minimized: string)
    ensures minimized == Minimized(diff)
  {
    if diff == "" {
      return "";
    }
    var lines := SplitLines(diff);
    var out := MinimizeLines(lines);
    minimized := Join(out);
    if EndsWithNewline(diff) {
      minimized := minimized + "\n";
    }
  }

  /** The loop of `minimize_unified_diff` with its nested flush. */
  method MinimizeLines(lines: seq<string>) returns (out: seq<string>)
    ensures out == Kept(lines)
  {
    hide ToKeep, HasChange, Kept;
    out := [];
    var hunk: seq<string>, changed := [], false;
    ToKeepStart(lines);
    for i := 0 to |lines|
      invariant changed <==> HasChange(hunk)
      invariant Kept(lines) == out + ToKeep(hunk, lines[i..])
    {
      var line := lines[i];
      ghost var rest, next := lines[i..], lines[i + 1..];
      assert rest[0] == line && rest[1..] == next;
      if IsHunkHeader(line) {
        ToKeepHeader(hunk, rest);
        Reassociate(out, if changed then hunk else [], ToKeep([line], next));
        out := out + (if changed then hunk else []);
        hunk, changed := [line], false;
        HeaderOnly(line);
      } else {
        ToKeepLine(hunk, rest);
        if hunk != [] {
          HasChangeAppend(hunk, line);
          if IsPlus(line) {
            changed := true;
          } else if IsMinus(line) {
            changed := true;
          }
          hunk := hunk + [line];
        } else {
          Reassociate(out, [line], ToKeep([], next));
          out := out + [line];
        }
      }
    }
    ToKeepEnd(hunk, lines[|lines|..]);
    out := out + (if changed then hunk else []);
  }

  lemma Reassociate(a: seq<string>, b: seq<string>, c: seq<string>)
    ensures a + (b + c) == (a + b) + c
  {
  }

  lemma ToKeepStart(lines: seq<string>)
    ensures Kept(lines) == [] + ToKeep([], lines[0..]) && !HasChange([])
  {
    assert lines[0..] == lines && [] + Kept(lines) == Kept(lines);
  }

  lemma ToKeepEnd(hunk: seq<string>, rest: seq<string>)
    requires rest == []
    ensures ToKeep(hunk, rest) == if HasChange(hunk) then hunk else []
  {
    if hunk != [] {
      FromHunkFlush(hunk, []);
      assert hunk + [] == hunk;
    }
  }

  lemma HeaderOnly(line: string)
    requires IsHunkHeader(line)
    ensures !HasChange([line])
  {
    assert line[..2] == "@@" && line[0] == '@';
  }

  // -------------------------------------------------------------- what is kept

  function Flatten(hunks: seq<seq<string>>): seq<string> {
    if hunks == [] then [] else hunks[0] + Flatten(hunks[1..])
  }

  function Changed(hunks: seq<seq<string>>): seq<seq<string>> {
    if hunks == [] then []
    else (if HasChange(hunks[0]) then [hunks[0]] else []) + Changed(hunks[1..])
  }

  /** The hunks of lines that start with a header. */
  function HunksOf(lines: seq<string>): (hunks: seq<seq<string>>)
    requires lines == [] || IsHunkHeader(lines[0])
    ensures forall i :: 0 <= i < |hunks| ==> IsHunk(hunks[i])
    decreases |lines|
  {
    if lines == [] then [] else [FirstHunk(lines)] + HunksOf(AfterHunk(lines))
  }

  lemma {:induction false} HunksFlatten(lines: seq<string>)
    requires lines == [] || IsHunkHeader(lines[0])
    ensures Flatten(HunksOf(lines)) == lines
    decreases |lines|
  {
    if lines != [] {
      HunksFlatten(AfterHunk(lines));
      HunkParts(lines);
      hide FirstHunk, AfterHunk, IsHunkHeader;
      assert HunksOf(lines)[1..] == HunksOf(AfterHunk(lines));
    }
  }

  /** Any lines are leading lines, none of them a header, and hunks. */
  function Hunks(lines: seq<string>): (hunks: seq<seq<string>>)
    ensures forall i :: 0 <= i < |hunks| ==> IsHunk(hunks[i])
  {
    HunksOf(AfterBody(lines))
  }

  lemma LeadAndHunks(lines: seq<string>)
    ensures lines == Body(lines) + Flatten(Hunks(lines))
    ensures forall i :: 0 <= i < |Body(lines)| ==> !IsHunkHeader(Body(lines)[i])
  {
    hide HunksOf, Flatten, IsHunk, IsHunkHeader;
    HunksFlatten(AfterBody(lines));
  }

  lemma {:induction false} FlattenLast(hunks: seq<seq<string>>, last: seq<string>)
    ensures Flatten(hunks + [last]) == Flatten(hunks) + last
    ensures Changed(hunks + [last]) == Changed(hunks) + (if HasChange(last) then [last] else [])
  {
    hide HasChange;
    if hunks == [] {
      assert [] + [last] == [last] && last + [] == last == [] + last;
    } else {
      FlattenLast(hunks[1..], last);
      assert (hunks + [last])[1..] == hunks[1..] + [last] && (hunks + [last])[0] == hunks[0];
      Reassociate(hunks[0], Flatten(hunks[1..]), last);
    }
  }

  /** A diff of leading lines and hunks keeps the leading lines and exactly the
      hunks with a change, in order. */
  lemma {:induction false} KeepsChangedHunks(lead: seq<string>, hunks: seq<seq<string>>)
    requires forall i :: 0 <= i < |lead| ==> !IsHunkHeader(lead[i])
    requires forall i :: 0 <= i < |hunks| ==> IsHunk(hunks[i])
    ensures Kept(lead + Flatten(hunks)) == lead + Flatten(Changed(hunks))
    decreases |lead| + |hunks|
  {
    if lead != [] {
      KeepsChangedHunks(lead[1..], hunks);
      assert (lead + Flatten(hunks))[1..] == lead[1..] + Flatten(hunks);
    } else if hunks != [] {
      var rest := Flatten(hunks[1..]);
      KeepsChangedHunks([], hunks[1..]);
      FlattenStart(hunks[1..]);
      HunkFirst(hunks[0], rest);
      ChangedFirst(hunks);
      EmptyLead(rest);
      EmptyLead(Flatten(hunks));
      EmptyLead(Flatten(Changed(hunks)));
      EmptyLead(Flatten(Changed(hunks[1..])));
      hide Flatten, Changed, HasChange;
    }
  }

  lemma EmptyLead(lines: seq<string>)
    ensures [] + lines == lines
  {
  }

  lemma FlattenStart(hunks: seq<seq<string>>)
    requires forall i :: 0 <= i < |hunks| ==> IsHunk(hunks[i])
    ensures Flatten(hunks) == [] || IsHunkHeader(Flatten(hunks)[0])
  {
  }

  lemma {:induction false} ChangedFirst(hunks: seq<seq<string>>)
    requires hunks != []
    ensures Flatten(Changed(hunks)) == (if HasChange(hunks[0]) then hunks[0] else []) + Flatten(Changed(hunks[1..]))
  {
    var rest := Changed(hunks[1..]);
    if HasChange(hunks[0]) {
      assert ([hunks[0]] + rest)[1..] == rest;
    } else {
      assert [] + rest == rest && [] + Flatten(rest) == Flatten(rest);
    }
  }

  lemma {:induction false} ChangedMeans(hunks: seq<seq<string>>, n: nat)
    requires n < |hunks|
    ensures Changed(hunks) == Changed(hunks[..n]) + Changed(hunks[n..])
    ensures Changed([hunks[n]]) == if exists i :: 0 <= i < |hunks[n]| && ChangesText(hunks[n][i]) then [hunks[n]] else []
  {
    ChangedAppend(hunks[..n], hunks[n..]);
    assert hunks == hunks[..n] + hunks[n..];
    assert [hunks[n]][1..] == [];
    forall i | 0 <= i < |hunks[n]|
      ensures IsChange(hunks[n][i]) <==> ChangesText(hunks[n][i])
    {
      ChangeChars(hunks[n][i]);
    }
  }

  /** The line adds or deletes: it begins with one + but not three, or with one - but
      not three. */
  predicate ChangesText(line: string) {
    line != "" && ((line[0] == '+' && !("+++" <= line)) || (line[0] == '-' && !("---" <= line)))
  }

  lemma ChangeChars(line: string)
    ensures IsChange(line) <==> ChangesText(line)
  {
    assert "+"[0] == '+' && "-"[0] == '-';
    if line != "" { assert line[..1] == [line[0]]; }
  }

  lemma {:induction false} ChangedAppend(a: seq<seq<string>>, b: seq<seq<string>>)
    ensures Changed(a + b) == Changed(a) + Changed(b)
  {
    hide HasChange;
    if a == [] {
      assert a + b == b && [] + Changed(b) == Changed(b);
    } else {
      ChangedAppend(a[1..], b);
      assert (a + b)[1..] == a[1..] + b && (a + b)[0] == a[0];
      var first: seq<seq<string>> := if HasChange(a[0]) then [a[0]] else [];
      Regroup(first, Changed(a[1..]), Changed(b));
    }
  }

  lemma Regroup<T>(a: seq<T>, b: seq<T>, c: seq<T>)
    ensures a + (b + c) == (a + b) + c
  {
  }

  /** The minimised text, on the lines of the diff: what stands before the first line
      that begins with @@, and of the hunks - each such line with what follows it up
      to the next - those with a line that adds or deletes; a newline at the end stays. */
  lemma {:induction false} MinimizedMeans(diff: string, lead: seq<string>, hunks: seq<seq<string>>)
    requires diff != "" && SplitLines(diff) == lead + Flatten(hunks)
    requires forall i :: 0 <= i < |lead| ==> !("@@" <= lead[i])
    requires forall i :: 0 <= i < |hunks| ==> hunks[i] != [] && "@@" <= hunks[i][0] && forall j :: 1 <= j < |hunks[i]| ==> !("@@" <= hunks[i][j])
    ensures Minimized(diff) == Join(lead + Flatten(Changed(hunks))) + (if diff[|diff| - 1] == '\n' then "\n" else "")
  {
    hide SplitLines, Join, Flatten, Changed, Kept;
    KeepsChangedHunks(lead, hunks);
  }

  // ---------------------------------------------------------------- idempotence

  /** Every hunk has a change: there is nothing for the minimiser to drop. */
  predicate Lean(lines: seq<string>)
    decreases |lines|
  {
    lines == [] ||
    if !IsHunkHeader(lines[0]) then Lean(lines[1..])
    else HasChange(FirstHunk(lines)) && Lean(AfterHunk(lines))
  }

  lemma HunkParts(lines: seq<string>)
    requires lines != [] && IsHunkHeader(lines[0])
    ensures FirstHunk(lines) + AfterHunk(lines) == lines
  {
    hide BodyLength, IsHunkHeader, IsHunk;
    var n := BodyLength(lines[1..]);
    assert lines[1..] == lines[1..][..n] + lines[1..][n..];
  }

  lemma {:induction false} LeanIsKept(lines: seq<string>)
    requires Lean(lines)
    ensures Kept(lines) == lines
    decreases |lines|
  {
    if lines != [] {
      if IsHunkHeader(lines[0]) {
        LeanIsKept(AfterHunk(lines));
        HunkParts(lines);
      } else {
        LeanIsKept(lines[1..]);
      }
    }
  }

  lemma {:induction false} BodyThenHeader(body: seq<string>, rest: seq<string>)
    requires forall i :: 0 <= i < |body| ==> !IsHunkHeader(body[i])
    requires rest == [] || IsHunkHeader(rest[0])
    ensures BodyLength(body + rest) == |body|
  {
    if body == [] {
      assert body + rest == rest;
    } else {
      BodyThenHeader(body[1..], rest);
      assert (body + rest)[1..] == body[1..] + rest;
    }
  }

  /** A hunk put before a header is the first hunk of the result. */
  lemma HunkFirst(hunk: seq<string>, rest: seq<string>)
    requires IsHunk(hunk) && (rest == [] || IsHunkHeader(rest[0]))
    ensures FirstHunk(hunk + rest) == hunk && AfterHunk(hunk + rest) == rest
  {
    var body := hunk[1..];
    BodyThenHeader(body, rest);
    assert (hunk + rest)[1..] == body + rest;
    assert (body + rest)[..|body|] == body && (body + rest)[|body|..] == rest;
  }

  lemma {:induction false} KeptStart(lines: seq<string>)
    requires lines == [] || IsHunkHeader(lines[0])
    ensures Kept(lines) == [] || IsHunkHeader(Kept(lines)[0])
    decreases |lines|
  {
    hide HasChange, Body, AfterBody;
    if lines != [] { KeptStart(AfterHunk(lines)); }
  }

  lemma {:induction false} KeptIsLean(lines: seq<string>)
    ensures Lean(Kept(lines))
    decreases |lines|
  {
    if lines != [] {
      if IsHunkHeader(lines[0]) {
        var rest := AfterHunk(lines);
        KeptIsLean(rest);
        KeptStart(rest);
        if HasChange(FirstHunk(lines)) {
          HunkFirst(FirstHunk(lines), Kept(rest));
        } else {
          assert [] + Kept(rest) == Kept(rest);
        }
      } else {
        KeptIsLean(lines[1..]);
        assert Kept(lines)[1..] == Kept(lines[1..]);
      }
    }
  }

  lemma {:induction false} BodyOfPrefix(lines: seq<string>, last: string)
    requires !IsHunkHeader(last)
    ensures var m := BodyLength(lines);
            BodyLength(lines + [last]) == if m < |lines| then m else m + 1
  {
    if lines != [] && !IsHunkHeader(lines[0]) {
      BodyOfPrefix(lines[1..], last);
      assert (lines + [last])[1..] == lines[1..] + [last];
    } else if lines == [] {
      assert (lines + [last])[1..] == [];
    }
  }

  lemma HunkOfPrefix(lines: seq<string>)
    requires lines != [] && IsHunkHeader(lines[0])
    ensures AfterHunk(lines) == [] ==> FirstHunk(lines + [""]) == FirstHunk(lines) + [""] && AfterHunk(lines + [""]) == []
    ensures AfterHunk(lines) != [] ==>
              FirstHunk(lines + [""]) == FirstHunk(lines) && AfterHunk(lines + [""]) == AfterHunk(lines) + [""]
  {
    BodyOfPrefix(lines[1..], "");
    assert (lines + [""])[1..] == lines[1..] + [""];
    var m := BodyLength(lines[1..]);
    if m < |lines[1..]| {
      assert (lines[1..] + [""])[..m] == lines[1..][..m];
      assert (lines[1..] + [""])[m..] == lines[1..][m..] + [""];
    } else {
      assert lines[1..][..m] == lines[1..];
    }
  }

  /** Dropping a last empty line leaves nothing more to drop. */
  lemma {:induction false} LeanWithoutBlank(lines: seq<string>)
    requires Lean(lines + [""])
    ensures Lean(lines)
    decreases |lines|
  {
    if lines != [] {
      if IsHunkHeader(lines[0]) {
        HunkOfPrefix(lines);
        if AfterHunk(lines) == [] {
          HasChangeAppend(FirstHunk(lines), "");
        } else {
          LeanWithoutBlank(AfterHunk(lines));
        }
      } else {
        assert (lines + [""])[1..] == lines[1..] + [""];
        LeanWithoutBlank(lines[1..]);
      }
    }
  }

  lemma {:induction false} KeptFrom(lines: seq<string>, line: string)
    requires line in Kept(lines)
    ensures line in lines
    decreases |lines|
  {
    if IsHunkHeader(lines[0]) {
      HunkParts(lines);
      if line in Kept(AfterHunk(lines)) { KeptFrom(AfterHunk(lines), line); }
    } else if line != lines[0] {
      KeptFrom(lines[1..], line);
    }
  }

  /** The lines a minimised text splits into: those kept, but for an empty last
      line that no newline follows; one empty line if only a newline is left. */
  function Resplit(out: seq<string>, newline: bool): seq<string> {
    if out == [] then if newline then [""] else []
    else if !newline && out[|out| - 1] == "" then out[..|out| - 1]
    else out
  }

  lemma SplitNothing(newline: bool)
    ensures SplitLines(Join([]) + (if newline then "\n" else "")) == Resplit([], newline)
  {
    assert SplitLines("") == [] && "" + "" == "";
    SplitFirst("", "");
    assert "" + "\n" + "" == "" + "\n";
  }

  lemma {:induction false} SplitMinimized(diff: string)
    requires diff != ""
    ensures SplitLines(Minimized(diff)) == Resplit(Kept(SplitLines(diff)), EndsWithNewline(diff))
  {
    hide SplitLines, Kept, AllBreakFree;
    var out := Kept(SplitLines(diff));
    KeptBreakFree(diff);
    if out == [] {
      SplitNothing(EndsWithNewline(diff));
    } else if EndsWithNewline(diff) {
      SplitTerminated(out);
    } else {
      SplitJoined(out);
      assert Join(out) + "" == Join(out);
    }
  }

  lemma ResplitLean(out: seq<string>, newline: bool)
    requires Lean(out)
    ensures Lean(Resplit(out, newline))
  {
    if out != [] && out[|out| - 1] == "" {
      assert out == out[..|out| - 1] + [""];
      LeanWithoutBlank(out[..|out| - 1]);
    }
    assert Lean([""]);
  }

  lemma ResplitJoins(out: seq<string>, newline: bool)
    requires AllBreakFree(out)
    ensures var text := Join(out) + (if newline then "\n" else "");
            text == Join(Resplit(out, newline)) + (if EndsWithNewline(text) then "\n" else "")
  {
    hide SplitLines, AllBreakFree;
    if out != [] {
      SplitJoined(out);
      assert Join(out) + "" == Join(out);
    }
  }

  lemma KeptBreakFree(diff: string)
    ensures AllBreakFree(Kept(SplitLines(diff)))
  {
    var out := Kept(SplitLines(diff));
    forall i | 0 <= i < |out|
      ensures BreakFree(out[i])
    {
      KeptFrom(SplitLines(diff), out[i]);
    }
  }

  /** Minimising twice is minimising once. */
  lemma MinimizeIdempotent(diff: string)
    ensures Minimized(Minimized(diff)) == Minimized(diff)
  {
    if diff != "" && Minimized(diff) != "" {
      var out, newline := Kept(SplitLines(diff)), EndsWithNewline(diff);
      SplitMinimized(diff);
      KeptBreakFree(diff);
      KeptIsLean(SplitLines(diff));
      hide Kept, Lean;
      ResplitLean(out, newline);
      LeanIsKept(Resplit(out, newline));
      ResplitJoins(out, newline);
    }
  }

  /** The minimised diff is never longer in bytes than the diff. */
  lemma MinimizeShrinks(diff: string)
    ensures Bytes(Minimized(diff)) <= Bytes(diff)
  {
    if diff != "" {
      var lines := SplitLines(diff);
      var out := Kept(lines);
      var end := if EndsWithNewline(diff) then "\n" else "";
      SplitBytes(diff);
      JoinBytes(out);
      BytesAppend(Join(out), end);
      KeptBytes(lines);
    }
  }

  lemma {:induction false} LineBytesAppend(a: seq<string>, b: seq<string>)
    ensures LineBytes(a + b) == LineBytes(a) + LineBytes(b)
  {
    if a == [] {
      assert a + b == b;
    } else {
      LineBytesAppend(a[1..], b);
      assert (a + b)[1..] == a[1..] + b;
    }
  }

  lemma {:induction false} KeptBytes(lines: seq<string>)
    ensures LineBytes(Kept(lines)) <= LineBytes(lines) && |Kept(lines)| <= |lines|
    decreases |lines|
  {
    if lines != [] {
      if IsHunkHeader(lines[0]) {
        var hunk, rest := FirstHunk(lines), AfterHunk(lines);
        KeptBytes(rest);
        HunkParts(lines);
        LineBytesAppend(hunk, rest);
        LineBytesAppend(hunk, Kept(rest));
        assert [] + Kept(rest) == Kept(rest);
      } else {
        KeptBytes(lines[1..]);
        assert Kept(lines)[1..] == Kept(lines[1..]);
      }
    }
  }
}
