/** Lines of text as Python sees them: `str.splitlines` and `"\n".join`, and the
    length of a text in UTF-8. */
module TextLines {
  import opened Common

  /** The characters that end a line; carriage return and newline together end
      a single one. */
  predicate IsBreak(c: char) {
    c in {'\n', '\r', '\U{0B}', '\U{0C}', '\U{1C}', '\U{1D}', '\U{1E}', '\U{85}', '\U{2028}', '\U{2029}'}
  }

  predicate BreakFree(line: string) {
    forall i :: 0 <= i < |line| ==> !IsBreak(line[i])
  }

  /** The length of the first line, its break not counted. */
  function FirstBreak(s: string): (n: nat)
    ensures n <= |s| && (n < |s| ==> IsBreak(s[n])) && BreakFree(s[..n])
  {
    if s == "" || IsBreak(s[0]) then 0
    else
      var n := FirstBreak(s[1..]);
      assert s[..1 + n] == [s[0]] + s[1..][..n];
      1 + n
  }

  function BreakWidth(s: string, n: nat): (w: nat)
    requires n < |s|
    ensures 1 <= w && n + w <= |s|
  {
    if s[n] == '\r' && n + 1 < |s| && s[n + 1] == '\n' then 2 else 1
  }

  function SplitLines(s: string): (lines: seq<string>)
    ensures forall i :: 0 <= i < |lines| ==> BreakFree(lines[i])
    ensures lines == [] <==> s == ""
    decreases |s|
  {
    if s == "" then []
    else
      var n := FirstBreak(s);
      if n == |s| then [s[..n]] else [s[..n]] + SplitLines(s[n + BreakWidth(s, n)..])
  }

  function Join(lines: seq<string>): string {
    if lines == [] then ""
    else if |lines| == 1 then lines[0]
    else lines[0] + "\n" + Join(lines[1..])
  }

  predicate EndsWithNewline(s: string) {
    s != "" && s[|s| - 1] == '\n'
  }

  predicate AllBreakFree(lines: seq<string>) {
    forall i :: 0 <= i < |lines| ==> BreakFree(lines[i])
  }

  lemma {:induction false} FirstBreakAt(line: string, rest: string)
    requires BreakFree(line) && (rest == "" || IsBreak(rest[0]))
    ensures FirstBreak(line + rest) == |line|
  {
    if line == "" {
      assert line + rest == rest;
    } else {
      assert (line + rest)[1..] == line[1..] + rest;
      FirstBreakAt(line[1..], rest);
    }
  }

  /** A line ended by a newline is split off as it is. */
  lemma SplitFirst(line: string, rest: string)
    requires BreakFree(line)
    ensures SplitLines(line + "\n" + rest) == [line] + SplitLines(rest)
  {
    var s := line + "\n" + rest;
    assert s == line + ("\n" + rest);
    FirstBreakAt(line, "\n" + rest);
    assert s[..|line|] == line && s[|line| + 1..] == rest;
  }

  lemma SplitSingle(line: string)
    requires BreakFree(line) && line != ""
    ensures SplitLines(line) == [line]
  {
    assert line + "" == line;
    FirstBreakAt(line, "");
    assert line[..|line|] == line;
  }

  /** Joined lines that end in a newline split into the same lines again. */
  lemma {:induction false} SplitTerminated(lines: seq<string>)
    requires AllBreakFree(lines) && lines != []
    ensures SplitLines(Join(lines) + "\n") == lines
  {
    hide IsBreak, BreakFree, SplitLines;
    if |lines| == 1 {
      SplitFirst(lines[0], "");
      assert lines[0] + "\n" + "" == lines[0] + "\n";
    } else {
      SplitTerminated(lines[1..]);
      SplitFirst(lines[0], Join(lines[1..]) + "\n");
      assert Join(lines) + "\n" == lines[0] + "\n" + (Join(lines[1..]) + "\n");
    }
  }

  lemma {:induction false} JoinLast(lines: seq<string>)
    requires |lines| >= 2
    ensures Join(lines) == Join(lines[..|lines| - 1]) + "\n" + lines[|lines| - 1]
  {
    if |lines| > 2 {
      JoinLast(lines[1..]);
      assert lines[..|lines| - 1][1..] == lines[1..][..|lines| - 2];
      assert lines[..|lines| - 1][0] == lines[0];
      var front := Join(lines[1..][..|lines| - 2]);
      assert lines[0] + "\n" + (front + "\n" + lines[|lines| - 1]) == (lines[0] + "\n" + front) + "\n" + lines[|lines| - 1];
    }
  }

  /** Joined lines split into themselves, but for an empty last line, which the
      split does not see. */
  lemma {:induction false} SplitJoined(lines: seq<string>)
    requires AllBreakFree(lines) && lines != []
    ensures lines[|lines| - 1] != "" ==> SplitLines(Join(lines)) == lines && !EndsWithNewline(Join(lines))
    ensures lines[|lines| - 1] == "" && |lines| > 1 ==>
              Join(lines) == Join(lines[..|lines| - 1]) + "\n" && SplitLines(Join(lines)) == lines[..|lines| - 1]
  {
    var n := |lines| - 1;
    if n == 0 {
      if lines[0] != "" { SplitSingle(lines[0]); }
    } else {
      JoinLast(lines);
      if lines[n] == "" {
        SplitTerminated(lines[..n]);
        assert Join(lines[..n]) + "\n" + "" == Join(lines[..n]) + "\n";
      } else {
        assert !EndsWithNewline(Join(lines));
        SplitUnterminated(lines);
      }
    }
  }

  lemma {:induction false} SplitUnterminated(lines: seq<string>)
    requires AllBreakFree(lines) && lines != [] && lines[|lines| - 1] != ""
    ensures SplitLines(Join(lines)) == lines
  {
    if |lines| == 1 {
      SplitSingle(lines[0]);
    } else {
      SplitUnterminated(lines[1..]);
      SplitFirst(lines[0], Join(lines[1..]));
    }
  }

  // --------------------------------------------------------- how a text splits

  /** Line by line: a line is what stands before the first break, a carriage return
      with the newline behind it counting as one, and a text without any is a
      single line. */
  lemma {:induction false} SplitAt(line: string, end: string, rest: string)
    requires BreakFree(line)
    requires end == "\r\n" || (|end| == 1 && IsBreak(end[0]) && (end == "\r" ==> rest == "" || rest[0] != '\n'))
    ensures SplitLines(line + end + rest) == [line] + SplitLines(rest)
    ensures line != "" ==> SplitLines(line) == [line]
  {
    hide SplitLines, IsBreak, BreakFree;
    assert line + end + rest == line + (end + rest);
    BreaksAre();
    assert (end + rest)[|end|..] == rest && (end + rest)[0] == end[0];
    SplitBefore(line, end + rest);
    if line != "" { SplitSingle(line); }
  }

  lemma {:induction false} SplitBefore(line: string, tail: string)
    requires BreakFree(line) && tail != "" && IsBreak(tail[0])
    ensures var w := if tail[0] == '\r' && |tail| > 1 && tail[1] == '\n' then 2 else 1;
            SplitLines(line + tail) == [line] + SplitLines(tail[w..])
  {
    hide SplitLines, FirstBreak, IsBreak, BreakFree;
    var s := line + tail;
    FirstBreakAt(line, tail);
    SplitOff(s);
    var w := BreakWidth(s, |line|);
    assert s[..|line|] == line && s[|line| + w..] == tail[w..];
  }

  /** The ten characters that end a line. */
  lemma BreaksAre()
    ensures forall c: char :: IsBreak(c) <==> c in "\n\r\U{0B}\U{0C}\U{1C}\U{1D}\U{1E}\U{85}\U{2028}\U{2029}"
  {
    var breaks := ['\n', '\r', '\U{0B}', '\U{0C}', '\U{1C}', '\U{1D}', '\U{1E}', '\U{85}', '\U{2028}', '\U{2029}'];
    assert breaks == "\n\r\U{0B}\U{0C}\U{1C}\U{1D}\U{1E}\U{85}\U{2028}\U{2029}";
  }

  /** Where the lines with a property stand. */
  ghost function Places(lines: seq<string>, p: string -> bool): (s: set<int>)
    ensures forall i :: i in s <==> 0 <= i < |lines| && p(lines[i])
  {
    set i | 0 <= i < |lines| && p(lines[i])
  }

  lemma PlacesNext(lines: seq<string>, line: string, p: string -> bool)
    ensures |Places(lines + [line], p)| == |Places(lines, p)| + (if p(line) then 1 else 0)
  {
    var before, after := Places(lines, p), Places(lines + [line], p);
    assert after == if p(line) then before + {|lines|} else before;
  }

  // -------------------------------------------------------------- UTF-8 length

  function CharBytes(c: char): (n: nat)
    ensures n >= 1
  {
    if c < '\U{80}' then 1 else if c < '\U{800}' then 2 else if c < '\U{10000}' then 3 else 4
  }

  function Bytes(s: string): nat {
    if s == "" then 0 else CharBytes(s[0]) + Bytes(s[1..])
  }

  /** A character takes one byte, and one more from U+0080, from U+0800 and from
      U+10000 on. */
  lemma {:induction false} BytesAre(s: string, two: set<int>, three: set<int>, four: set<int>)
    requires forall i :: i in two <==> 0 <= i < |s| && s[i] >= '\U{80}'
    requires forall i :: i in three <==> 0 <= i < |s| && s[i] >= '\U{800}'
    requires forall i :: i in four <==> 0 <= i < |s| && s[i] >= '\U{10000}'
    ensures Bytes(s) == |s| + |two| + |three| + |four|
  {
    if s == "" {
      Nowhere(two);
      Nowhere(three);
      Nowhere(four);
    } else {
      var n := |s| - 1;
      assert s == s[..n] + [s[n]] && [s[n]][1..] == "";
      BytesAppend(s[..n], [s[n]]);
      BytesAre(s[..n], two - {n}, three - {n}, four - {n});
    }
  }

  lemma Nowhere(places: set<int>)
    requires forall i :: i !in places
    ensures |places| == 0
  {
    if places != {} { var i := Pick(places); }
  }

  lemma {:induction false} BytesAppend(a: string, b: string)
    ensures Bytes(a + b) == Bytes(a) + Bytes(b)
  {
    if a == "" {
      assert a + b == b;
    } else {
      BytesAppend(a[1..], b);
      assert (a + b)[1..] == a[1..] + b;
    }
  }

  /** The bytes of the lines themselves. */
  function LineBytes(lines: seq<string>): nat {
    if lines == [] then 0 else Bytes(lines[0]) + LineBytes(lines[1..])
  }

  lemma {:induction false} JoinBytes(lines: seq<string>)
    ensures Bytes(Join(lines)) == LineBytes(lines) + (if lines == [] then 0 else |lines| - 1)
  {
    if |lines| > 1 {
      JoinBytes(lines[1..]);
      BytesAppend(lines[0] + "\n", Join(lines[1..]));
      BytesAppend(lines[0], "\n");
    } else if |lines| == 1 {
      assert lines[1..] == [];
    }
  }

  lemma NoNewline(s: string)
    requires BreakFree(s)
    ensures !EndsWithNewline(s)
  {
  }

  /** A text has at least the bytes of its lines and one for each line ended. */
  lemma {:induction false} SplitBytes(s: string)
    requires s != ""
    ensures Bytes(s) >= LineBytes(SplitLines(s)) + |SplitLines(s)| - (if EndsWithNewline(s) then 0 else 1)
    decreases |s|
  {
    hide IsBreak, BreakFree, FirstBreak, BreakWidth, CharBytes, SplitLines;
    var n := FirstBreak(s);
    SplitOff(s);
    if n == |s| {
      assert LineBytes([s]) == Bytes(s) by { assert [s][1..] == []; }
    } else {
      var w := BreakWidth(s, n);
      var line, end, rest := s[..n], s[n..n + w], s[n + w..];
      assert s == line + (end + rest);
      BytesAppend(line, end + rest);
      BytesAppend(end, rest);
      assert Bytes(end) >= 1;
      assert ([line] + SplitLines(rest))[1..] == SplitLines(rest);
      if rest != "" { SplitBytes(rest); }
    }
  }

  /** How a text is split into its first line and the rest. */
  lemma SplitOff(s: string)
    requires s != ""
    ensures var n := FirstBreak(s);
            if n == |s| then SplitLines(s) == [s] && !EndsWithNewline(s)
            else SplitLines(s) == [s[..n]] + SplitLines(s[n + BreakWidth(s, n)..])
  {
    SplitUnfolds(s);
    hide SplitLines, FirstBreak, IsBreak, BreakFree, BreakWidth;
    var n := FirstBreak(s);
    if n == |s| {
      assert s[..n] == s;
      NoNewline(s);
    }
  }

  lemma SplitUnfolds(s: string)
    requires s != ""
    ensures var n := FirstBreak(s);
            SplitLines(s) == if n == |s| then [s[..n]] else [s[..n]] + SplitLines(s[n + BreakWidth(s, n)..])
  {
    hide FirstBreak, BreakFree, IsBreak;
  }
}
