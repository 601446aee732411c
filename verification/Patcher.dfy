/** The SEARCH/REPLACE patcher of rfsn_swebench/patcher.py. */
module Patcher {
  import opened Common

  // ------------------------------------------------------------------ searching

  predicate At(s: string, pat: string, i: nat) {
    i + |pat| <= |s| && forall k :: 0 <= k < |pat| ==> s[i + k] == pat[k]
  }

  lemma AtIsSlice(s: string, pat: string, i: nat)
    ensures At(s, pat, i) <==> i + |pat| <= |s| && s[i..i + |pat|] == pat
  {
    if i + |pat| <= |s| && s[i..i + |pat|] == pat {
      forall k | 0 <= k < |pat|
        ensures s[i + k] == pat[k]
      {
        assert s[i + k] == s[i..i + |pat|][k];
      }
    }
  }

  /** The leftmost occurrence at or behind `from`. */
  function Find(s: string, pat: string, from: nat): (r: Option<nat>)
    ensures r.Some? ==> from <= r.value && At(s, pat, r.value)
    decreases |s| - from
  {
    if from + |pat| > |s| then None else if At(s, pat, from) then Some(from) else Find(s, pat, from + 1)
  }

  /** Occurrences that do not overlap, counted from the left: `str.count`. */
  function CountFrom(s: string, pat: string, from: nat): nat
    requires pat != ""
    decreases |s| - from
  {
    match Find(s, pat, from)
    case None => 0
    case Some(i) => 1 + CountFrom(s, pat, i + |pat|)
  }

  lemma {:induction false} FindFirst(s: string, pat: string, from: nat, j: nat)
    requires from <= j && At(s, pat, j)
    ensures Find(s, pat, from).Some? && Find(s, pat, from).value <= j
    decreases |s| - from
  {
    if !At(s, pat, from) { FindFirst(s, pat, from + 1, j); }
  }

  /** What `Find` returns is settled by where the text occurs. */
  lemma FindIs(s: string, pat: string, from: nat, r: Option<nat>)
    requires r.Some? ==> from <= r.value && At(s, pat, r.value)
    requires forall j :: from <= j && (r.Some? ==> j < r.value) ==> !At(s, pat, j)
    ensures Find(s, pat, from) == r
  {
    if r.Some? { FindFirst(s, pat, from, r.value); }
  }

  // ------------------------------------------------------------ one replacement

  datatype Patched = Done(content: string) | NoOp | Conflict

  function Spliced(content: string, i: nat, n: nat, replace: string): string
    requires i + n <= |content|
  {
    content[..i] + replace + content[i + n..]
  }

  function ApplyOne(content: string, search: string, replace: string): Patched {
    if search == "" then Conflict
    else if search == replace then NoOp
    else if CountFrom(content, search, 0) != 1 then Conflict
    else Done(Spliced(content, Find(content, search, 0).value, |search|, replace))
  }

  /** A patch applies exactly when the text searched for is not empty, differs
      from its replacement, and occurs with no occurrence lying behind its
      leftmost one (one that only overlaps it is not noticed). */
  lemma AppliesWhen(content: string, search: string, replace: string)
    ensures ApplyOne(content, search, replace).Done? <==>
            search != "" && search != replace && Find(content, search, 0).Some?
            && forall j :: j >= Find(content, search, 0).value + |search| ==> !At(content, search, j)
  {
    if search != "" && Find(content, search, 0).Some? {
      var next := Find(content, search, 0).value + |search|;
      if Find(content, search, next).None? {
        forall j | j >= next
          ensures !At(content, search, j)
        {
          if At(content, search, j) { FindFirst(content, search, next, j); }
        }
        assert CountFrom(content, search, next) == 0;
      } else {
        assert At(content, search, Find(content, search, next).value) && CountFrom(content, search, next) >= 1;
      }
    }
  }

  /** What comes out: where the text searched for ends what stands before an
      occurrence of it nowhere sooner, that occurrence is replaced and nothing else;
      a replacement equal to the text searched for is refused as no change, and
      anything else that does not apply as a conflict. */
  lemma {:induction false} AppliedContent(before: string, search: string, replace: string, after: string)
    requires forall i :: 0 <= i < |before| ==> !At(before + search + after, search, i)
    ensures var r := ApplyOne(before + search + after, search, replace);
            && (r.Done? ==> r.content == before + replace + after)
            && (r == NoOp <==> search != "" && search == replace)
  {
    hide CountFrom;
    var content := before + search + after;
    assert content[|before|..|before| + |search|] == search;
    AtIsSlice(content, search, |before|);
    FindIs(content, search, 0, Some(|before|));
    assert content[..|before|] == before && content[|before| + |search|..] == after;
  }

  /** The leftmost occurrence is at `i`, and none lies behind it. */
  ghost predicate OccursFirst(s: string, pat: string, i: nat) {
    Find(s, pat, 0) == Some(i) && forall j :: j >= i + |pat| ==> !At(s, pat, j)
  }

  /** Swapping search and replacement undoes a replacement exactly when what was put
      in is not empty, is then its own leftmost occurrence, and has no other behind
      it. */
  lemma {:induction false} UndoOne(content: string, search: string, replace: string)
    requires ApplyOne(content, search, replace).Done?
    ensures var after := ApplyOne(content, search, replace).content;
            ApplyOne(after, replace, search) == Done(content) <==>
            replace != "" && OccursFirst(after, replace, Find(content, search, 0).value)
  {
    hide CountFrom;
    AppliesWhen(content, search, replace);
    var i := Find(content, search, 0).value;
    var after := Spliced(content, i, |search|, replace);
    AppliesWhen(after, replace, search);
    SpliceBack(content, search, replace, i);
    FindFirst(after, replace, 0, i);
    var j := Find(after, replace, 0).value;
    if j < i && ApplyOne(after, replace, search) == Done(content) {
      SplicedAt(after, j, |replace|, search);
      FindFirst(content, search, 0, j);
    }
  }

  lemma SplicedAt(content: string, i: nat, n: nat, replace: string)
    requires i + n <= |content|
    ensures At(Spliced(content, i, n, replace), replace, i)
  {
  }

  /** Putting `replace` in for an occurrence of `search` puts an occurrence of it
      at the same place, and the other way round gives the content back. */
  lemma SpliceBack(content: string, search: string, replace: string, i: nat)
    requires At(content, search, i)
    ensures var after := Spliced(content, i, |search|, replace);
            At(after, replace, i) && Spliced(after, i, |replace|, search) == content
  {
    var after := Spliced(content, i, |search|, replace);
    assert after[..i] == content[..i] && after[i + |replace|..] == content[i + |search|..];
    assert after[i..i + |replace|] == replace;
    AtIsSlice(after, replace, i);
    AtIsSlice(content, search, i);
    assert content == content[..i] + content[i..i + |search|] + content[i + |search|..];
  }

  // -------------------------------------------------------------------- blocks

  datatype Block = Block(search: string, replace: string)

  const HEAD := "<<<<<<< SEARCH\n"
  const MIDDLE := "\n=======\n"
  const TAIL := "\n>>>>>>> REPLACE"

  /** Where the header, the divider and the footer of a block begin. */
  datatype Place = Place(h: nat, m: nat, e: nat)

  /** The first block at or behind `from`: by the leftmost header, then the
      nearest divider, then the nearest footer. */
  function ScanFrom(text: string, from: nat): (r: Option<Place>)
    ensures r.Some? ==> from <= r.value.h && Matches(text, r.value)
  {
    match Find(text, HEAD, from)
    case None => None
    case Some(h) =>
      match Find(text, MIDDLE, h + |HEAD|)
      case None => None
      case Some(m) =>
        match Find(text, TAIL, m + |MIDDLE|)
        case None => None
        case Some(e) => Some(Place(h, m, e))
  }

  /** A match of the block pattern: the delimiters at these places, in this order
      and without overlap. */
  predicate Matches(text: string, p: Place) {
    At(text, HEAD, p.h) && p.h + |HEAD| <= p.m && At(text, MIDDLE, p.m) && p.m + |MIDDLE| <= p.e && At(text, TAIL, p.e)
  }

  function BlockAt(text: string, p: Place): Block
    requires Matches(text, p)
  {
    Block(text[p.h + |HEAD|..p.m], text[p.m + |MIDDLE|..p.e])
  }

  function Parse(text: string, from: nat): seq<Block>
    decreases |text| - from
  {
    match ScanFrom(text, from)
    case None => []
    case Some(p) => [BlockAt(text, p)] + Parse(text, p.e + |TAIL|)
  }

  /** The scanner is the non-greedy pattern match: it finds a block whenever the
      pattern matches at all, at the leftmost header, there with the nearest
      divider, and there with the nearest footer. */
  lemma ScanIsNonGreedy(text: string, from: nat, p: Place)
    requires Matches(text, p) && from <= p.h
    ensures ScanFrom(text, from).Some?
    ensures var q := ScanFrom(text, from).value;
            && q.h <= p.h && q.m <= p.m && q.e <= p.e
            && (forall j :: from <= j && At(text, HEAD, j) ==> q.h <= j)
            && (forall j :: q.h + |HEAD| <= j && At(text, MIDDLE, j) ==> q.m <= j)
            && (forall j :: q.m + |MIDDLE| <= j && At(text, TAIL, j) ==> q.e <= j)
  {
    hide HEAD, MIDDLE, TAIL, At;
    FindFirst(text, HEAD, from, p.h);
    var h := Find(text, HEAD, from).value;
    FindFirst(text, MIDDLE, h + |HEAD|, p.m);
    var m := Find(text, MIDDLE, h + |HEAD|).value;
    FindFirst(text, TAIL, m + |MIDDLE|, p.e);
    forall j | from <= j && At(text, HEAD, j) ensures h <= j { FindFirst(text, HEAD, from, j); }
    forall j | h + |HEAD| <= j && At(text, MIDDLE, j) ensures m <= j { FindFirst(text, MIDDLE, h + |HEAD|, j); }
    forall j | m + |MIDDLE| <= j && At(text, TAIL, j)
      ensures Find(text, TAIL, m + |MIDDLE|).value <= j
    {
      FindFirst(text, TAIL, m + |MIDDLE|, j);
    }
  }

  // ---------------------------------------------------------------- round trip

  function PrintBlock(b: Block): string { HEAD + b.search + MIDDLE + b.replace + TAIL }

  function Print(blocks: seq<Block>): string {
    if blocks == [] then "" else PrintBlock(blocks[0]) + "\n" + Print(blocks[1..])
  }

  /** In the printed block, divider and footer first occur where they are printed. */
  predicate Printable(b: Block) {
    Find(b.search + MIDDLE, MIDDLE, 0) == Some(|b.search|) && Find(b.replace + TAIL, TAIL, 0) == Some(|b.replace|)
  }

  lemma AtInside(text: string, s: string, n: nat, pat: string, i: nat)
    requires At(text, s, n) && i + |pat| <= |s|
    ensures At(text, pat, n + i) <==> At(s, pat, i)
  {
    if At(s, pat, i) {
      forall k | 0 <= k < |pat|
        ensures text[n + i + k] == pat[k]
      {
        assert text[n + (i + k)] == s[i + k];
      }
    }
    if At(text, pat, n + i) {
      forall k | 0 <= k < |pat|
        ensures s[i + k] == pat[k]
      {
        assert text[n + (i + k)] == s[i + k] && text[n + i + k] == pat[k];
      }
    }
  }

  lemma AtConcat(text: string, a: string, b: string, n: nat)
    ensures At(text, a + b, n) <==> At(text, a, n) && At(text, b, n + |a|)
  {
    AtIsSlice(text, a + b, n);
    AtIsSlice(text, a, n);
    AtIsSlice(text, b, n + |a|);
    hide At;
    if n + |a + b| <= |text| {
      assert text[n..n + |a + b|] == text[n..n + |a|] + text[n + |a|..n + |a| + |b|];
      assert (a + b)[..|a|] == a && (a + b)[|a|..] == b;
    }
  }

  lemma AtItself(s: string)
    ensures At(s, s, 0)
  {
  }

  /** Where `s + pat` lies in a text, the first occurrence of `pat` from there on
      is the first one in `s + pat`. */
  lemma FindInside(text: string, s: string, pat: string, n: nat)
    requires At(text, s + pat, n)
    ensures Find(s + pat, pat, 0).Some? && Find(s + pat, pat, 0).value <= |s|
    ensures Find(text, pat, n) == Some(n + Find(s + pat, pat, 0).value)
  {
    hide At, Find;
    var t := s + pat;
    AtItself(t);
    AtConcat(t, s, pat, 0);
    FindFirst(t, pat, 0, |s|);
    var i := Find(t, pat, 0).value;
    AtInside(text, t, n, pat, i);
    forall j | n <= j < n + i
      ensures !At(text, pat, j)
    {
      AtInside(text, t, n, pat, j - n);
      if At(t, pat, j - n) { FindFirst(t, pat, 0, j - n); }
    }
    FindIs(text, pat, n, Some(n + i));
  }

  /** The parts of a block where it lies in a text. */
  lemma PrintedParts(text: string, n: nat, b: Block)
    requires At(text, PrintBlock(b), n)
    ensures var n1 := n + |HEAD|;
            var n2 := n1 + |b.search| + |MIDDLE|;
            && At(text, HEAD, n) && At(text, b.search + MIDDLE, n1) && At(text, b.replace + TAIL, n2)
            && At(text, b.search, n1) && At(text, b.replace, n2)
            && n + |PrintBlock(b)| == n2 + |b.replace| + |TAIL|
  {
    hide HEAD, MIDDLE, TAIL, At;
    var n1 := n + |HEAD|;
    var n2 := n1 + |b.search| + |MIDDLE|;
    AtConcat(text, HEAD + b.search + MIDDLE + b.replace, TAIL, n);
    AtConcat(text, HEAD + b.search + MIDDLE, b.replace, n);
    AtConcat(text, HEAD + b.search, MIDDLE, n);
    AtConcat(text, HEAD, b.search, n);
    AtConcat(text, b.search, MIDDLE, n1);
    AtConcat(text, b.replace, TAIL, n2);
  }

  /** Where the divider and the footer of a printed block are found. */
  lemma PrintedPlace(text: string, n: nat, b: Block, n1: nat, n2: nat) returns (m: nat, e: nat)
    requires At(text, PrintBlock(b), n) && n1 == n + |HEAD| && n2 == n1 + |b.search| + |MIDDLE|
    ensures Find(b.search + MIDDLE, MIDDLE, 0) == Some(m) && Find(b.replace + TAIL, TAIL, 0) == Some(e)
    ensures Find(text, HEAD, n) == Some(n) && Find(text, MIDDLE, n1) == Some(n1 + m) && Find(text, TAIL, n2) == Some(n2 + e)
  {
    hide HEAD, MIDDLE, TAIL, PrintBlock, At, Find;
    PrintedParts(text, n, b);
    FindIs(text, HEAD, n, Some(n));
    FindInside(text, b.search, MIDDLE, n1);
    FindInside(text, b.replace, TAIL, n2);
    m := Find(b.search + MIDDLE, MIDDLE, 0).value;
    e := Find(b.replace + TAIL, TAIL, 0).value;
  }

  /** How a printed block is scanned, wherever it lies. */
  lemma ScanPrinted(text: string, n: nat, b: Block)
    requires At(text, PrintBlock(b), n)
    ensures var p := ScanFrom(text, n);
            if Printable(b) then p.Some? && BlockAt(text, p.value) == b && p.value.e + |TAIL| == n + |PrintBlock(b)|
            else p.None? || BlockAt(text, p.value) != b
  {
    hide HEAD, MIDDLE, TAIL, PrintBlock, Find;
    var n1 := n + |HEAD|;
    var n2 := n1 + |b.search| + |MIDDLE|;
    var m, e := PrintedPlace(text, n, b, n1, n2);
    PrintedParts(text, n, b);
    AtIsSlice(text, b.search, n1);
    AtIsSlice(text, b.replace, n2);
    if m != |b.search| {
      assert ScanFrom(text, n).Some? ==> |BlockAt(text, ScanFrom(text, n).value).search| == m;
    } else {
      assert ScanFrom(text, n) == Some(Place(n, n1 + m, n2 + e));
    }
  }

  lemma ParseSame(text: string, n: nat, n': nat)
    requires ScanFrom(text, n) == ScanFrom(text, n')
    ensures Parse(text, n) == Parse(text, n')
  {
    hide ScanFrom, BlockAt, TAIL;
  }

  lemma NoHeadAtNewline(text: string, n: nat)
    requires n < |text| && text[n] == '\n'
    ensures ScanFrom(text, n) == ScanFrom(text, n + 1)
  {
    hide MIDDLE, TAIL, Matches;
    assert text[n + 0] != HEAD[0];
    assert !At(text, HEAD, n);
    assert Find(text, HEAD, n) == Find(text, HEAD, n + 1);
  }

  lemma PrintedLies(text: string, n: nat, blocks: seq<Block>)
    requires blocks != [] && At(text, Print(blocks), n)
    ensures var n' := n + |PrintBlock(blocks[0])|;
            && At(text, PrintBlock(blocks[0]), n) && n' < |text| && text[n'] == '\n' && At(text, Print(blocks[1..]), n' + 1)
            && n + |Print(blocks)| == n' + 1 + |Print(blocks[1..])|
  {
    var block, rest := PrintBlock(blocks[0]), Print(blocks[1..]);
    assert Print(blocks) == block + "\n" + rest;
    hide PrintBlock, Print;
    AtConcat(text, block + "\n", rest, n);
    AtConcat(text, block, "\n", n);
    assert text[n + |block| + 0] == "\n"[0];
  }

  /** Blocks printed at the end of a text parse back if and only if printable. */
  lemma {:induction false} ParsePrinted(text: string, n: nat, blocks: seq<Block>)
    requires At(text, Print(blocks), n) && n + |Print(blocks)| == |text|
    ensures Parse(text, n) == blocks <==> forall i :: 0 <= i < |blocks| ==> Printable(blocks[i])
    decreases |blocks|
  {
    if blocks == [] {
      assert Find(text, HEAD, n).None?;
    } else {
      var b, others := blocks[0], blocks[1..];
      PrintedLies(text, n, blocks);
      ScanPrinted(text, n, b);
      hide HEAD, MIDDLE, TAIL, PrintBlock, Printable, BlockAt, ScanFrom, Print, At, Find;
      ParseOnce(text, n);
      PrintableSplit(blocks);
      hide Parse;
      if Printable(b) {
        var n' := n + |PrintBlock(b)|;
        NoHeadAtNewline(text, n');
        ParseSame(text, n', n' + 1);
        ParsePrinted(text, n' + 1, others);
        Consed(b, Parse(text, n'), blocks);
      }
    }
  }

  lemma Consed(b: Block, rest: seq<Block>, blocks: seq<Block>)
    requires blocks != [] && blocks[0] == b
    ensures [b] + rest == blocks <==> rest == blocks[1..]
  {
    assert blocks == [b] + blocks[1..];
    assert ([b] + rest)[1..] == rest;
  }

  lemma ParseOnce(text: string, n: nat)
    ensures Parse(text, n) == match ScanFrom(text, n)
                              case None => []
                              case Some(p) => [BlockAt(text, p)] + Parse(text, p.e + |TAIL|)
  {
    hide BlockAt, ScanFrom, TAIL;
  }

  lemma PrintableSplit(blocks: seq<Block>)
    requires blocks != []
    ensures (forall i :: 0 <= i < |blocks| ==> Printable(blocks[i])) <==>
            Printable(blocks[0]) && forall i :: 0 <= i < |blocks[1..]| ==> Printable(blocks[1..][i])
  {
    hide Printable;
    assert forall i :: 0 <= i < |blocks[1..]| ==> blocks[1..][i] == blocks[i + 1];
    if Printable(blocks[0]) && forall i :: 0 <= i < |blocks[1..]| ==> Printable(blocks[1..][i]) {
      forall i | 0 <= i < |blocks|
        ensures Printable(blocks[i])
      {
        if i > 0 { assert Printable(blocks[1..][i - 1]); }
      }
    }
  }

  /** Printing blocks and parsing the text gives the same blocks exactly when, in
      each of them, both delimiters first occur where they are printed. */
  lemma {:induction false} PrintThenParse(blocks: seq<Block>)
    ensures Parse(Print(blocks), 0) == blocks <==> forall i :: 0 <= i < |blocks| ==> Printable(blocks[i])
  {
    ParsePrinted(Print(blocks), 0, blocks);
  }

  /** A text of one block as it is written, line by line, is read as that block. */
  lemma {:induction false} ReadsOneBlock(search: string, replace: string)
    requires Printable(Block(search, replace))
    ensures Parse("<<<<<<< SEARCH\n" + search + "\n=======\n" + replace + "\n>>>>>>> REPLACE", 0) == [Block(search, replace)]
  {
    var b := Block(search, replace);
    var text := PrintBlock(b);
    AtItself(text);
    ScanPrinted(text, 0, b);
    HeadFits();
    hide Printable, BlockAt, At, MIDDLE, TAIL, PrintBlock;
    ParseOnce(text, 0);
    NothingBehind(text);
  }

  lemma HeadFits()
    ensures |HEAD| > 0
  {
  }

  lemma NothingBehind(text: string)
    ensures Parse(text, |text|) == []
  {
    HeadFits();
    assert Find(text, HEAD, |text|).None?;
  }

  // --------------------------------------------------------------- the patcher

  function ApplyAll(content: string, blocks: seq<Block>): Patched
    decreases |blocks|
  {
    if blocks == [] then Done(content)
    else
      match ApplyOne(content, blocks[0].search, blocks[0].replace)
      case Done(next) => ApplyAll(next, blocks[1..])
      case failure => failure
  }

  /** In turn: a sequence of contents each made from the one before by its block is
      what the blocks make, as far as it goes. */
  lemma {:induction false} AppliedInTurn(contents: seq<string>, blocks: seq<Block>)
    requires contents != [] && |contents| <= |blocks| + 1
    requires forall i :: 0 <= i < |contents| - 1 ==> ApplyOne(contents[i], blocks[i].search, blocks[i].replace) == Done(contents[i + 1])
    ensures var n := |contents| - 1;
            && (n == |blocks| ==> ApplyAll(contents[0], blocks) == Done(contents[n]))
            && (n < |blocks| && !ApplyOne(contents[n], blocks[n].search, blocks[n].replace).Done? ==>
                  ApplyAll(contents[0], blocks) == ApplyOne(contents[n], blocks[n].search, blocks[n].replace))
    decreases |contents|
  {
    hide ApplyOne;
    if |contents| > 1 {
      var rest := contents[1..];
      assert ApplyOne(contents[0], blocks[0].search, blocks[0].replace) == Done(contents[0 + 1]);
      forall i | 0 <= i < |rest| - 1
        ensures ApplyOne(rest[i], blocks[1..][i].search, blocks[1..][i].replace) == Done(rest[i + 1])
      {
        assert ApplyOne(contents[i + 1], blocks[i + 1].search, blocks[i + 1].replace) == Done(contents[(i + 1) + 1]);
      }
      AppliedInTurn(rest, blocks[1..]);
    }
  }

  class SemanticPatcher {
    var content: string

    constructor (content: string)
      ensures this.content == content
    {
      this.content := content;
    }

    /** A text without blocks is refused; a block that fails leaves the content. */
    method ApplyPatches(patchText: string) returns (r: Patched)
      modifies this
      ensures r == if Parse(patchText, 0) == [] then Conflict else ApplyAll(old(content), Parse(patchText, 0))
      ensures content == if r.Done? then r.content else old(content)
    {
      var blocks := Parse(patchText, 0);
      if blocks == [] {
        return Conflict;
      }
      var current := content;
      for i := 0 to |blocks|
        invariant ApplyAll(content, blocks) == ApplyAll(current, blocks[i..])
      {
        assert blocks[i..][0] == blocks[i] && blocks[i..][1..] == blocks[i + 1..];
        var step := ApplyOne(current, blocks[i].search, blocks[i].replace);
        if !step.Done? {
          return step;
        }
        current := step.content;
      }
      content := current;
      r := Done(current);
    }
  }

  // ---------------------------------------------------------------------- undo

  /** Every block applies, and what it put in then occurs only once. */
  ghost predicate Reversible(content: string, blocks: seq<Block>)
    decreases |blocks|
  {
    blocks == [] ||
    var step := ApplyOne(content, blocks[0].search, blocks[0].replace);
    step.Done? && blocks[0].replace != "" && OccursFirst(step.content, blocks[0].replace, Find(content, blocks[0].search, 0).value)
    && Reversible(step.content, blocks[1..])
  }

  function Undo(blocks: seq<Block>): seq<Block> {
    if blocks == [] then [] else Undo(blocks[1..]) + [Block(blocks[0].replace, blocks[0].search)]
  }

  lemma {:induction false} ApplyThenOne(content: string, blocks: seq<Block>, last: Block)
    requires ApplyAll(content, blocks).Done?
    ensures ApplyAll(content, blocks + [last]) == ApplyOne(ApplyAll(content, blocks).content, last.search, last.replace)
    decreases |blocks|
  {
    if blocks == [] {
      assert [last][1..] == [] && blocks + [last] == [last];
      var step := ApplyOne(content, last.search, last.replace);
      if step.Done? { assert ApplyAll(step.content, []) == step; }
    } else {
      assert (blocks + [last])[1..] == blocks[1..] + [last];
      ApplyThenOne(ApplyOne(content, blocks[0].search, blocks[0].replace).content, blocks[1..], last);
    }
  }

  /** Applying the blocks and then the swapped blocks in reverse order restores
      the content. */
  lemma {:induction false} UndoRestores(content: string, blocks: seq<Block>)
    requires Reversible(content, blocks)
    ensures ApplyAll(content, blocks).Done?
    ensures ApplyAll(ApplyAll(content, blocks).content, Undo(blocks)) == Done(content)
    decreases |blocks|
  {
    if blocks != [] {
      var b := blocks[0];
      var next := ApplyOne(content, b.search, b.replace).content;
      UndoRestores(next, blocks[1..]);
      UndoOne(content, b.search, b.replace);
      ApplyThenOne(ApplyAll(next, blocks[1..]).content, Undo(blocks[1..]), Block(b.replace, b.search));
    }
  }
}
