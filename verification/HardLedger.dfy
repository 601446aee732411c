/** The hash-chained execution ledger of rfsn_kernel/hard_ledger.py.

    `sha` stands for SHA-256 in hexadecimal and `canon` for the canonical JSON
    text. Nothing is assumed of them but the digest width, and for tamper
    evidence that the finitely many texts hashed in the files compared do not
    collide. `ts` and `metadata` are stored but not hashed. */
module HardLedger {
  import opened Common
  import opened Json

  /** The eight hashed fields. */
  datatype Body = Body(proposalHash: string, simulation: Json, risk: Json, decision: string, decisionReason: string,
                       outcomeHash: Option<string>, stateHash: string, verification: Option<Json>)

  type Metadata = map<string, Json>

  datatype Record = Record(body: Body, entryHash: string, prevChainHash: string, chainHash: string, ts: real, metadata: Metadata)

  /** A line of the file. `Unsealed` is a record stored without a chain hash. */
  datatype Line = Blank | Malformed | Stored(rec: Record) | Unsealed(rec: Record)

  datatype Hasher = Hasher(sha: string -> string, canon: Body -> string)

  const ZEROS := "0000000000000000000000000000000000000000000000000000000000000000"

  ghost predicate Digest(h: Hasher) {
    forall s :: |h.sha(s)| == 64
  }

  function EntryHash(h: Hasher, body: Body): string { h.sha(h.canon(body)) }

  function ChainHash(h: Hasher, prev: string, entryHash: string): string { h.sha(prev + entryHash) }

  /** The record as `append` completes it behind the chain hash `prev`. */
  function Sealed(h: Hasher, prev: string, body: Body, ts: real, metadata: Metadata): Record {
    Record(body, EntryHash(h, body), prev, ChainHash(h, prev, EntryHash(h, body)), ts, metadata)
  }

  // ------------------------------------------------------------ verification

  datatype Fault = ParseError | MissingHashes | ChainBreak | EntryMismatch | ChainMismatch

  datatype Error = Error(line: nat, fault: Fault)

  predicate HasHashes(rec: Record) {
    rec.entryHash != "" && rec.prevChainHash != "" && rec.chainHash != ""
  }

  function RecordErrors(h: Hasher, prev: string, rec: Record, line: nat): seq<Error> {
    (if rec.prevChainHash != prev then [Error(line, ChainBreak)] else [])
    + (if EntryHash(h, rec.body) != rec.entryHash then [Error(line, EntryMismatch)] else [])
    + (if ChainHash(h, prev, rec.entryHash) != rec.chainHash then [Error(line, ChainMismatch)] else [])
  }

  function LineErrors(h: Hasher, prev: string, l: Line, line: nat): seq<Error> {
    match l
    case Blank => []
    case Malformed => [Error(line, ParseError)]
    case Stored(rec) => if HasHashes(rec) then RecordErrors(h, prev, rec, line) else [Error(line, MissingHashes)]
    case Unsealed(_) => [Error(line, MissingHashes)]
  }

  /** The hash the next record must point to, as verification tracks it. */
  function VerifyPrev(prev: string, l: Line): string {
    if l.Stored? && HasHashes(l.rec) then l.rec.chainHash else prev
  }

  function RunningPrev(lines: seq<Line>): string {
    if lines == [] then ZEROS else VerifyPrev(RunningPrev(lines[..|lines| - 1]), lines[|lines| - 1])
  }

  function AllErrors(h: Hasher, lines: seq<Line>): seq<Error> {
    if lines == [] then []
    else
      var front := lines[..|lines| - 1];
      AllErrors(h, front) + LineErrors(h, RunningPrev(front), lines[|lines| - 1], |lines|)
  }

  function EntryCount(lines: seq<Line>): nat {
    if lines == [] then 0
    else EntryCount(lines[..|lines| - 1]) + (if lines[|lines| - 1] == Blank then 0 else 1)
  }

  function Records(lines: seq<Line>): seq<Record> {
    if lines == [] then []
    else
      Records(lines[..|lines| - 1])
      + (match lines[|lines| - 1]
         case Stored(rec) => [rec]
         case Unsealed(rec) => [rec.(chainHash := "")]
         case _ => [])
  }

  /** The hash a ledger opened on the file goes on from: that of the last record
      that has one. */
  function Resumed(lines: seq<Line>): string {
    if lines == [] then ZEROS
    else if lines[|lines| - 1].Stored? then lines[|lines| - 1].rec.chainHash
    else Resumed(lines[..|lines| - 1])
  }

  /** The record is sealed behind `prev`: it points to it, and both its hashes
      are those of its contents. */
  predicate Linked(h: Hasher, prev: string, rec: Record) {
    rec == Sealed(h, prev, rec.body, rec.ts, rec.metadata)
  }

  function Head(recs: seq<Record>): string {
    if recs == [] then ZEROS else recs[|recs| - 1].chainHash
  }

  predicate Chained(h: Hasher, recs: seq<Record>) {
    forall i :: 0 <= i < |recs| ==> Linked(h, Head(recs[..i]), recs[i])
  }

  /** Verification finds no error exactly when no line is malformed and the
      records form a chain from the zero hash, each sealed behind the last. */
  lemma {:induction false} ErrorFreeIsChained(h: Hasher, lines: seq<Line>)
    requires Digest(h)
    ensures AllErrors(h, lines) == [] <==> Malformed !in lines && Chained(h, Records(lines))
    ensures AllErrors(h, lines) == [] ==> RunningPrev(lines) == Resumed(lines) == Head(Records(lines))
  {
    hide Chained, Linked, LineErrors;
    NoErrors(h);
    if lines != [] {
      var front, last := lines[..|lines| - 1], lines[|lines| - 1];
      ErrorFreeIsChained(h, front);
      var recs := Records(front);
      assert lines == front + [last];
      LineFaults(h, RunningPrev(front), |lines|);
      match last
      case Blank => assert Records(lines) == recs;
      case Malformed => assert Malformed in lines;
      case Unsealed(rec) =>
        UnsealedNotLinked(h, Head(recs), rec);
        ChainedAppend(h, recs, rec.(chainHash := ""));
      case Stored(rec) =>
        ChainedAppend(h, recs, rec);
        if AllErrors(h, front) == [] {
          HeadWidth(h, recs);
          LineClean(h, Head(recs), rec, |lines|);
        }
    }
  }

  /** The fields that make a record sealed behind the chain hash `prev`. */
  predicate SealedBy(h: Hasher, prev: string, rec: Record) {
    rec.entryHash == h.sha(h.canon(rec.body)) && rec.prevChainHash == prev && rec.chainHash == h.sha(prev + rec.entryHash)
  }

  lemma {:induction false} ChainedMeans(h: Hasher, recs: seq<Record>)
    ensures Chained(h, recs) <==> forall i :: 0 <= i < |recs| ==> SealedBy(h, Head(recs[..i]), recs[i])
  {
    hide Head, Linked, SealedBy;
    forall i | 0 <= i < |recs|
      ensures Linked(h, Head(recs[..i]), recs[i]) <==> SealedBy(h, Head(recs[..i]), recs[i])
    {
      LinkedMeans(h, Head(recs[..i]), recs[i]);
    }
  }

  lemma LinkedMeans(h: Hasher, prev: string, rec: Record)
    ensures Linked(h, prev, rec) <==> SealedBy(h, prev, rec)
  {
  }

  /** On the fields of a file that verifies: no line is malformed, and every record
      holds the digest of its own canonical text, points to the chain hash before
      it - 64 zeros for the first - and holds the digest of the two joined. */
  lemma {:induction false} VerifiedRecord(h: Hasher, lines: seq<Line>, i: nat)
    requires Digest(h) && AllErrors(h, lines) == [] && i < |Records(lines)|
    ensures var recs := Records(lines);
            && Malformed !in lines
            && recs[i].entryHash == h.sha(h.canon(recs[i].body))
            && recs[i].prevChainHash == (if i > 0 then recs[i - 1].chainHash else "0000000000000000000000000000000000000000000000000000000000000000")
            && recs[i].chainHash == h.sha(recs[i].prevChainHash + recs[i].entryHash)
  {
    hide AllErrors, Records, Digest;
    ErrorFreeIsChained(h, lines);
    LinkedMeans(h, Head(Records(lines)[..i]), Records(lines)[i]);
  }

  /** And any such file verifies. */
  lemma {:induction false} SealedFileVerifies(h: Hasher, lines: seq<Line>)
    requires Digest(h) && Malformed !in lines
    requires var recs := Records(lines);
             && (recs != [] ==> recs[0].prevChainHash == "0000000000000000000000000000000000000000000000000000000000000000")
             && (forall i :: 0 < i < |recs| ==> recs[i].prevChainHash == recs[i - 1].chainHash)
             && forall i :: 0 <= i < |recs| ==>
                  recs[i].entryHash == h.sha(h.canon(recs[i].body)) && recs[i].chainHash == h.sha(recs[i].prevChainHash + recs[i].entryHash)
    ensures AllErrors(h, lines) == []
  {
    hide AllErrors, Records, Digest;
    var recs := Records(lines);
    forall i | 0 <= i < |recs|
      ensures SealedBy(h, Head(recs[..i]), recs[i])
    {
      if i > 0 { assert recs[..i][i - 1] == recs[i - 1]; }
    }
    hide SealedBy, Chained;
    ChainedMeans(h, recs);
    ErrorFreeIsChained(h, lines);
  }

  /** Which errors verification lists, line by line: `before` is the chain hash
      it expects, that of the last record above with all three hashes. */
  lemma {:induction false} ErrorsListed(h: Hasher, lines: seq<Line>, n: nat, fault: Fault)
    ensures Error(n, fault) in AllErrors(h, lines) <==>
            1 <= n <= |lines| &&
            var before := RunningPrev(lines[..n - 1]);
            match lines[n - 1]
            case Blank => false
            case Malformed => fault == ParseError
            case Unsealed(_) => fault == MissingHashes
            case Stored(rec) =>
              if rec.entryHash == "" || rec.prevChainHash == "" || rec.chainHash == "" then fault == MissingHashes
              else (fault == ChainBreak && rec.prevChainHash != before)
                   || (fault == EntryMismatch && rec.entryHash != h.sha(h.canon(rec.body)))
                   || (fault == ChainMismatch && rec.chainHash != h.sha(before + rec.entryHash))
  {
    if lines != [] {
      var front := lines[..|lines| - 1];
      ErrorsListed(h, front, n, fault);
      if 1 <= n <= |front| { assert front[..n - 1] == lines[..n - 1]; }
      LineListed(h, RunningPrev(front), lines[|lines| - 1], |lines|, Error(n, fault));
    }
  }

  lemma LineListed(h: Hasher, prev: string, l: Line, line: nat, e: Error)
    ensures e in LineErrors(h, prev, l, line) <==>
            e.line == line &&
            match l
            case Blank => false
            case Malformed => e.fault == ParseError
            case Unsealed(_) => e.fault == MissingHashes
            case Stored(rec) =>
              if rec.entryHash == "" || rec.prevChainHash == "" || rec.chainHash == "" then e.fault == MissingHashes
              else (e.fault == ChainBreak && rec.prevChainHash != prev)
                   || (e.fault == EntryMismatch && rec.entryHash != h.sha(h.canon(rec.body)))
                   || (e.fault == ChainMismatch && rec.chainHash != h.sha(prev + rec.entryHash))
  {
    if l.Stored? {
      var rec := l.rec;
      var a, b := if rec.prevChainHash != prev then [Error(line, ChainBreak)] else [], if EntryHash(h, rec.body) != rec.entryHash then [Error(line, EntryMismatch)] else [];
      var c := if ChainHash(h, prev, rec.entryHash) != rec.chainHash then [Error(line, ChainMismatch)] else [];
      assert RecordErrors(h, prev, rec, line) == a + b + c;
      assert e in a + b + c <==> e in a || e in b || e in c;
      assert e == Error(e.line, e.fault);
    }
  }

  /** The chain hash expected behind a file, and the one an appender resumes from:
      that of the last record with all three hashes, and of the last record stored
      with a chain hash at all. */
  lemma {:induction false} PrevIs(lines: seq<Line>, i: nat)
    requires i <= |lines|
    requires i == 0 || lines[i - 1].Stored?
    ensures (forall j :: i <= j < |lines| ==> !lines[j].Stored?) ==> Resumed(lines) == if i == 0 then ZEROS else lines[i - 1].rec.chainHash
    ensures (i == 0 || (lines[i - 1].rec.entryHash != "" && lines[i - 1].rec.prevChainHash != "" && lines[i - 1].rec.chainHash != ""))
            && (forall j :: i <= j < |lines| && lines[j].Stored? ==>
                  lines[j].rec.entryHash == "" || lines[j].rec.prevChainHash == "" || lines[j].rec.chainHash == "")
            ==> RunningPrev(lines) == if i == 0 then ZEROS else lines[i - 1].rec.chainHash
  {
    if i < |lines| { PrevIs(lines[..|lines| - 1], i); }
  }

  /** Errors are listed in the order of their lines, and the entries counted are
      the lines that are not blank. */
  lemma {:induction false} ErrorsInOrder(h: Hasher, lines: seq<Line>, i: nat, j: nat)
    requires i <= j < |AllErrors(h, lines)|
    ensures AllErrors(h, lines)[i].line <= AllErrors(h, lines)[j].line
  {
    hide LineErrors;
    var front := lines[..|lines| - 1];
    var early, late := AllErrors(h, front), LineErrors(h, RunningPrev(front), lines[|lines| - 1], |lines|);
    if j < |early| {
      ErrorsInOrder(h, front, i, j);
    } else {
      LineListed(h, RunningPrev(front), lines[|lines| - 1], |lines|, late[j - |early|]);
      if i < |early| {
        var e := early[i];
        ErrorsListed(h, front, e.line, e.fault);
        assert Error(e.line, e.fault) in early;
      } else {
        LineListed(h, RunningPrev(front), lines[|lines| - 1], |lines|, late[i - |early|]);
      }
    }
  }

  lemma {:induction false} EntriesAreNotBlank(lines: seq<Line>)
    ensures EntryCount(lines) == |lines| - multiset(lines)[Blank]
  {
    if lines != [] {
      EntriesAreNotBlank(lines[..|lines| - 1]);
      assert lines == lines[..|lines| - 1] + [lines[|lines| - 1]];
    }
  }

  lemma NoErrors(h: Hasher)
    ensures Chained(h, [])
  {
  }

  lemma LineFaults(h: Hasher, prev: string, line: nat)
    ensures LineErrors(h, prev, Blank, line) == [] && LineErrors(h, prev, Malformed, line) != []
    ensures forall rec :: LineErrors(h, prev, Unsealed(rec), line) != []
  {
  }

  lemma UnsealedNotLinked(h: Hasher, prev: string, rec: Record)
    requires Digest(h)
    ensures !Linked(h, prev, rec.(chainHash := ""))
  {
    assert |ChainHash(h, prev, EntryHash(h, rec.body))| == 64;
  }

  lemma LineClean(h: Hasher, prev: string, rec: Record, line: nat)
    requires Digest(h) && |prev| == 64
    ensures LineErrors(h, prev, Stored(rec), line) == [] <==> Linked(h, prev, rec)
    ensures Linked(h, prev, rec) ==> HasHashes(rec)
  {
  }

  lemma HeadWidth(h: Hasher, recs: seq<Record>)
    requires Digest(h) && Chained(h, recs)
    ensures |Head(recs)| == 64
  {
    if recs != [] { assert Linked(h, Head(recs[..|recs| - 1]), recs[|recs| - 1]); }
  }

  lemma ChainedAppend(h: Hasher, recs: seq<Record>, rec: Record)
    ensures Chained(h, recs + [rec]) <==> Chained(h, recs) && Linked(h, Head(recs), rec)
  {
    var recs' := recs + [rec];
    assert forall i :: 0 <= i <= |recs| ==> recs'[..i] == recs[..i];
    assert Linked(h, Head(recs'[..|recs|]), recs'[|recs|]) == Linked(h, Head(recs), rec);
    forall i | 0 <= i < |recs|
      ensures Linked(h, Head(recs'[..i]), recs'[i]) == Linked(h, Head(recs[..i]), recs[i])
    {
      assert recs'[..i] == recs[..i];
    }
    if Chained(h, recs') {
      forall i | 0 <= i < |recs|
        ensures Linked(h, Head(recs[..i]), recs[i])
      {
        assert Linked(h, Head(recs'[..i]), recs'[i]);
      }
    }
  }

  // ------------------------------------------------------------- the ledger

  /** The file behind a ledger; several ledger objects may hold the same one. */
  class LedgerFile {
    var lines: seq<Line>

    constructor (lines: seq<Line>)
      ensures this.lines == lines
    {
      this.lines := lines;
    }
  }

  datatype Verdict = Verdict(ok: bool, entries: nat, errors: seq<Error>)

  class Ledger {
    const h: Hasher
    const file: LedgerFile
    var prev: string
    var count: nat

    /** Resuming reads every stored line and takes up the last chain hash there is. */
    constructor (h: Hasher, file: LedgerFile)
      ensures this.h == h && this.file == file
      ensures prev == Resumed(file.lines) && count == |Records(file.lines)|
    {
      this.h := h;
      this.file := file;
      prev := ZEROS;
      count := 0;
      new;
      var lines := file.lines;
      for i := 0 to |lines|
        invariant lines == file.lines
        invariant prev == Resumed(lines[..i]) && count == |Records(lines[..i])|
      {
        assert lines[..i + 1][..i] == lines[..i];
        match lines[i] {
          case Stored(rec) =>
            prev := rec.chainHash;
            count := count + 1;
          case Unsealed(_) =>
            count := count + 1;
          case _ =>
        }
      }
      assert lines[..|lines|] == lines;
    }

    method Append(body: Body, ts: real, metadata: Metadata) returns (rec: Record)
      modifies this, file
      ensures rec == Sealed(h, old(prev), body, ts, metadata)
      ensures rec.entryHash == h.sha(h.canon(body)) && rec.chainHash == h.sha(old(prev) + rec.entryHash) && rec.prevChainHash == old(prev)
      ensures file.lines == old(file.lines) + [Stored(rec)]
      ensures prev == rec.chainHash && count == old(count) + 1
    {
      var entryHash := h.sha(h.canon(body));
      var chainHash := h.sha(prev + entryHash);
      rec := Record(body, entryHash, prev, chainHash, ts, metadata);
      file.lines := file.lines + [Stored(rec)];
      prev := rec.chainHash;
      count := count + 1;
    }

    method VerifyChain() returns (v: Verdict)
      ensures v == Verdict(AllErrors(h, file.lines) == [], EntryCount(file.lines), AllErrors(h, file.lines))
    {
      var errors: seq<Error>, prevHash, entries := [], ZEROS, 0;
      var lines := file.lines;
      for i := 0 to |lines|
        invariant errors == AllErrors(h, lines[..i]) && entries == EntryCount(lines[..i])
        invariant prevHash == RunningPrev(lines[..i])
      {
        assert lines[..i + 1][..i] == lines[..i];
        match lines[i] {
          case Blank =>
          case Malformed =>
            entries := entries + 1;
            errors := errors + [Error(i + 1, ParseError)];
          case Unsealed(_) =>
            entries := entries + 1;
            errors := errors + [Error(i + 1, MissingHashes)];
          case Stored(rec) =>
            entries := entries + 1;
            if !HasHashes(rec) {
              errors := errors + [Error(i + 1, MissingHashes)];
            } else {
              errors := errors + RecordErrors(h, prevHash, rec, i + 1);
              prevHash := rec.chainHash;
            }
        }
      }
      assert lines[..|lines|] == lines;
      v := Verdict(errors == [], entries, errors);
    }
  }

  // ---------------------------------------------------------- append histories

  /** What happens to one ledger file: an append through the current ledger
      object, or the process going away and the file being opened again. */
  datatype Action = Append(body: Body, ts: real, metadata: Metadata) | Reopen

  datatype Handle = Handle(lines: seq<Line>, prev: string)

  function Act(h: Hasher, x: Handle, a: Action): Handle {
    match a
    case Append(body, ts, metadata) =>
      var rec := Sealed(h, x.prev, body, ts, metadata);
      Handle(x.lines + [Stored(rec)], rec.chainHash)
    case Reopen => Handle(x.lines, Resumed(x.lines))
  }

  function History(h: Hasher, x: Handle, actions: seq<Action>): Handle {
    if actions == [] then x else Act(h, History(h, x, actions[..|actions| - 1]), actions[|actions| - 1])
  }

  lemma {:induction false} HistoryChained(h: Hasher, x: Handle, actions: seq<Action>)
    requires Digest(h) && Malformed !in x.lines && Chained(h, Records(x.lines)) && x.prev == Head(Records(x.lines))
    ensures var y := History(h, x, actions);
            Malformed !in y.lines && Chained(h, Records(y.lines)) && y.prev == Head(Records(y.lines))
  {
    if actions != [] {
      HistoryChained(h, x, actions[..|actions| - 1]);
      var y := History(h, x, actions[..|actions| - 1]);
      match actions[|actions| - 1]
      case Reopen => ErrorFreeIsChained(h, y.lines);
      case Append(body, ts, metadata) => AppendOne(h, y.lines, Sealed(h, y.prev, body, ts, metadata));
    }
  }

  lemma AppendOne(h: Hasher, lines: seq<Line>, rec: Record)
    ensures Records(lines + [Stored(rec)]) == Records(lines) + [rec]
    ensures Chained(h, Records(lines + [Stored(rec)])) <==>
            Chained(h, Records(lines)) && Linked(h, Head(Records(lines)), rec)
  {
    assert (lines + [Stored(rec)])[..|lines|] == lines;
    ChainedAppend(h, Records(lines), rec);
  }

  /** Any history of appends and reopenings of a ledger verifies, if what it
      started from did - in particular from an empty file. */
  lemma {:induction false} AnyHistoryVerifies(h: Hasher, lines: seq<Line>, actions: seq<Action>)
    requires Digest(h) && AllErrors(h, lines) == []
    ensures AllErrors(h, History(h, Handle(lines, Resumed(lines)), actions).lines) == []
  {
    ErrorFreeIsChained(h, lines);
    HistoryChained(h, Handle(lines, Resumed(lines)), actions);
    ErrorFreeIsChained(h, History(h, Handle(lines, Resumed(lines)), actions).lines);
  }

  /** Two ledger objects on one file are a different matter: an append through
      an object whose `prev` is stale leaves a file that verifies exactly when
      it was not stale after all. */
  lemma {:induction false} StaleWriterBreaksChain(h: Hasher, lines: seq<Line>, prev: string, body: Body, ts: real, metadata: Metadata)
    requires Digest(h) && AllErrors(h, lines) == []
    ensures AllErrors(h, lines + [Stored(Sealed(h, prev, body, ts, metadata))]) == [] <==> prev == Head(Records(lines))
  {
    var rec := Sealed(h, prev, body, ts, metadata);
    ErrorFreeIsChained(h, lines);
    ErrorFreeIsChained(h, lines + [Stored(rec)]);
    AppendOne(h, lines, rec);
  }

  // --------------------------------------------------------- tamper evidence

  /** The texts whose digests the records carry. */
  ghost predicate Hashed(h: Hasher, recs: seq<Record>, text: string) {
    exists i :: 0 <= i < |recs| && (text == h.canon(recs[i].body) || text == recs[i].prevChainHash + recs[i].entryHash)
  }

  /** No two different texts hashed in the two files share a digest, and no two
      different bodies in them share a canonical text. */
  ghost predicate NoCollision(h: Hasher, a: seq<Record>, b: seq<Record>) {
    && (forall s, t :: Hashed(h, a, s) && Hashed(h, b, t) && h.sha(s) == h.sha(t) ==> s == t)
    && (forall i, j :: 0 <= i < |a| && 0 <= j < |b| && h.canon(a[i].body) == h.canon(b[j].body) ==> a[i].body == b[j].body)
  }

  ghost predicate NotZeros(h: Hasher, recs: seq<Record>) {
    forall i :: 0 <= i < |recs| ==> recs[i].chainHash != ZEROS
  }

  lemma {:induction false} SameSealSameBody(h: Hasher, a: seq<Record>, b: seq<Record>)
    requires Digest(h) && Chained(h, a) && Chained(h, b) && NoCollision(h, a, b)
    requires a != [] && b != [] && Head(a) == Head(b)
    ensures a[|a| - 1].body == b[|b| - 1].body && Head(a[..|a| - 1]) == Head(b[..|b| - 1])
  {
    var m, n := |a| - 1, |b| - 1;
    var x, y := a[m], b[n];
    assert Linked(h, Head(a[..m]), x) && Linked(h, Head(b[..n]), y);
    assert Hashed(h, a, x.prevChainHash + x.entryHash) && Hashed(h, b, y.prevChainHash + y.entryHash);
    assert x.prevChainHash + x.entryHash == y.prevChainHash + y.entryHash;
    ChainedFront(h, a);
    ChainedFront(h, b);
    HeadWidth(h, a[..m]);
    HeadWidth(h, b[..n]);
    assert x.prevChainHash == (x.prevChainHash + x.entryHash)[..64] == y.prevChainHash;
    assert x.entryHash == (x.prevChainHash + x.entryHash)[64..] == y.entryHash;
    assert Hashed(h, a, h.canon(x.body)) && Hashed(h, b, h.canon(y.body));
  }

  lemma ChainedFront(h: Hasher, recs: seq<Record>)
    requires Chained(h, recs) && recs != []
    ensures Chained(h, recs[..|recs| - 1])
  {
    hide Chained, Linked;
    var front := recs[..|recs| - 1];
    assert recs == front + [recs[|recs| - 1]];
    ChainedAppend(h, front, recs[|recs| - 1]);
  }

  lemma NoCollisionFront(h: Hasher, a: seq<Record>, b: seq<Record>)
    requires NoCollision(h, a, b) && a != [] && b != []
    ensures NoCollision(h, a[..|a| - 1], b[..|b| - 1])
  {
    var a', b' := a[..|a| - 1], b[..|b| - 1];
    forall s, t | Hashed(h, a', s) && Hashed(h, b', t) && h.sha(s) == h.sha(t)
      ensures s == t
    {
      HashedFront(h, a, s);
      HashedFront(h, b, t);
    }
  }

  lemma HashedFront(h: Hasher, recs: seq<Record>, s: string)
    requires recs != [] && Hashed(h, recs[..|recs| - 1], s)
    ensures Hashed(h, recs, s)
  {
    var front := recs[..|recs| - 1];
    var i :| 0 <= i < |front| && (s == h.canon(front[i].body) || s == front[i].prevChainHash + front[i].entryHash);
    assert recs[i] == front[i];
  }

  ghost predicate Twins(h: Hasher, a: seq<Record>, b: seq<Record>) {
    Chained(h, a) && Chained(h, b) && NoCollision(h, a, b) && Head(a) == Head(b)
  }

  lemma {:induction false} TwinsFront(h: Hasher, a: seq<Record>, b: seq<Record>)
    requires Digest(h) && Twins(h, a, b) && a != [] && b != []
    ensures a[|a| - 1].body == b[|b| - 1].body && Twins(h, a[..|a| - 1], b[..|b| - 1])
  {
    SameSealSameBody(h, a, b);
    ChainedFront(h, a);
    ChainedFront(h, b);
    NoCollisionFront(h, a, b);
  }

  /** Two chains of equal length that end in the same chain hash carry the same
      bodies, record by record. */
  lemma {:induction false} HeadDeterminesBodies(h: Hasher, a: seq<Record>, b: seq<Record>, i: nat)
    requires Digest(h) && Twins(h, a, b) && i < |a| == |b|
    ensures a[i].body == b[i].body
    decreases |a|
  {
    TwinsFront(h, a, b);
    hide Digest, Twins;
    if i < |a| - 1 { HeadDeterminesBodies(h, a[..|a| - 1], b[..|b| - 1], i); }
  }

  /** They have equal length unless some record carries the all-zero digest that
      every chain starts from. */
  lemma {:induction false} HeadDeterminesLength(h: Hasher, a: seq<Record>, b: seq<Record>)
    requires Digest(h) && Twins(h, a, b) && NotZeros(h, a) && NotZeros(h, b)
    ensures |a| == |b|
    decreases |a|
  {
    if a != [] && b != [] {
      TwinsFront(h, a, b);
      hide Digest, Twins;
      HeadDeterminesLength(h, a[..|a| - 1], b[..|b| - 1]);
    }
  }

  /** Tamper evidence of whole files: if both verify and end in the same chain
      hash, all eight hashed fields of every record agree. */
  lemma {:induction false} TamperEvident(h: Hasher, f: seq<Line>, g: seq<Line>)
    requires Digest(h) && AllErrors(h, f) == [] && AllErrors(h, g) == []
    requires Head(Records(f)) == Head(Records(g)) && NoCollision(h, Records(f), Records(g))
    requires |Records(f)| == |Records(g)| || (NotZeros(h, Records(f)) && NotZeros(h, Records(g)))
    ensures |Records(f)| == |Records(g)|
    ensures forall i :: 0 <= i < |Records(f)| ==> Records(f)[i].body == Records(g)[i].body
  {
    ErrorFreeIsChained(h, f);
    ErrorFreeIsChained(h, g);
    if |Records(f)| != |Records(g)| { HeadDeterminesLength(h, Records(f), Records(g)); }
    forall i | 0 <= i < |Records(f)|
      ensures Records(f)[i].body == Records(g)[i].body
    {
      HeadDeterminesBodies(h, Records(f), Records(g), i);
    }
  }
}
