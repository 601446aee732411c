/** Replay verification of rfsn_kernel/replay.py over a hard ledger. */
module Replay {
  import opened Common
  import opened Json
  import opened HardLedger

  const KERNEL_EVENT := "kernel_event"
  const ORCHESTRATOR_EVENT := "orchestrator_event"

  function RunIdOf(rec: Record): Json { Get(rec.metadata, "run_id") }

  predicate IsEvent(rec: Record) {
    Get(rec.metadata, "record_type") in {Str(KERNEL_EVENT), Str(ORCHESTRATOR_EVENT)}
  }

  /** The kernel records of a run; the empty run id selects every run. */
  predicate Selected(runId: string, rec: Record) {
    (runId != "" ==> RunIdOf(rec) == Str(runId)) && !IsEvent(rec)
  }

  function Select(runId: string, recs: seq<Record>): seq<Record> {
    if recs == [] then []
    else
      var last := recs[|recs| - 1];
      Select(runId, recs[..|recs| - 1]) + (if Selected(runId, last) then [last] else [])
  }

  /** The i-th selected record is consistent: in run-filtered mode its chain hash
      is that of its own fields, otherwise it points to the record before it; it
      has the expected state hash, if one is given; and its decision is known,
      an approval carrying an outcome. */
  predicate StepOk(h: Hasher, runId: string, expected: seq<string>, recs: seq<Record>, i: nat)
    requires i < |recs|
  {
    var rec := recs[i];
    && (if runId != "" then rec.chainHash == ChainHash(h, rec.prevChainHash, rec.entryHash)
        else i > 0 ==> rec.prevChainHash == recs[i - 1].chainHash)
    && (i < |expected| ==> rec.body.stateHash == expected[i])
    && rec.body.decision in {"APPROVE", "REJECT"}
    && (rec.body.decision == "APPROVE" ==> rec.body.outcomeHash.Some? && rec.body.outcomeHash.value != "")
  }

  datatype ReplayResult = ReplayResult(ok: bool, totalSteps: nat, matchedSteps: nat, divergences: seq<nat>)

  /** The report on a ledger: its divergences are the selected records that are
      not consistent, in order, and the others match. */
  ghost predicate Reports(h: Hasher, lines: seq<Line>, expected: seq<string>, runId: string, r: ReplayResult) {
    var recs := Select(runId, Records(lines));
    && r.totalSteps == |recs| == r.matchedSteps + |r.divergences|
    && (r.ok <==> r.divergences == [])
    && (r.ok <==> forall i: nat :: i < |recs| ==> StepOk(h, runId, expected, recs, i))
    && (forall i: nat :: i in r.divergences <==> i < |recs| && !StepOk(h, runId, expected, recs, i))
    && (forall i, j :: 0 <= i < j < |r.divergences| ==> r.divergences[i] < r.divergences[j])
  }

  method CheckStep(h: Hasher, runId: string, expected: seq<string>, recs: seq<Record>, i: nat) returns (ok: bool)
    requires i < |recs|
    ensures ok <==> StepOk(h, runId, expected, recs, i)
  {
    var rec := recs[i];
    ok := true;
    if runId != "" {
      if rec.chainHash != ChainHash(h, rec.prevChainHash, rec.entryHash) {
        ok := false;
      }
    } else if i > 0 {
      if rec.prevChainHash != recs[i - 1].chainHash {
        ok := false;
      }
    }
    if i < |expected| && rec.body.stateHash != expected[i] {
      ok := false;
    }
    if rec.body.decision != "APPROVE" && rec.body.decision != "REJECT" {
      ok := false;
    }
    if rec.body.decision == "APPROVE" && (rec.body.outcomeHash.None? || rec.body.outcomeHash.value == "") {
      ok := false;
    }
  }

  /** Verify the selected records one by one, listing those that diverge. An
      empty `expected` stands for None. */
  method ReplayVerify(h: Hasher, lines: seq<Line>, expected: seq<string>, runId: string) returns (r: ReplayResult)
    ensures Reports(h, lines, expected, runId, r)
  {
    hide StepOk, Select;
    var recs := Select(runId, Records(lines));
    var matched, divergences: seq<nat> := 0, [];
    for i := 0 to |recs|
      invariant i == matched + |divergences|
      invariant divergences == [] <==> forall k: nat :: k < i ==> StepOk(h, runId, expected, recs, k)
      invariant forall k: nat :: k in divergences <==> k < i && !StepOk(h, runId, expected, recs, k)
      invariant forall k :: 0 <= k < |divergences| ==> divergences[k] < i
      invariant forall k, l :: 0 <= k < l < |divergences| ==> divergences[k] < divergences[l]
    {
      var ok := CheckStep(h, runId, expected, recs, i);
      if ok {
        matched := matched + 1;
      } else {
        divergences := divergences + [i];
      }
    }
    r := ReplayResult(divergences == [], |recs|, matched, divergences);
  }

  lemma {:induction false} SelectKeeps(runId: string, recs: seq<Record>, i: nat) returns (j: nat)
    requires i < |Select(runId, recs)|
    ensures j < |recs| && recs[j] == Select(runId, recs)[i] && Selected(runId, recs[j])
  {
    var front := recs[..|recs| - 1];
    if i < |Select(runId, front)| {
      j := SelectKeeps(runId, front, i);
    } else {
      j := |recs| - 1;
    }
  }

  /** A record written by the kernel: its decision is known, and an approval
      names the outcome. */
  predicate WellFormed(rec: Record) {
    rec.body.decision in {"APPROVE", "REJECT"}
    && (rec.body.decision == "APPROVE" ==> rec.body.outcomeHash.Some? && rec.body.outcomeHash.value != "")
  }

  /** A chain of well-formed records replays without divergence for every run,
      however the runs are interleaved and whatever events lie between. */
  lemma {:induction false} ChainedRunReplays(h: Hasher, recs: seq<Record>, runId: string, i: nat)
    requires Chained(h, recs) && runId != "" && i < |Select(runId, recs)|
    requires forall j :: 0 <= j < |recs| ==> WellFormed(recs[j])
    ensures StepOk(h, runId, [], Select(runId, recs), i)
  {
    var j := SelectKeeps(runId, recs, i);
    assert Linked(h, Head(recs[..j]), recs[j]) && WellFormed(recs[j]);
  }

  // ------------------------------------------------- what a report says of a file

  /** Which records are selected, and where: a record of the run that is no event
      comes behind the selected ones before it, and no other is selected. */
  lemma {:induction false} SelectAt(runId: string, recs: seq<Record>, j: nat)
    requires j < |recs|
    ensures var before, all := Select(runId, recs[..j]), Select(runId, recs);
            var kind := Get(recs[j].metadata, "record_type");
            if (runId == "" || Get(recs[j].metadata, "run_id") == Str(runId)) && kind != Str("kernel_event") && kind != Str("orchestrator_event")
            then Select(runId, recs[..j + 1]) == before + [recs[j]] && |before| < |all| && all[|before|] == recs[j]
            else Select(runId, recs[..j + 1]) == before
  {
    assert recs[..j + 1][..j] == recs[..j];
    SelectPrefix(runId, recs, j + 1);
  }

  lemma {:induction false} SelectPrefix(runId: string, recs: seq<Record>, j: nat)
    requires j <= |recs|
    ensures Select(runId, recs[..j]) <= Select(runId, recs)
  {
    if j == |recs| {
      assert recs[..j] == recs;
    } else {
      SelectPrefix(runId, recs[..|recs| - 1], j);
      assert recs[..|recs| - 1][..j] == recs[..j];
    }
  }

  /** Every step of a report, on the fields of its record: it matches exactly when
      its chain hash is that of its own two fields - without a run id, when it
      points to the selected record before it - it has the state hash expected, if
      one is given, and it is a rejection or an approval with an outcome. */
  lemma {:induction false} ReportMeans(h: Hasher, lines: seq<Line>, expected: seq<string>, runId: string, r: ReplayResult, i: nat)
    requires Reports(h, lines, expected, runId, r) && i < |Select(runId, Records(lines))|
    ensures var recs := Select(runId, Records(lines));
            var rec := recs[i];
            i !in r.divergences <==>
              && (runId != "" ==> rec.chainHash == h.sha(rec.prevChainHash + rec.entryHash))
              && (runId == "" && i > 0 ==> rec.prevChainHash == recs[i - 1].chainHash)
              && (i < |expected| ==> rec.body.stateHash == expected[i])
              && (rec.body.decision == "REJECT" || (rec.body.decision == "APPROVE" && rec.body.outcomeHash.GetOr("") != ""))
    ensures r.ok ==> i !in r.divergences
    ensures r.divergences == [] ==> r.ok
  {
    assert "APPROVE"[0] == 'A' && "REJECT"[0] == 'R';
  }

  lemma {:induction false} SelectUpdate(runId: string, recs: seq<Record>, j: nat, rec: Record)
    requires j < |recs| && Selected(runId, recs[j]) && Selected(runId, rec)
    ensures var pos := |Select(runId, recs[..j])|;
            pos < |Select(runId, recs)| && Select(runId, recs[j := rec]) == Select(runId, recs)[pos := rec]
  {
    hide Select, Selected;
    var front, last := recs[..|recs| - 1], recs[|recs| - 1];
    assert recs == front + [last];
    SelectNext(runId, front, last);
    if j == |recs| - 1 {
      assert recs[j := rec] == front + [rec] && recs[..j] == front;
      SelectNext(runId, front, rec);
    } else {
      assert recs[j := rec] == front[j := rec] + [last] && front[..j] == recs[..j];
      SelectUpdate(runId, front, j, rec);
      SelectNext(runId, front[j := rec], last);
    }
  }

  lemma SelectNext(runId: string, recs: seq<Record>, rec: Record)
    ensures Select(runId, recs + [rec]) == Select(runId, recs) + (if Selected(runId, rec) then [rec] else [])
  {
    assert (recs + [rec])[..|recs|] == recs;
  }

  lemma OnlyOne(s: seq<nat>, x: nat)
    requires (forall i, j :: 0 <= i < j < |s| ==> s[i] < s[j]) && x in s && forall y: nat :: y in s ==> y == x
    ensures s == [x]
  {
    var k :| 0 <= k < |s| && s[k] == x;
    if |s| > 1 { FirstTwo(s); }
  }

  lemma FirstTwo(s: seq<nat>)
    requires |s| > 1 && forall i, j :: 0 <= i < j < |s| ==> s[i] < s[j]
    ensures s[0] < s[1] && s[0] in s && s[1] in s
  {
  }

  /** On a ledger of the kernel, one record of a run is replaced by any other record
      of that run. Replaying the run then diverges at that step alone, and does so
      exactly when the record put there has a chain hash that is not that of its own
      fields, an unknown decision, or is an approval without an outcome. */
  lemma {:induction false} TamperedStep(h: Hasher, lines: seq<Line>, lines': seq<Line>, runId: string, j: nat, rec: Record, r: ReplayResult)
    requires runId != "" && Chained(h, Records(lines)) && forall i :: 0 <= i < |Records(lines)| ==> WellFormed(Records(lines)[i])
    requires j < |Records(lines)| && Selected(runId, Records(lines)[j]) && rec.metadata == Records(lines)[j].metadata
    requires Records(lines') == Records(lines)[j := rec] && Reports(h, lines', [], runId, r)
    ensures var sound := rec.chainHash == h.sha(rec.prevChainHash + rec.entryHash)
                         && (rec.body.decision == "REJECT" || (rec.body.decision == "APPROVE" && rec.body.outcomeHash.GetOr("") != ""));
            r.divergences == (if sound then [] else [|Select(runId, Records(lines)[..j])|]) && (r.ok <==> sound)
  {
    var recs, pos := Records(lines), |Select(runId, Records(lines)[..j])|;
    SelectUpdate(runId, recs, j, rec);
    forall i: nat | i < |Select(runId, recs)| && i != pos
      ensures i !in r.divergences
    {
      ChainedRunReplays(h, recs, runId, i);
      assert StepOk(h, runId, [], Select(runId, recs[j := rec]), i);
    }
    ReportMeans(h, lines', [], runId, r, pos);
    if pos in r.divergences { OnlyOne(r.divergences, pos); }
    if r.divergences != [] { assert r.divergences[0] in r.divergences; }
  }

  /** So a change of one of the three hashes of a record always shows, at that very
      step, if the digests of the texts involved differ. */
  lemma {:induction false} ChangedHashDiverges(h: Hasher, lines: seq<Line>, lines': seq<Line>, runId: string, j: nat, rec: Record, hash: string, r: ReplayResult)
    requires runId != "" && Chained(h, Records(lines)) && forall i :: 0 <= i < |Records(lines)| ==> WellFormed(Records(lines)[i])
    requires j < |Records(lines)| && Selected(runId, Records(lines)[j])
    requires var old_ := Records(lines)[j];
             || (rec == old_.(chainHash := hash) && hash != old_.chainHash)
             || (rec == old_.(entryHash := hash) && h.sha(old_.prevChainHash + hash) != h.sha(old_.prevChainHash + old_.entryHash))
             || (rec == old_.(prevChainHash := hash) && h.sha(hash + old_.entryHash) != h.sha(old_.prevChainHash + old_.entryHash))
    requires Records(lines') == Records(lines)[j := rec] && Reports(h, lines', [], runId, r)
    ensures !r.ok && r.divergences == [|Select(runId, Records(lines)[..j])|] && r.matchedSteps == r.totalSteps - 1
  {
    hide Reports;
    assert Linked(h, Head(Records(lines)[..j]), Records(lines)[j]);
    TamperedStep(h, lines, lines', runId, j, rec, r);
    ReportCounts(h, lines', runId, r);
  }

  lemma ReportCounts(h: Hasher, lines: seq<Line>, runId: string, r: ReplayResult)
    requires Reports(h, lines, [], runId, r)
    ensures r.totalSteps == r.matchedSteps + |r.divergences|
  {
  }

  /** Replay does not look behind the hashes, though: put any other decision with
      its outcome into a record, and the run replays as before; it is verification
      of the chain that then finds an error. */
  lemma {:induction false} ChangedBodyReplays(h: Hasher, lines: seq<Line>, j: nat, body: Body, runId: string, r: ReplayResult)
    requires runId != "" && Digest(h) && AllErrors(h, lines) == [] && forall i :: 0 <= i < |Records(lines)| ==> WellFormed(Records(lines)[i])
    requires j < |lines| && lines[j].Stored? && Selected(runId, lines[j].rec) && WellFormed(lines[j].rec.(body := body))
    requires Reports(h, lines[j := Stored(lines[j].rec.(body := body))], [], runId, r)
    ensures r.ok
    ensures h.sha(h.canon(body)) != h.sha(h.canon(lines[j].rec.body)) ==> AllErrors(h, lines[j := Stored(lines[j].rec.(body := body))]) != []
  {
    hide AllErrors, Records, Select, Reports, Selected;
    var rec, lines' := lines[j].rec.(body := body), lines[j := Stored(lines[j].rec.(body := body))];
    var at := |Records(lines[..j])|;
    ErrorFreeIsChained(h, lines);
    ErrorFreeIsChained(h, lines');
    RecordsUpdate(lines, j, rec);
    SealedAt(h, Records(lines), at);
    SameRun(runId, lines[j].rec, body);
    TamperedStep(h, lines, lines', runId, at, rec, r);
    if AllErrors(h, lines') == [] { SealedAt(h, Records(lines'), at); }
  }

  lemma SealedAt(h: Hasher, recs: seq<Record>, i: nat)
    requires Chained(h, recs) && i < |recs|
    ensures recs[i].entryHash == h.sha(h.canon(recs[i].body)) && recs[i].chainHash == h.sha(recs[i].prevChainHash + recs[i].entryHash)
  {
    assert Linked(h, Head(recs[..i]), recs[i]);
  }

  lemma SameRun(runId: string, rec: Record, body: Body)
    ensures Selected(runId, rec) == Selected(runId, rec.(body := body))
  {
  }

  lemma {:induction false} RecordsUpdate(lines: seq<Line>, j: nat, rec: Record)
    requires j < |lines| && lines[j].Stored?
    ensures var at := |Records(lines[..j])|;
            at < |Records(lines)| && Records(lines)[at] == lines[j].rec && Records(lines[j := Stored(rec)]) == Records(lines)[at := rec]
  {
    var front := lines[..|lines| - 1];
    if j == |lines| - 1 {
      assert lines[j := Stored(rec)][..j] == front;
    } else {
      RecordsUpdate(front, j, rec);
      assert lines[j := Stored(rec)][..|lines| - 1] == front[j := Stored(rec)] && front[..j] == lines[..j];
    }
  }
}
