/** The gated repair loop of rfsn_swebench/runner.py.

    The proposer, the patch tool, the test runs and the clock are an oracle: one
    record of answers per iteration. Logging and feedback files are left out. */
module BenchRun {
  import opened Common
  import opened DiffGate

  /** What the outside answers in one iteration. `proposal` is None when the
      proposer raises, `applied` when the patch does not apply; otherwise
      `applied` is the diff of the work directory. */
  datatype Answers = Answers(elapsed: real, proposal: Option<string>, applied: string -> Option<string>,
                             quick: int, full: int)

  type Oracle = nat -> Answers

  datatype Limits = Limits(maxIters: int, maxRuntime: real)

  datatype Status = Pass | Fail | Abort | GateReject

  /** `quick` and `full` are the exit codes of the last test runs, if any. */
  datatype BenchResult = BenchResult(status: Status, iters: int, finalPatch: string,
                                     setup: Option<int>, quick: Option<int>, full: Option<int>, riskAllowed: bool)

  /** The diff an iteration leaves applied, when it gets that far. */
  function AppliedAt(o: Oracle, i: nat): Option<string> {
    match o(i).proposal
    case None => None
    case Some(patch) => o(i).applied(patch)
  }

  predicate Wins(lx: Lexer, g: Gate, o: Oracle, i: nat) {
    AppliedAt(o, i).Some? && Allowed(lx, g, AppliedAt(o, i).value) && o(i).quick == 0 && o(i).full == 0
  }

  /** What the loop carries from one iteration to the next. */
  datatype Loop = Loop(patch: string, rejected: bool, quick: Option<int>, full: Option<int>)

  /** One iteration that neither times out nor wins. */
  function Iterate(lx: Lexer, g: Gate, o: Oracle, l: Loop, i: nat): Loop {
    match AppliedAt(o, i)
    case None => l
    case Some(diff) =>
      if !Allowed(lx, g, diff) then l.(patch := "", rejected := true)
      else if o(i).quick != 0 then l.(patch := diff, rejected := false, quick := Some(o(i).quick))
      else l.(patch := diff, rejected := false, quick := Some(o(i).quick), full := Some(o(i).full))
  }

  function After(lx: Lexer, g: Gate, o: Oracle, n: nat): Loop {
    if n == 0 then Loop("", false, None, None) else Iterate(lx, g, o, After(lx, g, o, n - 1), n)
  }

  /** Iterations 1 to `n` were all entered in time and none of them won. */
  ghost predicate Unfinished(lx: Lexer, g: Gate, limits: Limits, o: Oracle, n: nat) {
    forall i :: 1 <= i <= n ==> o(i).elapsed <= limits.maxRuntime && !Wins(lx, g, o, i)
  }

  /** The status of a run whose setup succeeded is decided by the first iteration
      to win or time out. */
  ghost predicate Decided(lx: Lexer, g: Gate, limits: Limits, o: Oracle, r: BenchResult) {
    match r.status
    case Pass =>
      1 <= r.iters <= limits.maxIters && Unfinished(lx, g, limits, o, r.iters - 1) && o(r.iters).elapsed <= limits.maxRuntime
      && Wins(lx, g, o, r.iters) && Some(r.finalPatch) == AppliedAt(o, r.iters)
      && r.quick == Some(0) && r.full == Some(0)
    case Abort =>
      0 <= r.iters < limits.maxIters && Unfinished(lx, g, limits, o, r.iters)
      && o(r.iters + 1).elapsed > limits.maxRuntime
      && var l := After(lx, g, o, r.iters); r.finalPatch == l.patch && r.quick == l.quick && r.full == l.full
    case _ =>
      r.iters == limits.maxIters
      && var n := if limits.maxIters > 0 then limits.maxIters else 0;
         Unfinished(lx, g, limits, o, n)
         && var l := After(lx, g, o, n);
            r.finalPatch == l.patch && r.quick == l.quick && r.full == l.full
            && (r.status == GateReject <==> l.rejected)
  }

  /** The limits are not negative, and no banned pattern matches the empty text. */
  predicate Sensible(g: Gate) {
    g.maxBytes >= 0 && g.maxFiles >= 0 && g.maxNewFiles >= 0 && g.maxAdded >= 0 && g.maxDeleted >= 0 && !g.bannedCode("")
  }

  lemma RiskIsAllow(lx: Lexer, g: Gate, finalPatch: string)
    requires Sensible(g) && (finalPatch == "" || Allowed(lx, g, finalPatch))
    ensures Allowed(lx, g, finalPatch)
  {
    EmptyDiffAllowed(lx, g);
  }

  /** The decision of the gate without its reasons. */
  method Decide(lx: Lexer, g: Gate, diff: string) returns (allow: bool)
    ensures allow <==> Allowed(lx, g, diff)
  {
    var reasons;
    allow, reasons := PatchRiskGate(lx, g, diff);
  }

  method Run(lx: Lexer, g: Gate, limits: Limits, setup: seq<int>, o: Oracle) returns (r: BenchResult)
    // The gate is final: what is returned is empty or was let through.
    ensures r.finalPatch == "" || Allowed(lx, g, r.finalPatch)
    // So a patch that is returned names no blocked path on any of its lines and
    // keeps every limit.
    ensures r.finalPatch != "" ==> KeepsLimits(lx, g, r.finalPatch)
    ensures r.riskAllowed <==> Allowed(lx, g, r.finalPatch)
    ensures Sensible(g) ==> r.riskAllowed
    ensures r.status == GateReject ==> r.finalPatch == ""
    ensures r.setup.None? ==> r.iters <= limits.maxIters
    // Setup failures come first and leave nothing.
    ensures r.setup.Some? <==> exists k :: 0 <= k < |setup| && setup[k] != 0
    ensures r.setup.Some? ==> exists k :: 0 <= k < |setup| && r.setup.value == setup[k] && forall j :: 0 <= j < k ==> setup[j] == 0
    ensures r.setup.Some? ==> r.status == Abort && r.iters == 0 && r.finalPatch == "" && r.setup.value != 0
    // Otherwise the status is decided by the first iteration to win or time out.
    ensures r.setup.None? ==> Decided(lx, g, limits, o, r)
  {
    hide Allowed, KeepsLimits;
    for k := 0 to |setup|
      invariant forall j :: 0 <= j < k ==> setup[j] == 0
    {
      if setup[k] != 0 {
        var allow := Decide(lx, g, "");
        if Sensible(g) { RiskIsAllow(lx, g, ""); }
        return BenchResult(Abort, 0, "", Some(setup[k]), None, None, allow);
      }
    }
    var finalPatch, lastGateRejected := "", false;
    var lastQuick: Option<int>, lastFull: Option<int> := None, None;
    var i := 1;
    while i <= limits.maxIters
      invariant 1 <= i && (limits.maxIters >= 0 ==> i <= limits.maxIters + 1) && (limits.maxIters < 0 ==> i == 1)
      invariant lastGateRejected ==> finalPatch == ""
      invariant Unfinished(lx, g, limits, o, i - 1) && (finalPatch == "" || Allowed(lx, g, finalPatch))
      invariant After(lx, g, o, i - 1) == Loop(finalPatch, lastGateRejected, lastQuick, lastFull)
      decreases limits.maxIters - i
    {
      var answers := o(i);
      if answers.elapsed > limits.maxRuntime {
        var allow := Decide(lx, g, finalPatch);
        if Sensible(g) { RiskIsAllow(lx, g, finalPatch); }
        AllowedMeans(lx, g, finalPatch);
        return BenchResult(Abort, i - 1, finalPatch, None, lastQuick, lastFull, allow);
      }
      var n := i;
      i := i + 1;
      if answers.proposal.None? {
        continue;
      }
      var applied := answers.applied(answers.proposal.value);
      if applied.None? {
        continue;
      }
      finalPatch := applied.value;
      var allow := Decide(lx, g, applied.value);
      if !allow {
        finalPatch := "";
        lastGateRejected := true;
        continue;
      }
      lastGateRejected := false;
      lastQuick := Some(answers.quick);
      if answers.quick != 0 {
        continue;
      }
      lastFull := Some(answers.full);
      if answers.full == 0 {
        var finalAllow := Decide(lx, g, finalPatch);
        if !finalAllow {
          // The patch was let through above and has not changed since.
          assert false;
        }
        AllowedMeans(lx, g, finalPatch);
        return BenchResult(Pass, n, finalPatch, None, lastQuick, lastFull, finalAllow);
      }
    }
    var allow := Decide(lx, g, finalPatch);
    if Sensible(g) { RiskIsAllow(lx, g, finalPatch); }
    AllowedMeans(lx, g, finalPatch);
    r := BenchResult(if lastGateRejected then GateReject else Fail, limits.maxIters, finalPatch, None, lastQuick, lastFull, allow);
  }

  /** The last of the first `n` iterations whose patch reached the gate, or 0. */
  function LastGated(o: Oracle, n: nat): (k: nat)
    ensures k <= n && (k > 0 ==> AppliedAt(o, k).Some?)
    ensures forall j :: k < j <= n ==> AppliedAt(o, j).None?
  {
    if n == 0 || AppliedAt(o, n).Some? then n else LastGated(o, n - 1)
  }

  /** What the loop holds depends only on the last patch that reached the gate:
      that patch if it was let through, and otherwise nothing but the rejection.
      In particular a rejected run returns the empty patch. */
  lemma {:induction false} LastGateDecides(lx: Lexer, g: Gate, o: Oracle, n: nat)
    ensures var l, k := After(lx, g, o, n), LastGated(o, n);
            && (l.rejected <==> k > 0 && !Allowed(lx, g, AppliedAt(o, k).value))
            && l.patch == if k > 0 && !l.rejected then AppliedAt(o, k).value else ""
  {
    hide Allowed;
    if n > 0 { LastGateDecides(lx, g, o, n - 1); }
  }

  /** On the oracle's answers: the run passes exactly when some iteration, itself and
      all before it in time, has a proposal that applies, is let through, and whose
      two test runs exit with 0. It aborts exactly when the clock runs out before. */
  lemma {:induction false} PassesExactlyWhen(lx: Lexer, g: Gate, limits: Limits, o: Oracle, r: BenchResult)
    requires Decided(lx, g, limits, o, r)
    ensures r.status == Pass <==>
              exists i :: 1 <= i <= limits.maxIters && (forall j :: 1 <= j <= i ==> o(j).elapsed <= limits.maxRuntime)
                && o(i).quick == 0 && o(i).full == 0 && o(i).proposal.Some?
                && var diff := o(i).applied(o(i).proposal.value); diff.Some? && Allowed(lx, g, diff.value)
    ensures r.status == Abort <==> r.status != Pass && exists i :: 1 <= i <= limits.maxIters && o(i).elapsed > limits.maxRuntime
  {
    hide Allowed, After;
    if r.status == Pass { assert Wins(lx, g, o, r.iters); }
    if r.status == Abort { assert o(r.iters + 1).elapsed > limits.maxRuntime; }
  }

  /** The exit codes reported are those of the last patch let through, and of the
      last one whose quick run succeeded. */
  lemma {:induction false} LastExitCodes(lx: Lexer, g: Gate, o: Oracle, n: nat, k: nat)
    requires k <= n && (k > 0 ==> AppliedAt(o, k).Some? && Allowed(lx, g, AppliedAt(o, k).value))
    ensures (forall j :: k < j <= n && AppliedAt(o, j).Some? ==> !Allowed(lx, g, AppliedAt(o, j).value)) ==>
              After(lx, g, o, n).quick == if k == 0 then None else Some(o(k).quick)
    ensures (k > 0 ==> o(k).quick == 0)
            && (forall j :: k < j <= n && AppliedAt(o, j).Some? && o(j).quick == 0 ==> !Allowed(lx, g, AppliedAt(o, j).value)) ==>
              After(lx, g, o, n).full == if k == 0 then None else Some(o(k).full)
  {
    hide Allowed;
    if n > k { LastExitCodes(lx, g, o, n - 1, k); }
  }
}
