/** Whole runs of the kernel: what holds after any sequence of calls, whatever
    the executor answers. */
module KernelRuns {
  import opened Common
  import opened Steps
  import opened Simulation
  import opened Kernel
  import HL = HardLedger
  import Replay

  /** What can be done with a kernel. */
  datatype Action =
    | Stepped(call: Call, answer: Step -> Option<Outcome>)
    | NewRun(setup: RunSetup)
    | EndOfRun(runId: string)
    | Iteration
    | Relaxation

  function Do(env: Env, k: KState, a: Action): Turned {
    match a
    case Stepped(c, answer) => Turn(env, k, c, answer)
    case NewRun(setup) => Turned(Reset(k, setup), [], None)
    case EndOfRun(runId) => Turned(Ended(k, runId), [], None)
    case Iteration => Turned(NextIteration(k), [], None)
    case Relaxation => Turned(WithRelaxing(k), [], None)
  }

  /** A kernel, what is done with it, and what each action leads to. */
  datatype Run = Run(start: KState, actions: seq<Action>, turns: seq<Turned>)

  /** The kernel after the first `i` actions. */
  function At(r: Run, i: nat): KState
    requires i <= |r.turns|
  {
    if i == 0 then r.start else r.turns[i - 1].k
  }

  ghost predicate Happens(env: Env, r: Run, i: nat)
    requires i < |r.turns| == |r.actions|
  {
    r.turns[i] == Do(env, At(r, i), r.actions[i])
  }

  ghost predicate IsRun(env: Env, r: Run) {
    |r.turns| == |r.actions| && forall i :: 0 <= i < |r.turns| ==> Happens(env, r, i)
  }

  /** Any actions can be done with any kernel, and in one way only. */
  lemma {:induction false} RunsExist(env: Env, start: KState, actions: seq<Action>) returns (r: Run)
    ensures IsRun(env, r) && r.start == start && r.actions == actions
    ensures forall r' :: IsRun(env, r') && r'.start == start && r'.actions == actions ==> r' == r
  {
    hide Do;
    if actions == [] {
      r := Run(start, [], []);
    } else {
      var n := |actions| - 1;
      var front := RunsExist(env, start, actions[..n]);
      r := Run(start, actions, front.turns + [Do(env, At(front, n), actions[n])]);
      forall i | 0 <= i <= n
        ensures Happens(env, r, i)
      {
        if i < n { assert Happens(env, front, i); }
      }
      forall r' | IsRun(env, r') && r'.start == start && r'.actions == actions
        ensures r' == r
      {
        var front' := Run(start, actions[..n], r'.turns[..n]);
        forall i | 0 <= i < n
          ensures Happens(env, front', i)
        {
          assert Happens(env, r', i);
        }
        assert front' == front && Happens(env, r', n);
        assert r'.turns == front'.turns + [r'.turns[n]];
      }
    }
  }

  /** How often the executor was invoked in the first `i` actions. */
  function Executions(r: Run, i: nat): nat
    requires i <= |r.turns|
  {
    if i == 0 then 0 else Executions(r, i - 1) + |r.turns[i - 1].executed|
  }

  /** How many calls for a run id returned in the first `i` actions; the empty id
      stands for all of them. */
  function Calls(r: Run, i: nat, runId: string): nat
    requires i <= |r.turns| == |r.actions|
  {
    if i == 0 then 0
    else
      var a, t := r.actions[i - 1], r.turns[i - 1];
      Calls(r, i - 1, runId) + (if a.Stepped? && runId in {"", a.call.runId} && t.result.Some? then 1 else 0)
  }

  // ---------------------------------------------------- ledger and replay

  function Approvals(recs: seq<HL.Record>): nat {
    if recs == [] then 0
    else Approvals(recs[..|recs| - 1]) + (if recs[|recs| - 1].body.decision == APPROVE then 1 else 0)
  }

  function Records(k: KState): seq<HL.Record> { HL.Records(k.ledger.lines) }

  function RunRecords(k: KState, runId: string): nat { |Replay.Select(runId, Records(k))| }

  /** The ledger is a chain of well-formed records whose head the kernel holds. */
  ghost predicate Sound(env: Env, k: KState) {
    && HL.Malformed !in k.ledger.lines && HL.Chained(env.hasher, Records(k)) && k.ledger.prev == HL.Head(Records(k))
    && forall i :: 0 <= i < |Records(k)| ==> Replay.WellFormed(Records(k)[i])
  }

  lemma SealedLinked(h: HL.Hasher, prev: string, body: HL.Body, ts: real, metadata: HL.Metadata)
    ensures HL.Linked(h, prev, HL.Sealed(h, prev, body, ts, metadata))
  {
  }

  lemma {:induction false} LoggedRecords(env: Env, k: KState, body: HL.Body, ts: real, metadata: HL.Metadata)
    ensures var rec, k' := HL.Sealed(env.hasher, k.ledger.prev, body, ts, metadata), Logged(env, k, body, ts, metadata);
            && Records(k') == Records(k) + [rec]
            && (Sound(env, k) && Replay.WellFormed(rec) ==> Sound(env, k'))
  {
    hide HL.Chained, HL.Linked, Replay.WellFormed;
    SealedLinked(env.hasher, k.ledger.prev, body, ts, metadata);
    HL.AppendOne(env.hasher, k.ledger.lines, HL.Sealed(env.hasher, k.ledger.prev, body, ts, metadata));
  }

  lemma CountOne(recs: seq<HL.Record>, rec: HL.Record, runId: string)
    ensures |Replay.Select(runId, recs + [rec])| == |Replay.Select(runId, recs)| + (if Replay.Selected(runId, rec) then 1 else 0)
    ensures Approvals(recs + [rec]) == Approvals(recs) + (if rec.body.decision == APPROVE then 1 else 0)
  {
    assert (recs + [rec])[..|recs|] == recs;
  }

  /** An event is a well-formed record that replay does not count and that
      approves nothing. */
  lemma EventCounts(env: Env, k: KState, e: Event, c: Call, runId: string)
    ensures var k' := WithEvent(env, k, e, c);
            && RunRecords(k', runId) == RunRecords(k, runId) && Approvals(Records(k')) == Approvals(Records(k))
            && (Sound(env, k) ==> Sound(env, k'))
  {
    var body, metadata := EventBody(env, e, c), EventMetadata(env, e, c);
    var rec := HL.Sealed(env.hasher, k.ledger.prev, body, c.ts, metadata);
    assert !Replay.Selected(runId, rec) && Replay.WellFormed(rec) && body.decision != APPROVE;
    LoggedRecords(env, k, body, c.ts, metadata);
    CountOne(Records(k), rec, runId);
  }

  /** A commit is a record of its own run, and an approval just when it carries
      an outcome. */
  lemma CommitCounts(env: Env, k: KState, p: Proposal, f: Finding, c: Call, runId: string)
    requires HL.Digest(env.hasher)
    ensures var k' := Committed(env, k, p, f, c);
            && RunRecords(k', runId) == RunRecords(k, runId) + (if runId in {"", c.runId} then 1 else 0)
            && Approvals(Records(k')) == Approvals(Records(k)) + (if f.outcome.Some? then 1 else 0)
            && (Sound(env, k) ==> Sound(env, k'))
  {
    var k1 := k.(runs := Known(k.runs, c.runId));
    var body, metadata := CommitBody(env, p, k.state, f), CommitMetadata(p, k.state, RunOf(k.runs, c.runId).tier, c.runId);
    var rec := HL.Sealed(env.hasher, k.ledger.prev, body, c.ts, metadata);
    assert Replay.Selected(runId, rec) <==> runId in {"", c.runId};
    assert Replay.WellFormed(rec) && (body.decision == APPROVE <==> f.outcome.Some?);
    LoggedRecords(env, k1, body, c.ts, metadata);
    CountOne(Records(k), rec, runId);
  }

  lemma FinishCounts(env: Env, k: KState, c: Call, p: Proposal, sim: SimResult, risk: Risk, answer: Step -> Option<Outcome>, runId: string)
    requires HL.Digest(env.hasher)
    ensures var t := Finish(env, k, c, p, sim, risk, answer);
            && t.result.Some? && |t.executed| == 1
            && RunRecords(t.k, runId) == RunRecords(k, runId) + (if runId in {"", c.runId} then 1 else 0)
            && Approvals(Records(t.k)) == Approvals(Records(k)) + 1
            && (Sound(env, k) ==> Sound(env, t.k))
  {
    hide WithEvent, Committed, ToStep, Recorded, StateAfter, Violations, Clusters, Replay.Select, Approvals;
    var o := answer(ToStep(p)).GetOr(RAISED);
    var tier, kinds := RunOf(k.runs, c.runId).tier, env.kinds(o);
    var k0 := k.(state := StateAfter(k.state, p.action, sim.costEst, o.success),
                 failures := Counter(k.failures, o.success),
                 history := Recorded(k.history, k.policy.historyMax, KeyOf(p.action, c.context), o.success, sim.costEst),
                 runs := k.runs[Rid(c.runId) := RunState(PickNextTier(tier, kinds, env.tiers), kinds)]);
    EventCounts(env, k0, Escalated(tier, PickNextTier(tier, kinds, env.tiers), kinds), c, runId);
    var k1 := Absorbed(env, k, c, p, sim.costEst, o);
    var k2 := if Clusters(k1.state, k1.policy) then WithTightening(k1) else k1;
    CommitCounts(env, k2, p, Finding(Some(sim), Some(risk), Approved, Some(o), Violations(o, k1.state, k1.policy)), c, runId);
  }

  /** Every call that returns commits exactly one record, for its run, and every
      execution exactly one approval. */
  lemma {:induction false} TurnCounts(env: Env, k: KState, c: Call, answer: Step -> Option<Outcome>, runId: string)
    requires HL.Digest(env.hasher)
    ensures var t := Turn(env, k, c, answer);
            && RunRecords(t.k, runId) == RunRecords(k, runId) + (if t.result.Some? && runId in {"", c.runId} then 1 else 0)
            && Approvals(Records(t.k)) == Approvals(Records(k)) + |t.executed|
            && (Sound(env, k) ==> Sound(env, t.k))
  {
    hide WithEvent, Committed, TierGate, Validate, Simulate, Decide, Finish, Normal, Replay.Select, Approvals;
    var p, k1 := ProposalOf(env, c), k.(runs := Known(k.runs, c.runId));
    var tier := RunOf(k1.runs, c.runId).tier;
    match TierGate(env, k1.state.stepCount, CfgOf(env.tiers, tier), c.raw)
    case Some(reason) =>
      EventCounts(env, k1, StepRejected(tier, reason), c, runId);
      CommitCounts(env, WithEvent(env, k1, StepRejected(tier, reason), c), p, Early(reason), c, runId);
    case None =>
      match Validate(env, p, k1.state, k1.policy)
      case None =>
      case Some(faults) =>
        if faults != [] {
          CommitCounts(env, k1, p, Early(Invalid(faults)), c, runId);
        } else if Cost(env, p).Some? {
          var sim := SimOf(env, k1, c, p, Cost(env, p).value);
          var risk := env.risk(p, sim, k1.state, k1.policy);
          match Decide(sim, risk.effective, k1.policy)
          case None => FinishCounts(env, k1, c, p, sim, risk, answer, runId);
          case Some(r) =>
            CommitCounts(env, k1.(state := WithAction(k1.state, p.action)), p,
                         Finding(Some(sim), Some(risk), Refused(r, p.action, sim, risk, k1.policy), None, []), c, runId);
        }
  }

  /** Accounting over any run, from any sound ledger. */
  lemma {:induction false} RunCounts(env: Env, r: Run, i: nat, runId: string)
    requires HL.Digest(env.hasher) && IsRun(env, r) && Sound(env, r.start) && i <= |r.turns|
    ensures Sound(env, At(r, i))
    ensures RunRecords(At(r, i), runId) == RunRecords(r.start, runId) + Calls(r, i, runId)
    ensures Approvals(Records(At(r, i))) == Approvals(Records(r.start)) + Executions(r, i)
  {
    hide Turn, Sound, Replay.Select, Approvals, HL.Digest;
    if i > 0 {
      RunCounts(env, r, i - 1, runId);
      assert Happens(env, r, i - 1);
      match r.actions[i - 1]
      case Stepped(c, answer) => TurnCounts(env, At(r, i - 1), c, answer, runId);
      case _ => SameLedger(env, At(r, i - 1), At(r, i));
    }
  }

  lemma SameLedger(env: Env, a: KState, b: KState)
    requires a.ledger == b.ledger && Sound(env, a)
    ensures Sound(env, b)
  {
  }

  lemma FreshIsSound(env: Env, policy: Policy)
    ensures Sound(env, Boot(policy, [])) && Records(Boot(policy, [])) == []
  {
  }

  /** From a fresh ledger, over any interleaving of runs: each call that returns
      commits one record that is not an event, approvals are executions, and the
      file verifies. */
  lemma {:induction false} Accounting(env: Env, policy: Policy, r: Run, i: nat)
    requires HL.Digest(env.hasher) && IsRun(env, r) && r.start == Boot(policy, []) && i <= |r.turns|
    ensures HL.AllErrors(env.hasher, At(r, i).ledger.lines) == []
    ensures RunRecords(At(r, i), "") == Calls(r, i, "")
    ensures Approvals(Records(At(r, i))) == Executions(r, i)
  {
    FreshIsSound(env, policy);
    RunCounts(env, r, i, "");
    HL.ErrorFreeIsChained(env.hasher, At(r, i).ledger.lines);
  }

  /** Replaying a run id then finds no divergence, and as many steps as calls for
      that id returned. */
  lemma {:induction false} RunReplays(env: Env, policy: Policy, r: Run, i: nat, runId: string, report: Replay.ReplayResult)
    requires HL.Digest(env.hasher) && IsRun(env, r) && r.start == Boot(policy, []) && i <= |r.turns| && runId != ""
    requires Replay.Reports(env.hasher, At(r, i).ledger.lines, [], runId, report)
    ensures report.ok && report.matchedSteps == report.totalSteps == Calls(r, i, runId)
  {
    FreshIsSound(env, policy);
    RunCounts(env, r, i, runId);
    forall j: nat | j < RunRecords(At(r, i), runId)
      ensures Replay.StepOk(env.hasher, runId, [], Replay.Select(runId, Records(At(r, i))), j)
    {
      Replay.ChainedRunReplays(env.hasher, Records(At(r, i)), runId, j);
    }
  }
}
