/** What the gates of the kernel keep over whole runs: which steps are executed,
    how many failures accumulate, and which refusals are final. */
module KernelSafety {
  import opened Common
  import opened Json
  import opened Steps
  import opened Simulation
  import opened Validation
  import opened Kernel
  import opened KernelRuns
  import HL = HardLedger

  // ------------------------------------------------------- one step, in or out

  /** Every gate lets the call through. */
  ghost predicate Admitted(env: Env, k: KState, c: Call) {
    var p := ProposalOf(env, c);
    && TierGate(env, k.state.stepCount, CfgOf(env.tiers, RunOf(k.runs, c.runId).tier), c.raw).None?
    && Validate(env, p, k.state, k.policy) == Some([])
    && Cost(env, p).Some?
    && var sim := SimOf(env, k, c, p, Cost(env, p).value);
       Decide(sim, env.risk(p, sim, k.state, k.policy).effective, k.policy).None?
  }

  ghost function OutcomeOf(env: Env, c: Call, answer: Step -> Option<Outcome>): Outcome {
    answer(ToStep(ProposalOf(env, c))).GetOr(RAISED)
  }

  /** The executor reported success. */
  predicate Succeeded(t: Turned) {
    t.result.Some? && t.result.value.finding.outcome.Some? && t.result.value.finding.outcome.value.success
  }

  /** The estimated cost of the call's proposal, when there is one. */
  function CostOf(env: Env, c: Call): real { Cost(env, ProposalOf(env, c)).GetOr(0.0) }

  /** The key of the action and its context in the outcome history. */
  function CallKey(env: Env, c: Call): string { KeyOf(Field(env.lx, c.raw, "type"), c.context) }

  /** The states differ at most in their ledgers, in the recent actions, and in
      which runs without a record of their own are known at tier 0. */
  ghost predicate SameCore(a: KState, b: KState) {
    && b == a.(state := a.state.(recentActions := b.state.recentActions), runs := b.runs, ledger := b.ledger)
    && forall runId :: RunOf(b.runs, runId) == RunOf(a.runs, runId)
  }

  /** `b` is `a` after an execution of `action` under `key` that cost `cost`. */
  ghost predicate Advanced(a: KState, b: KState, action: string, key: string, cost: real, success: bool) {
    var s := StateAfter(a.state, action, cost, success);
    && b.history == Recorded(a.history, a.policy.historyMax, key, success, cost)
    && b.state == (if Clusters(s, a.policy) then s.(safetyLevel := if s.safetyLevel + 1 < 2 then s.safetyLevel + 1 else 2) else s)
    && b.policy == (if Clusters(s, a.policy) then Tightened(a.policy) else a.policy)
  }

  lemma ActionIsType(env: Env, c: Call)
    ensures ProposalOf(env, c).action == Field(env.lx, c.raw, "type")
  {
    hide REGISTRY, STEP_ID, Field;
  }

  lemma FinishAdvances(env: Env, k: KState, c: Call, p: Proposal, sim: SimResult, risk: Risk, answer: Step -> Option<Outcome>)
    ensures var t := Finish(env, k, c, p, sim, risk, answer);
            && t.executed == [ToStep(p)] && t.result.Some?
            && t.result.value.finding.outcome == Some(answer(ToStep(p)).GetOr(RAISED))
            && Advanced(k, t.k, p.action, KeyOf(p.action, c.context), sim.costEst, answer(ToStep(p)).GetOr(RAISED).success)
  {
    hide ToStep, Recorded, StateAfter, Violations, Clusters, CommitBody, CommitMetadata, EventBody, EventMetadata, PickNextTier;
  }

  lemma LoggingKeepsCore(env: Env, k: KState, p: Proposal, f: Finding, e: Event, c: Call)
    ensures SameCore(k, k.(runs := Known(k.runs, c.runId))) && SameCore(k, WithEvent(env, k, e, c))
    ensures SameCore(k, Committed(env, k, p, f, c)) && SameCore(k, k.(state := WithAction(k.state, p.action)))
  {
    hide CommitBody, CommitMetadata, EventBody, EventMetadata, DEFAULT_RUN;
  }

  lemma CoreTrans(a: KState, b: KState, c: KState)
    requires SameCore(a, b) && SameCore(b, c)
    ensures SameCore(a, c)
  {
  }

  lemma RefusedKeepsCore(env: Env, k: KState, p: Proposal, f: Finding, e: Event, c: Call)
    ensures var k1 := k.(runs := Known(k.runs, c.runId));
            && SameCore(k, k1) && SameCore(k, Committed(env, k1, p, f, c)) && SameCore(k, Committed(env, WithEvent(env, k1, e, c), p, f, c))
            && SameCore(k, Committed(env, k1.(state := WithAction(k1.state, p.action)), p, f, c))
  {
    hide SameCore, Committed, WithEvent, Known;
    var k1 := k.(runs := Known(k.runs, c.runId));
    LoggingKeepsCore(env, k, p, f, e, c);
    LoggingKeepsCore(env, k1, p, f, e, c);
    var logged, acted := WithEvent(env, k1, e, c), k1.(state := WithAction(k1.state, p.action));
    LoggingKeepsCore(env, logged, p, f, e, c);
    LoggingKeepsCore(env, acted, p, f, e, c);
    CoreTrans(k, k1, Committed(env, k1, p, f, c));
    CoreTrans(k, k1, logged);
    CoreTrans(k, logged, Committed(env, logged, p, f, c));
    CoreTrans(k, k1, acted);
    CoreTrans(k, acted, Committed(env, acted, p, f, c));
  }

  /** A call that some gate stops executes nothing and changes nothing but the
      ledger, the recent actions and which runs are known. */
  lemma {:induction false} TurnRefuses(env: Env, k: KState, c: Call, answer: Step -> Option<Outcome>)
    requires !Admitted(env, k, c)
    ensures Turn(env, k, c, answer).executed == [] && SameCore(k, Turn(env, k, c, answer).k)
  {
    hide ToStep, TierGate, Validate, Decide, Finish, Normal, Committed, WithEvent, CfgOf, SameCore, Cost, Known, Simulate, WithAction;
    var p, k1 := ProposalOf(env, c), k.(runs := Known(k.runs, c.runId));
    KnownRun(k.runs, c.runId);
    var none := StepRejected(0, Approved);
    var tier := RunOf(k1.runs, c.runId).tier;
    match TierGate(env, k1.state.stepCount, CfgOf(env.tiers, tier), c.raw)
    case Some(reason) => RefusedKeepsCore(env, k, p, Early(reason), StepRejected(tier, reason), c);
    case None =>
      match Validate(env, p, k1.state, k1.policy)
      case None => RefusedKeepsCore(env, k, p, Early(Approved), none, c);
      case Some(faults) =>
        RefusedKeepsCore(env, k, p, Early(Invalid(faults)), none, c);
        if faults == [] && Cost(env, p).Some? {
          var sim := SimOf(env, k1, c, p, Cost(env, p).value);
          assert sim == SimOf(env, k, c, p, Cost(env, p).value);
          var risk := env.risk(p, sim, k1.state, k1.policy);
          var refusal := Decide(sim, risk.effective, k1.policy).value;
          RefusedKeepsCore(env, k, p, Finding(Some(sim), Some(risk), Refused(refusal, p.action, sim, risk, k1.policy), None, []), none, c);
        }
  }

  lemma KnownRun(runs: Runs, runId: string)
    ensures RunOf(Known(runs, runId), runId) == RunOf(runs, runId)
  {
  }

  /** A call executes exactly when every gate lets it through, and then exactly
      the normalized step. */
  lemma {:induction false} TurnAdmits(env: Env, k: KState, c: Call, answer: Step -> Option<Outcome>)
    ensures var t, p := Turn(env, k, c, answer), ProposalOf(env, c);
            && (Admitted(env, k, c) ==>
                  && t.executed == [ToStep(p)] && Succeeded(t) == OutcomeOf(env, c, answer).success
                  && Advanced(k, t.k, p.action, CallKey(env, c), CostOf(env, c), Succeeded(t)))
            && (!Admitted(env, k, c) ==> t.executed == [] && SameCore(k, t.k))
  {
    hide ToStep, TierGate, Validate, Decide, Finish, Normal, Committed, WithEvent, Advanced, CfgOf, Cost, SameCore, Known, Simulate;
    if !Admitted(env, k, c) {
      TurnRefuses(env, k, c, answer);
    } else {
      var p, k1 := ProposalOf(env, c), k.(runs := Known(k.runs, c.runId));
      KnownRun(k.runs, c.runId);
      ActionIsType(env, c);
      var sim := SimOf(env, k1, c, p, Cost(env, p).value);
      assert sim == SimOf(env, k, c, p, Cost(env, p).value) && sim.costEst == Cost(env, p).value by { CostEstIs(env, k, c, p, Cost(env, p).value); }
      var risk := env.risk(p, sim, k1.state, k1.policy);
      FinishAdvances(env, k1, c, p, sim, risk, answer);
      AdvancedFrom(k1, k, Finish(env, k1, c, p, sim, risk, answer).k, p.action, CallKey(env, c), sim.costEst, OutcomeOf(env, c, answer).success);
    }
  }

  lemma CostEstIs(env: Env, k: KState, c: Call, p: Proposal, cost: real)
    ensures SimOf(env, k, c, p, cost).costEst == cost
  {
    hide SuccessProb, FailureMode, DriftRisk, LoopRisk, PriorLoopRisk, Lookup;
  }

  lemma AdvancedFrom(a: KState, a': KState, b: KState, action: string, key: string, cost: real, success: bool)
    requires Advanced(a, b, action, key, cost, success) && a.history == a'.history && a.policy == a'.policy && a.state == a'.state
    ensures Advanced(a', b, action, key, cost, success)
  {
  }

  /** The gates before the per-action checks let the proposal through. */
  predicate Checked(p: Proposal, s: State, policy: Policy) {
    && p.action in REGISTRY && REGISTRY[p.action].enabled && (REGISTRY[p.action].safe || p.action in policy.allowUnsafe)
    && s.safetyLevel < 2 && s.stepCount < policy.maxTotalSteps
  }

  /** A call raises, and then commits nothing, exactly when it comes as far as the
      per-action checks and has a parameter they cannot read, or passes them as a
      test run whose timeout does not convert. */
  lemma {:induction false} CallRaises(env: Env, k: KState, c: Call, answer: Step -> Option<Outcome>)
    ensures var t, p := Turn(env, k, c, answer), ProposalOf(env, c);
            && (t.result.None? <==>
                  && TierGate(env, k.state.stepCount, CfgOf(env.tiers, RunOf(k.runs, c.runId).tier), c.raw).None?
                  && Checked(p, k.state, k.policy)
                  && (Unreadable(env.rules, p)
                      || (BadTimeout(env.rules, p) && ActionFaults(env.lx, env.rules, p) == Some([]))))
            && (t.result.None? ==> t.k.ledger == k.ledger)
  {
    var p := ProposalOf(env, c);
    RaiseOnUnreadable(env.lx, env.round, env.rules, p);
    ResultOf(env, k, c, answer);
    hide Turn, TierGate, ActionFaults, NotInt, TooLarge, NotText, Normal, REGISTRY, CfgOf, EstimateCost;
    RunTestsIsNoPatch();
  }

  lemma RunTestsIsNoPatch()
    ensures "run_tests" != "apply_patch"
  {
    assert "apply_patch"[0] == 'a' && "run_tests"[0] == 'r';
  }

  lemma {:induction false} ResultOf(env: Env, k: KState, c: Call, answer: Step -> Option<Outcome>)
    ensures var t, p := Turn(env, k, c, answer), ProposalOf(env, c);
            && (t.result.None? <==>
                  && TierGate(env, k.state.stepCount, CfgOf(env.tiers, RunOf(k.runs, c.runId).tier), c.raw).None?
                  && (Validate(env, p, k.state, k.policy).None?
                      || (Validate(env, p, k.state, k.policy) == Some([]) && Cost(env, p).None?)))
            && (t.result.None? ==> t.k.ledger == k.ledger)
  {
    hide ToStep, TierGate, Validate, Decide, Finish, Normal, Committed, WithEvent, CfgOf, Cost, Known, Simulate;
    var p, k1 := ProposalOf(env, c), k.(runs := Known(k.runs, c.runId));
    KnownRun(k.runs, c.runId);
    assert RunOf(k1.runs, c.runId).tier == RunOf(k.runs, c.runId).tier;
    if Cost(env, p).Some? {
      var sim := SimOf(env, k1, c, p, Cost(env, p).value);
      FinishAdvances(env, k1, c, p, sim, env.risk(p, sim, k1.state, k1.policy), answer);
    }
  }

  /** A step to run tests that the planner wrote with a timeout of null. */
  function NullTimeout(): Step {
    map["type" := Str("run_tests"), "template_id" := Str("x"), "timeout_s" := Null]
  }

  /** It happens: that step raises in a kernel just started, wherever its template
      is known or none is configured, and leaves no record. */
  lemma {:induction false} NullTimeoutRaises(env: Env, policy: Policy, lines: seq<HL.Line>, c: Call, answer: Step -> Option<Outcome>)
    requires policy.maxTotalSteps > 0 && (env.rules.testTemplates == [] || "x" in env.rules.testTemplates)
    requires c.raw == NullTimeout()
    ensures var t := Turn(env, Boot(policy, lines), c, answer);
            t.result.None? && t.executed == [] && t.k.ledger == Boot(policy, lines).ledger
  {
    var k, p := Boot(policy, lines), ProposalOf(env, c);
    NullTimeoutProposal(env, c);
    NullTimeoutFaults(env, p);
    NullTimeoutGate(env, CfgOf(env.tiers, RunOf(k.runs, c.runId).tier));
    hide NullTimeout, Turn, TierGate, Unreadable, ActionFaults, CfgOf, Normal;
    CallRaises(env, k, c, answer);
    RaisingExecutesNothing(env, k, c, answer);
  }

  lemma NullTimeoutProposal(env: Env, c: Call)
    requires c.raw == NullTimeout()
    ensures var p := ProposalOf(env, c);
            p.action == "run_tests" && Get(p.params, "template_id") == Str("x") && "timeout_s" in p.params && p.params["timeout_s"] == Null
    ensures "run_tests" in REGISTRY && REGISTRY["run_tests"].enabled && REGISTRY["run_tests"].safe
  {
    assert "template_id"[0] != "type"[0] || "template_id"[1] != "type"[1];
    assert "timeout_s"[1] == 'i' && "type"[1] == 'y' && "template_id"[0] == 't' && "id"[0] == 'i' && "timeout_s"[0] == 't';
    assert STEP_ID[0] == '_';
    assert "id" !in NullTimeout();
    assert Survives("run_tests", "template_id") && Survives("run_tests", "timeout_s");
  }

  lemma NullTimeoutFaults(env: Env, p: Proposal)
    requires p.action == "run_tests" && Get(p.params, "template_id") == Str("x")
    requires env.rules.testTemplates == [] || "x" in env.rules.testTemplates
    ensures ActionFaults(env.lx, env.rules, p) == Some([])
  {
    assert "run_tests"[4] == 't' && "repo_search"[0] == 'r' && "repo_search"[1] == 'e' && "run_tests"[1] == 'u';
    assert "repo_read_range"[1] == 'e' && "read_file"[1] == 'e' && "detect_workdirs"[0] == 'd' && "apply_patch"[0] == 'a';
    assert "run_tests"[0] == 'r';
  }

  lemma NullTimeoutGate(env: Env, cfg: TierCfg)
    ensures TierGate(env, 0, cfg, NullTimeout()).None?
  {
    assert "path"[0] == 'p' && "paths"[0] == 'p' && "files"[0] == 'f' && "patch"[0] == 'p';
    assert "type"[0] == 't' && "template_id"[0] == 't' && "timeout_s"[0] == 't';
    assert Mentioned(env.lx, NullTimeout()) == [];
    assert "run_tests"[0] == 'r' && APPLY_PATCH[0] == 'a';
  }

  lemma {:induction false} RaisingExecutesNothing(env: Env, k: KState, c: Call, answer: Step -> Option<Outcome>)
    requires Turn(env, k, c, answer).result.None?
    ensures Turn(env, k, c, answer).executed == []
  {
    hide Turn, Advanced, Normal;
    TurnAdmits(env, k, c, answer);
    if Admitted(env, k, c) { ResultOf(env, k, c, answer); }
  }

  lemma StepType(lx: Lexer, c: Call)
    ensures var p := Normal(lx, c.raw, c.intent, c.context, c.bundleId);
            Get(ToStep(p), "type") == Str(p.action)
  {
    hide REGISTRY, STEP_ID, Truthy, Hidden;
    var p := Normal(lx, c.raw, c.intent, c.context, c.bundleId);
    TypeIsDropped(c.raw, p.action);
  }

  lemma TypeIsDropped(raw: Step, action: string)
    ensures "type" !in NormalParams(raw, action)
  {
    hide REGISTRY;
    assert "type"[0] != STEP_ID[0];
  }

  lemma {:induction false} TurnIsVetted(env: Env, k: KState, c: Call, answer: Step -> Option<Outcome>, step: Step)
    requires step in Turn(env, k, c, answer).executed
    ensures Vetted(env, k, c, step)
  {
    hide Turn, Admitted, Advanced, SameCore;
    TurnAdmits(env, k, c, answer);
    AdmittedWithin(env, k, c);
    AdmittedTool(env, k, c, step);
  }

  lemma {:induction false} AdmittedTool(env: Env, k: KState, c: Call, step: Step)
    requires Admitted(env, k, c) && step == ToStep(ProposalOf(env, c))
    ensures exists action ::
              && Get(step, "type") == Str(action) && action in REGISTRY && REGISTRY[action].enabled
              && (REGISTRY[action].safe || action in k.policy.allowUnsafe)
    ensures TierAllows(env.lx, step, CfgOf(env.tiers, RunOf(k.runs, c.runId).tier).allow)
    ensures k.state.safetyLevel < 2 && k.state.stepCount < k.policy.maxTotalSteps
  {
    hide Simulate, REGISTRY, ToStep, Normal, Decide;
    StepType(env.lx, c);
    var allow := CfgOf(env.tiers, RunOf(k.runs, c.runId).tier).allow;
    assert TierAllows(env.lx, c.raw, allow);
    TierCheckCarriesOver(env.lx, c.raw, c.intent, c.context, c.bundleId, allow);
    assert Get(step, "type") == Str(ProposalOf(env, c).action);
  }

  ghost predicate Vetted(env: Env, k: KState, c: Call, step: Step) {
    && (exists action ::
          && Get(step, "type") == Str(action) && action in REGISTRY && REGISTRY[action].enabled
          && (REGISTRY[action].safe || action in k.policy.allowUnsafe))
    && TierAllows(env.lx, step, CfgOf(env.tiers, RunOf(k.runs, c.runId).tier).allow)
    && k.state.safetyLevel < 2 && k.state.stepCount < k.policy.maxTotalSteps
    && var p := ProposalOf(env, c);
       Cost(env, p).Some? &&
       var sim := SimOf(env, k, c, p, Cost(env, p).value);
       sim.loopRisk <= k.policy.loopMax && sim.driftRisk <= k.policy.driftMax && sim.failureMode != Some(ClusterFailure)
       && env.risk(p, sim, k.state, k.policy).effective <= k.policy.riskMax && sim.successProb >= k.policy.successMin
  }

  lemma {:induction false} AdmittedWithin(env: Env, k: KState, c: Call)
    requires Admitted(env, k, c)
    ensures var p := ProposalOf(env, c);
            Cost(env, p).Some? &&
            var sim := SimOf(env, k, c, p, Cost(env, p).value);
            sim.loopRisk <= k.policy.loopMax && sim.driftRisk <= k.policy.driftMax && sim.failureMode != Some(ClusterFailure)
            && env.risk(p, sim, k.state, k.policy).effective <= k.policy.riskMax && sim.successProb >= k.policy.successMin
  {
    hide TierGate, Validate, Simulate, Normal, CfgOf, EstimateCost;
  }

  /** Whatever reaches the executor, in any run, names a registered, enabled tool,
      safe or listed as allowed; its paths are allowed by the tier its run then
      has; the kernel is neither locked nor out of steps; and loop risk, drift risk,
      predicted failure, effective risk and success probability keep their bounds. */
  lemma {:induction false} ExecutedIsVetted(env: Env, r: Run, i: nat, step: Step)
    requires IsRun(env, r) && i < |r.turns| && step in r.turns[i].executed
    ensures r.actions[i].Stepped? && Vetted(env, At(r, i), r.actions[i].call, step)
  {
    hide Turn, Vetted;
    assert Happens(env, r, i);
    TurnIsVetted(env, At(r, i), r.actions[i].call, r.actions[i].answer, step);
  }

  // ---------------------------------------------------------------- the bounds

  /** The cluster threshold, where anything below 1 acts like 1. */
  function Threshold(p: Policy): int { if p.failClusterThreshold > 1 then p.failClusterThreshold else 1 }

  function StepBudget(p: Policy): int { if p.maxTotalSteps > 0 then p.maxTotalSteps else 0 }

  /** Failures stay below the cluster threshold until the safety level rises, and
      the level rises whenever an execution ends at or above it; each relaxing
      gives away one. */
  ghost predicate Contained(k: KState, relaxed: nat) {
    && 0 <= k.state.safetyLevel <= 2
    && k.state.recentFailures <= Threshold(k.policy) - 1 + k.state.safetyLevel + relaxed
  }

  function Relaxations(r: Run, i: nat): nat
    requires i <= |r.actions|
  {
    if i == 0 then 0 else Relaxations(r, i - 1) + (if r.actions[i - 1].Relaxation? then 1 else 0)
  }

  /** Failures never outnumber steps, and steps never exceed the budget. */
  ghost predicate Tallied(k: KState) {
    0 <= k.state.recentFailures <= k.state.stepCount <= StepBudget(k.policy)
  }

  lemma {:induction false} TurnContained(env: Env, k: KState, c: Call, answer: Step -> Option<Outcome>, relaxed: nat)
    ensures Contained(k, relaxed) ==> Contained(Turn(env, k, c, answer).k, relaxed)
    ensures Tallied(k) ==> Tallied(Turn(env, k, c, answer).k)
  {
    TurnAdmits(env, k, c, answer);
    hide Turn, Recorded, TierGate, Decide, Simulate, Normal;
  }

  lemma {:induction false} RunContained(env: Env, r: Run, i: nat)
    requires IsRun(env, r) && Contained(r.start, 0) && i <= |r.turns|
    ensures Contained(At(r, i), Relaxations(r, i))
  {
    hide Turn, Reset;
    if i > 0 {
      RunContained(env, r, i - 1);
      assert Happens(env, r, i - 1);
      var k := At(r, i - 1);
      match r.actions[i - 1]
      case Stepped(c, answer) => TurnContained(env, k, c, answer, Relaxations(r, i - 1));
      case NewRun(setup) => ResetContained(k, setup);
      case _ =>
    }
  }

  lemma ResetContained(k: KState, setup: RunSetup)
    ensures Contained(Reset(k, setup), 0) && Tallied(Reset(k, setup))
  {
  }

  lemma {:induction false} RunTallied(env: Env, r: Run, i: nat)
    requires IsRun(env, r) && Tallied(r.start) && i <= |r.turns|
    ensures Tallied(At(r, i))
  {
    hide Turn, Reset;
    if i > 0 {
      RunTallied(env, r, i - 1);
      assert Happens(env, r, i - 1);
      var k := At(r, i - 1);
      match r.actions[i - 1]
      case Stepped(c, answer) => TurnContained(env, k, c, answer, 0);
      case NewRun(setup) => ResetContained(k, setup);
      case _ =>
    }
  }

  lemma BootTallied(policy: Policy, lines: seq<HL.Line>)
    ensures Tallied(Boot(policy, lines))
  {
  }

  /** No action changes any setting but the two thresholds. */
  ghost predicate SameSettings(a: Policy, b: Policy) {
    b == a.(riskMax := b.riskMax, successMin := b.successMin)
  }

  lemma {:induction false} SettingsKept(env: Env, k: KState, a: Action)
    ensures SameSettings(k.policy, Do(env, k, a).k.policy)
  {
    hide Turn, Recorded, StateAfter, Admitted, Fresh;
    if a.Stepped? { TurnAdmits(env, k, a.call, a.answer); }
  }

  lemma {:induction false} SettingsStay(env: Env, r: Run, i: nat)
    requires IsRun(env, r) && i <= |r.turns|
    ensures SameSettings(r.start.policy, At(r, i).policy)
  {
    hide Do;
    if i > 0 {
      SettingsStay(env, r, i - 1);
      assert Happens(env, r, i - 1);
      SettingsKept(env, At(r, i - 1), r.actions[i - 1]);
    }
  }

  /** The lockdown bound: from a reset, recent failures exceed the cluster
      threshold, if that is at least 1, by at most one and one for each relaxing. */
  lemma {:induction false} LockdownBound(env: Env, r: Run, i: nat, k: KState, setup: RunSetup)
    requires IsRun(env, r) && r.start == Reset(k, setup) && i <= |r.turns|
    ensures At(r, i).state.recentFailures <= Threshold(k.policy) + 1 + Relaxations(r, i)
  {
    ResetContained(k, setup);
    RunContained(env, r, i);
    SettingsStay(env, r, i);
  }

  /** However often it is relaxed, failures never outnumber steps and steps never
      exceed the step budget. */
  lemma {:induction false} FailuresAreSteps(env: Env, r: Run, i: nat, policy: Policy, lines: seq<HL.Line>)
    requires IsRun(env, r) && r.start == Boot(policy, lines) && i <= |r.turns|
    ensures 0 <= At(r, i).state.recentFailures <= At(r, i).state.stepCount <= StepBudget(policy)
  {
    BootTallied(policy, lines);
    RunTallied(env, r, i);
    SettingsStay(env, r, i);
  }

  // ------------------------------------------------------------ final refusals

  /** The drift estimate is over its limit. */
  ghost predicate Drifted(env: Env, k: KState) {
    DriftRisk(env.round, k.state) > k.policy.driftMax
  }

  lemma DriftedRefuses(env: Env, k: KState, c: Call)
    requires Drifted(env, k)
    ensures !Admitted(env, k, c)
  {
    hide Normal, TierGate, Validate, SuccessProb, FailureMode, LoopRisk, PriorLoopRisk, DriftRisk;
  }

  lemma SameDrift(env: Env, a: KState, b: KState)
    requires a.policy.driftMax == b.policy.driftMax && a.state.stepCount == b.state.stepCount
    requires a.state.recentFailures == b.state.recentFailures && a.state.driftVariance == b.state.driftVariance
    ensures Drifted(env, a) == Drifted(env, b)
  {
  }

  lemma {:induction false} DriftStays(env: Env, k: KState, a: Action)
    requires Drifted(env, k) && !a.NewRun?
    ensures Do(env, k, a).executed == [] && Drifted(env, Do(env, k, a).k)
  {
    hide Turn, Drifted, Admitted, Advanced, Reset;
    if a.Stepped? {
      DriftedRefuses(env, k, a.call);
      TurnAdmits(env, k, a.call, a.answer);
    }
    SameDrift(env, k, Do(env, k, a).k);
  }

  /** Drift is final: once over the limit nothing executes, relaxed or not, until
      the next `reset_for_run`. */
  lemma {:induction false} DriftIsFinal(env: Env, r: Run, j: nat, i: nat)
    requires IsRun(env, r) && j <= i < |r.turns| && Drifted(env, At(r, j))
    requires forall n :: j <= n <= i ==> !r.actions[n].NewRun?
    ensures r.turns[i].executed == [] && Drifted(env, At(r, i + 1))
  {
    hide Do, Drifted;
    if i > j { DriftIsFinal(env, r, j, i - 1); }
    assert Happens(env, r, i);
    DriftStays(env, At(r, i), r.actions[i]);
  }

  /** Nothing has been counted against the run yet. */
  ghost predicate Unmarked(k: KState) {
    k.state.stepCount == 0 && k.state.recentFailures == 0 && k.state.driftVariance == 0.0
  }

  lemma UnmarkedStays(env: Env, k: KState, a: Action)
    requires Unmarked(k) && Do(env, k, a).executed == []
    ensures Unmarked(Do(env, k, a).k)
  {
    hide Turn, Advanced, Admitted, ToStep;
    if a.Stepped? { TurnAdmits(env, k, a.call, a.answer); }
  }

  lemma {:induction false} StaysUnmarked(env: Env, r: Run, m: nat)
    requires IsRun(env, r) && m <= |r.turns| && Unmarked(r.start)
    requires forall n :: 0 <= n < m ==> r.turns[n].executed == []
    ensures Unmarked(At(r, m))
  {
    hide Do, Unmarked;
    if m > 0 {
      StaysUnmarked(env, r, m - 1);
      assert Happens(env, r, m - 1);
      UnmarkedStays(env, At(r, m - 1), r.actions[m - 1]);
    }
  }

  /** In particular a run whose first execution fails is over, whatever was refused
      before it: with any drift limit below 0.99995 nothing else executes before
      the next reset. */
  lemma {:induction false} FirstFailureIsFinal(env: Env, r: Run, m: nat, i: nat, k: KState, setup: RunSetup)
    requires Rounding(env.round) && k.policy.driftMax < 0.99995
    requires IsRun(env, r) && r.start == Reset(k, setup) && m < i < |r.turns|
    requires forall n :: 0 <= n < m ==> r.turns[n].executed == []
    requires r.turns[m].executed != [] && !Succeeded(r.turns[m])
    requires forall n :: m < n <= i ==> !r.actions[n].NewRun?
    ensures r.turns[i].executed == []
  {
    hide Do, Succeeded;
    StaysUnmarked(env, r, m);
    SettingsStay(env, r, m);
    assert Happens(env, r, m);
    FailureMarks(env, At(r, m), r.actions[m]);
    DriftIsFinal(env, r, m + 1, i);
  }

  lemma {:induction false} FailureMarks(env: Env, k: KState, a: Action)
    requires Rounding(env.round) && Unmarked(k) && k.policy.driftMax < 0.99995
    requires Do(env, k, a).executed != [] && !Succeeded(Do(env, k, a))
    ensures Drifted(env, Do(env, k, a).k)
  {
    hide Turn, Recorded, Admitted, Succeeded, ToStep, CostOf, SameCore;
    TurnAdmits(env, k, a.call, a.answer);
    var s := Do(env, k, a).k.state;
    assert s.stepCount == 1 && s.recentFailures == 1 && s.driftVariance == 0.0;
    assert env.round(1.0) - 1.0 >= -0.00005;
  }

  // ----------------------------------------------------------- failure streaks

  /** 0.7 to the power of `n`. */
  function Decay(n: nat): (r: real)
    ensures 0.0 <= r <= 1.0
  {
    if n == 0 then 1.0 else 0.7 * Decay(n - 1)
  }

  ghost predicate Rated(t: Table) {
    DistinctKeys(t) && forall key :: Lookup(t, key).Some? ==> 0.0 <= Lookup(t, key).value.rate <= 1.0
  }

  /** A step was executed under the key. */
  predicate Ran(env: Env, a: Action, t: Turned, key: string) {
    a.Stepped? && t.executed != [] && CallKey(env, a.call) == key
  }

  /** How many executions under the key have failed in a row, as long as its entry
      stayed in the history: one that succeeds, prunes or resets starts over. */
  function Streak(env: Env, r: Run, i: nat, key: string): nat
    requires i <= |r.turns| == |r.actions|
  {
    if i == 0 || Lookup(At(r, i).history, key).None? then 0
    else if !Ran(env, r.actions[i - 1], r.turns[i - 1], key) then Streak(env, r, i - 1, key)
    else if Succeeded(r.turns[i - 1]) then 0
    else Streak(env, r, i - 1, key) + 1
  }

  lemma RecordedRated(t: Table, max: int, key: string, success: bool, cost: real)
    requires Rated(t)
    ensures Rated(Recorded(t, max, key, success, cost))
  {
    hide Lookup, DistinctKeys, Recorded;
    var t' := Recorded(t, max, key, success, cost);
    RecordedLookup(t, max, key, success, cost, key);
    forall other
      ensures (Lookup(t', other).Some? ==> 0.0 <= Lookup(t', other).value.rate <= 1.0)
    {
      RecordedLookup(t, max, key, success, cost, other);
    }
  }

  /** What one action does to the entry of a key: nothing, dropping it, or
      counting an execution under it. */
  lemma {:induction false} EntryStep(env: Env, k: KState, a: Action, key: string)
    requires Rated(k.history)
    ensures var t := Do(env, k, a);
            && Rated(t.k.history)
            && (Lookup(t.k.history, key).Some? ==>
                  if Ran(env, a, t, key)
                  then Lookup(t.k.history, key).value.rate ==
                       ALPHA * (if Succeeded(t) then 0.0 else 1.0)
                       + (1.0 - ALPHA) * Lookup(k.history, key).GetOr(UNSEEN).rate
                  else Lookup(t.k.history, key) == Lookup(k.history, key))
  {
    hide Turn, Lookup, DistinctKeys, Recorded, Admitted, Succeeded, CallKey;
    if a.Stepped? {
      TurnAdmits(env, k, a.call, a.answer);
      if Admitted(env, k, a.call) {
        var success, cost := Succeeded(Turn(env, k, a.call, a.answer)), CostOf(env, a.call);
        RecordedRated(k.history, k.policy.historyMax, CallKey(env, a.call), success, cost);
        RecordedLookup(k.history, k.policy.historyMax, CallKey(env, a.call), success, cost, key);
      }
    } else {
      EmptyRated();
    }
  }

  lemma EmptyRated()
    ensures Rated([]) && forall key :: Lookup([], key).None?
  {
  }

  /** The failure rate of an entry is at least what its streak makes it. */
  lemma {:induction false} StreakRate(env: Env, r: Run, i: nat, key: string)
    requires IsRun(env, r) && Rated(r.start.history) && i <= |r.turns|
    ensures Rated(At(r, i).history)
    ensures var entry := Lookup(At(r, i).history, key);
            entry.Some? ==> entry.value.rate >= 1.0 - Decay(Streak(env, r, i, key))
  {
    hide Do, Lookup, DistinctKeys, Ran, Succeeded;
    if i > 0 {
      StreakRate(env, r, i - 1, key);
      assert Happens(env, r, i - 1);
      EntryStep(env, At(r, i - 1), r.actions[i - 1], key);
    }
  }

  lemma {:induction false} ClusterRefuses(env: Env, k: KState, a: Action, key: string)
    requires Lookup(k.history, key).Some? && Lookup(k.history, key).value.rate > CLUSTER_RATE
    ensures !Ran(env, a, Do(env, k, a), key)
  {
    hide Normal, TierGate, Validate, SuccessProb, LoopRisk, PriorLoopRisk, DriftRisk, Lookup, Turn, Advanced, Field;
    if a.Stepped? {
      TurnAdmits(env, k, a.call, a.answer);
      ActionIsType(env, a.call);
    }
  }

  lemma FourFailures()
    ensures 1.0 - Decay(3) < CLUSTER_RATE < 1.0 - Decay(4)
  {
    assert Decay(1) == 0.7 && Decay(2) == 0.49 && Decay(3) == 0.343 && Decay(4) == 0.2401;
  }

  /** No action fails more than four times in a row in one context: the fifth try
      is refused, whatever came between. */
  lemma {:induction false} StreakAtMostFour(env: Env, r: Run, i: nat, key: string)
    requires IsRun(env, r) && Rated(r.start.history) && i <= |r.turns|
    ensures Streak(env, r, i, key) <= 4
  {
    hide Do, Lookup, Rated, Ran, Succeeded, Decay;
    if i > 0 {
      StreakAtMostFour(env, r, i - 1, key);
      StreakRate(env, r, i - 1, key);
      FourFailures();
      assert Happens(env, r, i - 1);
      if Streak(env, r, i - 1, key) == 4 { ClusterRefuses(env, At(r, i - 1), r.actions[i - 1], key); }
    }
  }

  /** The entry of the key is there throughout. */
  ghost predicate Kept(r: Run, j: nat, i: nat, key: string)
    requires j <= i <= |r.turns|
  {
    forall n :: j <= n <= i ==> Lookup(At(r, n).history, key).Some?
  }

  lemma {:induction false} ClusterStays(env: Env, r: Run, j: nat, i: nat, key: string)
    requires IsRun(env, r) && Rated(r.start.history) && j <= i <= |r.turns| && Kept(r, j, i, key)
    requires Lookup(At(r, j).history, key).value.rate > CLUSTER_RATE
    ensures Lookup(At(r, i).history, key) == Lookup(At(r, j).history, key)
  {
    hide Do, Lookup, Rated, Ran;
    if i > j {
      ClusterStays(env, r, j, i - 1, key);
      StreakRate(env, r, i - 1, key);
      assert Happens(env, r, i - 1);
      EntryStep(env, At(r, i - 1), r.actions[i - 1], key);
      ClusterRefuses(env, At(r, i - 1), r.actions[i - 1], key);
    }
  }

  /** A rate over the limit is final: as long as its entry is there, the pair is
      not executed again, and so the entry does not change. */
  lemma {:induction false} ClusterIsFinal(env: Env, r: Run, j: nat, i: nat, key: string)
    requires IsRun(env, r) && Rated(r.start.history) && j <= i < |r.turns| && Kept(r, j, i, key)
    requires Lookup(At(r, j).history, key).value.rate > CLUSTER_RATE
    ensures !Ran(env, r.actions[i], r.turns[i], key) && Lookup(At(r, i).history, key) == Lookup(At(r, j).history, key)
  {
    hide Do, Lookup, Rated, Ran;
    ClusterStays(env, r, j, i, key);
    assert Happens(env, r, i);
    ClusterRefuses(env, At(r, i), r.actions[i], key);
  }

  /** Four failures in a row reach that rate. */
  lemma {:induction false} FourthFailureIsFinal(env: Env, r: Run, j: nat, i: nat, key: string, policy: Policy, lines: seq<HL.Line>)
    requires IsRun(env, r) && r.start == Boot(policy, lines) && j <= i < |r.turns| && Kept(r, j, i, key)
    requires Streak(env, r, j, key) >= 4
    ensures !Ran(env, r.actions[i], r.turns[i], key)
  {
    hide Do, Lookup, Rated, Ran, Succeeded, Decay;
    EmptyRated();
    StreakAtMostFour(env, r, j, key);
    StreakRate(env, r, j, key);
    FourFailures();
    ClusterIsFinal(env, r, j, i, key);
  }

  // --------------------------------------------------------------------- tiers

  function TierOf(k: KState, runId: string): int { RunOf(k.runs, runId).tier }

  /** The action gives the run back its lowest tier. */
  predicate Restarts(a: Action, runId: string) {
    match a
    case NewRun(setup) => Rid(setup.runId) == Rid(runId)
    case EndOfRun(id) => Rid(id) == Rid(runId)
    case _ => false
  }

  lemma FinishTiers(env: Env, k: KState, c: Call, p: Proposal, sim: SimResult, risk: Risk, answer: Step -> Option<Outcome>, runId: string)
    ensures var t, t' := TierOf(k, runId), TierOf(Finish(env, k, c, p, sim, risk, answer).k, runId);
            t <= t' && (t' == t || 1 <= t' <= 3)
  {
    hide ToStep, Recorded, StateAfter, Violations, Clusters, CommitBody, CommitMetadata, EventBody, EventMetadata, DEFAULT_RUN, KeyOf;
  }

  lemma LoggingKeepsTiers(env: Env, k: KState, p: Proposal, f: Finding, e: Event, c: Call, runId: string)
    ensures TierOf(Committed(env, k, p, f, c), runId) == TierOf(k, runId) == TierOf(WithEvent(env, k, e, c), runId)
    ensures TierOf(k.(runs := Known(k.runs, c.runId)), runId) == TierOf(k, runId)
  {
    hide CommitBody, CommitMetadata, EventBody, EventMetadata, DEFAULT_RUN;
  }

  lemma {:induction false} TurnTiers(env: Env, k: KState, c: Call, answer: Step -> Option<Outcome>, runId: string)
    ensures var t, t' := TierOf(k, runId), TierOf(Turn(env, k, c, answer).k, runId);
            t <= t' && (t' == t || 1 <= t' <= 3)
  {
    hide ToStep, TierGate, Validate, Decide, Finish, Normal, Simulate, Committed, WithEvent, CfgOf, Known, Rid;
    var p, k1 := ProposalOf(env, c), k.(runs := Known(k.runs, c.runId));
    var tier := RunOf(k1.runs, c.runId).tier;
    var e := match TierGate(env, k.state.stepCount, CfgOf(env.tiers, tier), c.raw)
             case Some(reason) => StepRejected(tier, reason)
             case None => StepRejected(tier, Approved);
    forall f, x: KState | x.runs == k1.runs || x == WithEvent(env, k1, e, c)
      ensures TierOf(Committed(env, x, p, f, c), runId) == TierOf(k, runId)
    {
      LoggingKeepsTiers(env, x, p, f, e, c, runId);
      LoggingKeepsTiers(env, k1, p, f, e, c, runId);
      LoggingKeepsTiers(env, k, p, f, e, c, runId);
    }
    LoggingKeepsTiers(env, k, p, Early(Approved), e, c, runId);
    if Cost(env, p).Some? {
      var sim := SimOf(env, k1, c, p, Cost(env, p).value);
      FinishTiers(env, k1, c, p, sim, env.risk(p, sim, k1.state, k1.policy), answer, runId);
    }
  }

  /** Until it is restarted, a run's tier never falls, and it never passes 3. */
  lemma {:induction false} TierNeverFalls(env: Env, r: Run, j: nat, i: nat, runId: string)
    requires IsRun(env, r) && j <= i <= |r.turns| && forall n :: j <= n < i ==> !Restarts(r.actions[n], runId)
    ensures var t, t' := TierOf(At(r, j), runId), TierOf(At(r, i), runId);
            t <= t' && (t' == t || 1 <= t' <= 3)
  {
    hide Turn, Rid;
    if i > j {
      TierNeverFalls(env, r, j, i - 1, runId);
      assert Happens(env, r, i - 1);
      var a := r.actions[i - 1];
      if a.Stepped? { TurnTiers(env, At(r, i - 1), a.call, a.answer, runId); }
    }
  }

  /** From the start, whatever happens, every tier is between 0 and 3. */
  lemma {:induction false} TiersInRange(env: Env, r: Run, i: nat, policy: Policy, lines: seq<HL.Line>, runId: string)
    requires IsRun(env, r) && r.start == Boot(policy, lines) && i <= |r.turns|
    ensures 0 <= TierOf(At(r, i), runId) <= 3
  {
    hide Turn, Rid;
    if i > 0 {
      TiersInRange(env, r, i - 1, policy, lines, runId);
      assert Happens(env, r, i - 1);
      var a := r.actions[i - 1];
      if a.Stepped? { TurnTiers(env, At(r, i - 1), a.call, a.answer, runId); }
    }
  }

  /** The tier sets no limit of its own. */
  predicate Unlimited(b: Budgets) {
    b.maxTotalSteps <= 0 && b.maxPatchBytes <= 0 && b.maxFilesTouched <= 0 && b.maxLinesChanged <= 0
  }

  lemma UnlimitedGate(env: Env, stepCount: int, cfg: TierCfg, raw: Step)
    requires Unlimited(cfg.budgets) && TierAllows(env.lx, raw, cfg.allow)
    ensures TierGate(env, stepCount, cfg, raw).None?
  {
    hide Touched, Permits, Classify, Field, LinesChangedIn;
  }

  /** Under a monotone policy, a step whose paths a run's tier permits once has
      them permitted for good, until the run is restarted. The whole tier gate
      then stays open where the tier sets no limits; a limit on steps may close it. */
  lemma {:induction false} PermittedStaysPermitted(env: Env, r: Run, j: nat, i: nat, policy: Policy, lines: seq<HL.Line>, raw: Step, runId: string)
    requires MonotoneTiers(env.tiers) && IsRun(env, r) && r.start == Boot(policy, lines)
    requires j <= i <= |r.turns| && forall n :: j <= n < i ==> !Restarts(r.actions[n], runId)
    requires TierAllows(env.lx, raw, CfgOf(env.tiers, TierOf(At(r, j), runId)).allow)
    ensures TierAllows(env.lx, raw, CfgOf(env.tiers, TierOf(At(r, i), runId)).allow)
    ensures var cfg := CfgOf(env.tiers, TierOf(At(r, i), runId));
            Unlimited(cfg.budgets) ==> TierGate(env, At(r, i).state.stepCount, cfg, raw).None?
  {
    hide TierAllows, MonotoneTiers, CfgOf, TierGate, Unlimited;
    TiersInRange(env, r, j, policy, lines, runId);
    TierNeverFalls(env, r, j, i, runId);
    AllowedStaysAllowed(env.lx, env.tiers, raw, TierOf(At(r, j), runId), TierOf(At(r, i), runId));
    var cfg := CfgOf(env.tiers, TierOf(At(r, i), runId));
    if Unlimited(cfg.budgets) { UnlimitedGate(env, At(r, i).state.stepCount, cfg, raw); }
  }
}
