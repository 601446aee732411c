/** The kernel of rfsn_kernel/kernel.py, with the gates of validate.py and with
    run_state.py.

    A step is first described on values: `Turn` is what one call of
    `kernel_step` makes of the kernel's whole state. The class `HardKernel` then
    does the same in place, and each of its methods is proved to agree. */
module Kernel {
  import opened Common
  import opened Json
  import opened TextLines
  import opened DiffMinimize
  import opened Steps
  import opened Simulation
  import opened Validation
  import HL = HardLedger
  import Replay

  // --------------------------------------------------------------- environment

  datatype Risk = Risk(effective: real, record: Json)

  /** What a call can be refused or approved for. */
  datatype Reason =
    | TotalSteps(count: int, max: int)
    | PatchBytes(max: int)
    | FilesTouched(count: int, max: int)
    | LinesChanged(count: int, max: int)
    | TierForbids(path: string, kind: Kind)
    | Invalid(faults: seq<Fault>)
    | Refused(refusal: Refusal, action: string, sim: SimResult, risk: Risk, policy: Policy)
    | Approved

  datatype Event =
    | StepRejected(tier: int, reason: Reason)
    | Escalated(from: int, to: int, kinds: seq<string>)

  /** Texts and JSON the records carry; only hashed, stored or compared. */
  datatype Texts = Texts(proposal: Proposal -> string, state: State -> string, outcome: Outcome -> string,
                         reason: Reason -> string, event: (Event, Call) -> string, eventName: Event -> string,
                         sim: SimResult -> Json, violations: seq<Violation> -> Json)

  /** What the kernel is configured with, and the code it calls that is not
      modelled: rounding to four decimals, the length of a text in UTF-8, the risk
      score, and the failure kinds read off an outcome. */
  datatype Env = Env(lx: Lexer, hasher: HL.Hasher, texts: Texts, tiers: TierPolicy, rules: Rules, round: real -> real,
                     bytes: string -> nat, risk: (Proposal, SimResult, State, Policy) -> Risk, kinds: Outcome -> seq<string>)

  datatype Call = Call(raw: Step, context: string, intent: string, bundleId: string, runId: string, evidence: Evidence, ts: real)

  // ----------------------------------------------------------------- run state

  datatype RunState = RunState(tier: int, kinds: seq<string>)

  type Runs = map<string, RunState>

  const DEFAULT_RUN := "__default__"

  function Rid(runId: string): string { if runId != "" then runId else DEFAULT_RUN }

  function RunOf(runs: Runs, runId: string): RunState {
    if Rid(runId) in runs then runs[Rid(runId)] else RunState(0, [])
  }

  class RunStateStore {
    var runs: Runs

    constructor ()
      ensures runs == map[]
    {
      runs := map[];
    }

    /** Looking a run up makes it known. */
    method Get(runId: string) returns (rs: RunState)
      modifies this
      ensures rs == RunOf(old(runs), runId) && runs == old(runs)[Rid(runId) := rs]
      ensures var rid := if runId == "" then "__default__" else runId;
              rs == (if rid in old(runs) then old(runs)[rid] else RunState(0, [])) && rid in runs
    {
      var rid := Rid(runId);
      if rid !in runs {
        runs := runs[rid := RunState(0, [])];
      }
      rs := runs[rid];
    }

    method Set(runId: string, rs: RunState)
      modifies this
      ensures runs == old(runs)[Rid(runId) := rs]
    {
      runs := runs[Rid(runId) := rs];
    }

    method Clear(runId: string)
      modifies this
      ensures runs == old(runs) - {Rid(runId)}
    {
      runs := runs - {Rid(runId)};
    }
  }

  // --------------------------------------------------------------------- gates

  function LinesChangedIn(lines: seq<string>): nat {
    if lines == [] then 0
    else
      var last := lines[|lines| - 1];
      LinesChangedIn(lines[..|lines| - 1]) + (if IsPlus(last) || IsMinus(last) then 1 else 0)
  }

  method CountChanged(patch: string) returns (n: nat)
    ensures n == LinesChangedIn(SplitLines(patch))
  {
    var added: nat, deleted: nat := 0, 0;
    var lines := SplitLines(patch);
    for i := 0 to |lines|
      invariant added + deleted == LinesChangedIn(lines[..i])
    {
      assert lines[..i + 1][..i] == lines[..i];
      if IsPlus(lines[i]) {
        added := added + 1;
      } else if IsMinus(lines[i]) {
        deleted := deleted + 1;
      }
    }
    assert lines[..|lines|] == lines;
    n := added + deleted;
  }

  /** The limits a tier sets on a patch. */
  function PatchGate(env: Env, b: Budgets, raw: Step): Option<Reason> {
    var patch, touched := Field(env.lx, raw, "patch"), |Touched(env.lx, raw)|;
    var changed := LinesChangedIn(SplitLines(patch));
    if b.maxPatchBytes > 0 && env.bytes(patch) > b.maxPatchBytes then Some(PatchBytes(b.maxPatchBytes))
    else if b.maxFilesTouched > 0 && touched > b.maxFilesTouched then Some(FilesTouched(touched, b.maxFilesTouched))
    else if b.maxLinesChanged > 0 && changed > b.maxLinesChanged then Some(LinesChanged(changed, b.maxLinesChanged))
    else None
  }

  function PathGate(env: Env, allow: Allow, raw: Step): Option<Reason> {
    var path := FirstForbidden(env.lx, Touched(env.lx, raw), allow);
    if path.Some? then Some(TierForbids(path.value, Classify(env.lx, path.value))) else None
  }

  const APPLY_PATCH := "apply_patch"

  function TierGate(env: Env, stepCount: int, cfg: TierCfg, raw: Step): Option<Reason> {
    var max := cfg.budgets.maxTotalSteps;
    var patchGate := if Get(raw, "type") == Str(APPLY_PATCH) then PatchGate(env, cfg.budgets, raw) else None;
    if max > 0 && stepCount >= max then Some(TotalSteps(stepCount, max))
    else if patchGate.Some? then patchGate
    else PathGate(env, cfg.allow, raw)
  }

  /** None when a check of the parameters raises; no fault is a pass. */
  function Validate(env: Env, p: Proposal, s: State, policy: Policy): Option<seq<Fault>> {
    if p.action !in REGISTRY then Some([UnknownAction])
    else if !REGISTRY[p.action].enabled then Some([ToolDisabled])
    else if !REGISTRY[p.action].safe && p.action !in policy.allowUnsafe then Some([UnsafeToolBlocked])
    else if s.safetyLevel >= 2 then Some([SafetyLocked])
    else if s.stepCount >= policy.maxTotalSteps then Some([StepBudgetExhausted])
    else ActionFaults(env.lx, env.rules, p)
  }

  // --------------------------------------------------------- the kernel's state

  datatype KState = KState(policy: Policy, state: State, history: Table, runs: Runs, ledger: HL.Handle,
                           stepCount: nat, failures: nat)

  const APPROVE := "APPROVE"
  const REJECT := "REJECT"
  const RECORD_TYPE := "record_type"
  const RUN_ID := "run_id"

  function Count(n: int): Json { Num(n as real) }

  /** A commit carries no record type: that is what sets it apart from events. */
  function CommitMetadata(p: Proposal, s: State, tier: int, runId: string): (m: HL.Metadata)
    ensures Get(m, RECORD_TYPE) == Null && Get(m, RUN_ID) == Str(runId)
  {
    map["action" := Str(p.action), "intent" := Str(p.intent), RUN_ID := Str(runId), "bundle_id" := Str(p.bundleId),
        "tier" := Count(tier), "context_hash" := Str(p.contextHash), "memory_version" := Str(s.memoryVersion),
        "env_hash" := Str(s.envHash), "step_count" := Count(s.stepCount)]
  }

  function EventMetadata(env: Env, e: Event, c: Call): (m: HL.Metadata)
    ensures Get(m, RECORD_TYPE) == Str(Replay.KERNEL_EVENT)
  {
    map[RECORD_TYPE := Str(Replay.KERNEL_EVENT), RUN_ID := Str(c.runId), "event_type" := Str(env.texts.eventName(e)),
        "action" := Str("event:" + env.texts.eventName(e)), "intent" := Str(c.intent), "bundle_id" := Str(c.bundleId),
        "event" := Str(env.texts.event(e, c)), "ts" := Num(c.ts)]
  }

  function EventBody(env: Env, e: Event, c: Call): HL.Body {
    var hash := env.hasher.sha(env.texts.event(e, c));
    HL.Body(hash, Obj(map[]), Obj(map[]), REJECT, "event:" + env.texts.eventName(e), None,
            env.hasher.sha("kernel_event:" + hash), None)
  }

  /** What a commit reports of the phases it has been through. */
  datatype Finding = Finding(sim: Option<SimResult>, risk: Option<Risk>, reason: Reason, outcome: Option<Outcome>,
                             violations: seq<Violation>)

  function Early(reason: Reason): Finding { Finding(None, None, reason, None, []) }

  /** Only an executed step has an outcome, and only that one is an approval. */
  function CommitBody(env: Env, p: Proposal, s: State, f: Finding): HL.Body {
    HL.Body(env.hasher.sha(env.texts.proposal(p)),
            if f.sim.Some? then env.texts.sim(f.sim.value) else Obj(map[]),
            if f.risk.Some? then f.risk.value.record else Obj(map[]),
            if f.outcome.Some? then APPROVE else REJECT,
            env.texts.reason(f.reason),
            if f.outcome.Some? then Some(env.hasher.sha(env.texts.outcome(f.outcome.value))) else None,
            env.hasher.sha(env.texts.state(s)),
            if f.outcome.Some? then Some(env.texts.violations(f.violations)) else None)
  }

  function Logged(env: Env, k: KState, body: HL.Body, ts: real, metadata: HL.Metadata): KState {
    k.(ledger := HL.Act(env.hasher, k.ledger, HL.Append(body, ts, metadata)))
  }

  function WithEvent(env: Env, k: KState, e: Event, c: Call): KState {
    Logged(env, k, EventBody(env, e, c), c.ts, EventMetadata(env, e, c))
  }

  function Known(runs: Runs, runId: string): Runs { runs[Rid(runId) := RunOf(runs, runId)] }

  function Committed(env: Env, k: KState, p: Proposal, f: Finding, c: Call): KState {
    Logged(env, k.(runs := Known(k.runs, c.runId)), CommitBody(env, p, k.state, f), c.ts,
           CommitMetadata(p, k.state, RunOf(k.runs, c.runId).tier, c.runId))
  }

  // ------------------------------------------------------------------- a step

  datatype Phase = Validating | Deciding | Committing

  datatype StepResult = StepResult(phase: Phase, finding: Finding)

  /** What a call leads to: the new state, the steps handed to the executor and
      the result, None when the call raises. */
  datatype Turned = Turned(k: KState, executed: seq<Step>, result: Option<StepResult>)

  function ProposalOf(env: Env, c: Call): Proposal { Normal(env.lx, c.raw, c.intent, c.context, c.bundleId) }

  function WithTightening(k: KState): KState {
    k.(state := k.state.(safetyLevel := if k.state.safetyLevel + 1 < 2 then k.state.safetyLevel + 1 else 2),
       policy := Tightened(k.policy))
  }

  function Counter(failures: nat, success: bool): nat {
    if success || failures + 1 >= 3 then 0 else failures + 1
  }

  function StateAfter(s: State, action: string, cost: real, success: bool): State {
    WithOutcome(WithAction(s.(stepCount := s.stepCount + 1), action).(totalCost := s.totalCost + cost), success)
  }

  /** Everything the outcome changes before verification. */
  function Absorbed(env: Env, k: KState, c: Call, p: Proposal, cost: real, o: Outcome): KState {
    var tier, kinds := RunOf(k.runs, c.runId).tier, env.kinds(o);
    var tier' := PickNextTier(tier, kinds, env.tiers);
    var k' := k.(state := StateAfter(k.state, p.action, cost, o.success),
                 failures := Counter(k.failures, o.success),
                 history := Recorded(k.history, k.policy.historyMax, KeyOf(p.action, c.context), o.success, cost),
                 runs := k.runs[Rid(c.runId) := RunState(tier', kinds)]);
    if tier' == tier then k' else WithEvent(env, k', Escalated(tier, tier', kinds), c)
  }

  function Finish(env: Env, k: KState, c: Call, p: Proposal, sim: SimResult, risk: Risk, answer: Step -> Option<Outcome>): Turned {
    var step := ToStep(p);
    var o := answer(step).GetOr(RAISED);
    var k1 := Absorbed(env, k, c, p, sim.costEst, o);
    var violations := Violations(o, k1.state, k1.policy);
    var k2 := if Clusters(k1.state, k1.policy) then WithTightening(k1) else k1;
    var f := Finding(Some(sim), Some(risk), Approved, Some(o), violations);
    var k3 := Committed(env, k2, p, f, c);
    Turned(k3.(stepCount := k3.stepCount + 1), [step], Some(StepResult(Committing, f)))
  }

  /** The estimated cost of a step; None when the estimate raises. */
  function Cost(env: Env, p: Proposal): Option<real> { EstimateCost(env.round, env.rules, p) }

  function SimOf(env: Env, k: KState, c: Call, p: Proposal, cost: real): SimResult {
    Simulate(env.round, p.action, k.state, k.history, c.context, c.evidence, cost)
  }

  function Weigh(env: Env, k: KState, c: Call, p: Proposal, cost: real, answer: Step -> Option<Outcome>): Turned {
    var sim := SimOf(env, k, c, p, cost);
    var risk := env.risk(p, sim, k.state, k.policy);
    match Decide(sim, risk.effective, k.policy)
    case None => Finish(env, k, c, p, sim, risk, answer)
    case Some(refusal) =>
      var f := Finding(Some(sim), Some(risk), Refused(refusal, p.action, sim, risk, k.policy), None, []);
      Turned(Committed(env, k.(state := WithAction(k.state, p.action)), p, f, c), [], Some(StepResult(Deciding, f)))
  }

  function Turn(env: Env, before: KState, c: Call, answer: Step -> Option<Outcome>): Turned {
    var p, k := ProposalOf(env, c), before.(runs := Known(before.runs, c.runId));
    var tier := RunOf(k.runs, c.runId).tier;
    match TierGate(env, k.state.stepCount, CfgOf(env.tiers, tier), c.raw)
    case Some(reason) =>
      Turned(Committed(env, WithEvent(env, k, StepRejected(tier, reason), c), p, Early(reason), c), [],
             Some(StepResult(Validating, Early(reason))))
    case None =>
      match Validate(env, p, k.state, k.policy)
      case None => Turned(k, [], None)
      case Some(faults) =>
        if faults != [] then
          Turned(Committed(env, k, p, Early(Invalid(faults)), c), [], Some(StepResult(Validating, Early(Invalid(faults)))))
        else match Cost(env, p)
             case None => Turned(k, [], None)
             case Some(cost) => Weigh(env, k, c, p, cost, answer)
  }

  // ---------------------------------------------------------- other operations

  datatype RunSetup = RunSetup(runId: string, rngSeed: Option<int>, envHash: string, memoryVersion: string,
                               policyHash: Option<string>, resetHistory: bool)

  function Reset(k: KState, r: RunSetup): KState {
    k.(state := Fresh(Some(r.runId), r.memoryVersion, r.envHash, r.rngSeed.GetOr(k.policy.rngSeed), r.policyHash.GetOr(k.policy.policyHash)),
       history := if r.resetHistory then [] else k.history,
       runs := k.runs[Rid(r.runId) := RunState(0, [])])
  }

  function Ended(k: KState, runId: string): KState { k.(runs := k.runs - {Rid(runId)}) }

  function NextIteration(k: KState): KState {
    k.(state := k.state.(iterCount := k.state.iterCount + 1, recentActions := []))
  }

  lemma ActionCosts(s: State, action: string)
    ensures WithAction(s, action).totalCost == s.totalCost
  {
  }

  lemma ClustersWhen(s: State, policy: Policy)
    ensures Clusters(s, policy) <==> s.recentFailures >= policy.failClusterThreshold
  {
  }

  function WithRelaxing(k: KState): KState {
    k.(state := if k.state.safetyLevel > 0 then k.state.(safetyLevel := k.state.safetyLevel - 1) else k.state,
       policy := Relaxed(k.policy))
  }

  /** A kernel as it starts on a ledger file. */
  function Boot(policy: Policy, lines: seq<HL.Line>): KState {
    KState(policy, Fresh(None, "0", "", policy.rngSeed, policy.policyHash), [], map[],
           HL.Handle(lines, HL.Resumed(lines)), 0, 0)
  }

  // ------------------------------------------------------------------ the class

  /** The executor a call is given: its answers are arbitrary, and it keeps a
      list of the steps it was handed. */
  class Executor {
    const answer: Step -> Option<Outcome>
    var calls: seq<Step>

    constructor (answer: Step -> Option<Outcome>)
      ensures this.answer == answer && calls == []
    {
      this.answer := answer;
      calls := [];
    }

    method Execute(step: Step) returns (o: Option<Outcome>)
      modifies this
      ensures calls == old(calls) + [step] && o == answer(step)
    {
      calls := calls + [step];
      o := answer(step);
    }
  }

  class HardKernel {
    const env: Env
    var policy: Policy
    const ledger: HL.Ledger
    var history: OutcomeHistory
    var state: SystemState
    const runState: RunStateStore
    var stepCount: nat
    var failures: nat

    ghost predicate Valid()
      reads this, history
    {
      ledger.h == env.hasher && history.max == policy.historyMax
    }

    ghost function View(): KState
      reads this, ledger, ledger.file, history, state, runState
    {
      KState(policy, state.now, history.stats, runState.runs, HL.Handle(ledger.file.lines, ledger.prev), stepCount, failures)
    }

    constructor (env: Env, policy: Policy, file: HL.LedgerFile)
      ensures Valid() && View() == Boot(policy, file.lines)
      ensures state.now == State("0", "", policy.rngSeed, 0, None, 0, 0, 0.0, 0, [], 0.0, policy.policyHash)
      ensures this.policy == policy && history.stats == [] && runState.runs == map[] && stepCount == failures == 0
      ensures ledger.file == file && fresh(ledger) && fresh(history) && fresh(state) && fresh(runState)
    {
      this.env := env;
      this.policy := policy;
      ledger := new HL.Ledger(env.hasher, file);
      history := new OutcomeHistory(policy.historyMax);
      state := new SystemState(Fresh(None, "0", "", policy.rngSeed, policy.policyHash));
      runState := new RunStateStore();
      stepCount := 0;
      failures := 0;
    }

    method AppendKernelEvent(e: Event, c: Call)
      requires Valid()
      modifies ledger, ledger.file
      ensures Valid() && View() == WithEvent(env, old(View()), e, c)
    {
      var rec := ledger.Append(EventBody(env, e, c), c.ts, EventMetadata(env, e, c));
    }

    method CommitLedger(p: Proposal, f: Finding, c: Call)
      requires Valid()
      modifies ledger, ledger.file, runState
      ensures Valid() && View() == Committed(env, old(View()), p, f, c)
    {
      hide CommitBody, CommitMetadata;
      var rs := runState.Get(c.runId);
      var rec := ledger.Append(CommitBody(env, p, state.now, f), c.ts, CommitMetadata(p, state.now, rs.tier, c.runId));
    }

    method AdaptiveTighten()
      requires Valid()
      modifies this`policy, state
      ensures Valid() && View() == WithTightening(old(View()))
      ensures policy.riskMax == (if old(policy).riskMax - 0.1 >= 0.3 then old(policy).riskMax - 0.1 else 0.3)
      ensures policy.successMin == (if old(policy).successMin + 0.05 <= 0.5 then old(policy).successMin + 0.05 else 0.5)
      ensures state.now.safetyLevel <= 2 && (old(state.now).safetyLevel < 2 ==> state.now.safetyLevel == old(state.now).safetyLevel + 1)
      // Stricter, but for a risk limit already below 0.3 and a floor already above 0.5.
      ensures policy.riskMax >= 0.3 && (old(policy).riskMax >= 0.3 ==> policy.riskMax <= old(policy).riskMax)
      ensures policy.successMin <= 0.5 && (old(policy).successMin <= 0.5 ==> policy.successMin >= old(policy).successMin)
    {
      state.now := state.now.(safetyLevel := if state.now.safetyLevel + 1 < 2 then state.now.safetyLevel + 1 else 2);
      policy := policy.(riskMax := Max(0.3, policy.riskMax - 0.1), successMin := Min(0.5, policy.successMin + 0.05));
    }

    method AdaptiveRelax()
      requires Valid()
      modifies this`policy, state
      ensures Valid() && View() == WithRelaxing(old(View()))
      ensures policy.riskMax == (if old(policy).riskMax + 0.05 <= 0.8 then old(policy).riskMax + 0.05 else 0.8)
      ensures policy.successMin == (if old(policy).successMin - 0.02 >= 0.1 then old(policy).successMin - 0.02 else 0.1)
      ensures old(state.now).safetyLevel > 0 ==> state.now.safetyLevel == old(state.now).safetyLevel - 1
      // Laxer, but for a risk limit already above 0.8 and a floor already below 0.1.
      ensures policy.riskMax <= 0.8 && (old(policy).riskMax <= 0.8 ==> policy.riskMax >= old(policy).riskMax)
      ensures policy.successMin >= 0.1 && (old(policy).successMin >= 0.1 ==> policy.successMin <= old(policy).successMin)
    {
      if state.now.safetyLevel > 0 {
        state.now := state.now.(safetyLevel := state.now.safetyLevel - 1);
      }
      policy := policy.(riskMax := Min(0.8, policy.riskMax + 0.05), successMin := Max(0.1, policy.successMin - 0.02));
    }

    method ResetForIteration()
      requires Valid()
      modifies state
      ensures Valid() && View() == NextIteration(old(View()))
      ensures state.now == old(state.now).(iterCount := old(state.now).iterCount + 1, recentActions := [])
    {
      state.now := state.now.(iterCount := state.now.iterCount + 1, recentActions := []);
    }

    method EndRun(runId: string)
      requires Valid()
      modifies runState
      ensures Valid() && View() == Ended(old(View()), runId)
      ensures RunOf(runState.runs, runId) == RunState(0, [])
      ensures forall id :: id != (if runId == "" then "__default__" else runId) ==>
                (id in runState.runs <==> id in old(runState.runs)) && (id in runState.runs ==> runState.runs[id] == old(runState.runs)[id])
    {
      runState.Clear(runId);
    }

    method ResetForRun(r: RunSetup)
      requires Valid()
      modifies this`history, this`state, runState
      ensures Valid() && View() == Reset(old(View()), r)
      ensures state.now == State(r.memoryVersion, r.envHash, r.rngSeed.GetOr(policy.rngSeed), 0, Some(r.runId), 0, 0, 0.0, 0, [], 0.0,
                                 r.policyHash.GetOr(policy.policyHash))
      ensures history.stats == if r.resetHistory then [] else old(history.stats)
      ensures runState.runs == old(runState.runs)[(if r.runId == "" then "__default__" else r.runId) := RunState(0, [])]
    {
      hide RunOf;
      var seed := r.rngSeed.GetOr(policy.rngSeed);
      var policyHash := r.policyHash.GetOr(policy.policyHash);
      state := new SystemState(Fresh(Some(r.runId), r.memoryVersion, r.envHash, seed, policyHash));
      if r.resetHistory {
        history := new OutcomeHistory(policy.historyMax);
      }
      var rs := runState.Get(r.runId);
      runState.Set(r.runId, RunState(0, []));
    }

    /** The gates of a tier, in the order the source tries them. */
    method CheckTier(raw: Step, tier: int) returns (reason: Option<Reason>)
      requires Valid()
      ensures reason == TierGate(env, state.now.stepCount, CfgOf(env.tiers, tier), raw)
    {
      hide SplitLines, Touched, Field, FirstForbidden;
      var cfg := CfgOf(env.tiers, tier);
      var b := cfg.budgets;
      if b.maxTotalSteps > 0 && state.now.stepCount >= b.maxTotalSteps {
        return Some(TotalSteps(state.now.stepCount, b.maxTotalSteps));
      }
      if Get(raw, "type") == Str(APPLY_PATCH) {
        var patch := Field(env.lx, raw, "patch");
        if b.maxPatchBytes > 0 && env.bytes(patch) > b.maxPatchBytes {
          return Some(PatchBytes(b.maxPatchBytes));
        }
        var touched := StepTouches(env.lx, raw);
        if b.maxFilesTouched > 0 && |touched| > b.maxFilesTouched {
          return Some(FilesTouched(|touched|, b.maxFilesTouched));
        }
        if b.maxLinesChanged > 0 {
          var changed := CountChanged(patch);
          if changed > b.maxLinesChanged {
            return Some(LinesChanged(changed, b.maxLinesChanged));
          }
        }
      }
      var forbidden := TierAllowsStep(env.lx, raw, cfg.allow);
      if forbidden.Some? {
        return Some(TierForbids(forbidden.value, Classify(env.lx, forbidden.value)));
      }
      return None;
    }

    method KernelStep(c: Call, ex: Executor) returns (r: Option<StepResult>)
      requires Valid()
      modifies this, ledger, ledger.file, history, state, runState, ex
      ensures Valid()
      ensures var t := Turn(env, old(View()), c, ex.answer);
              View() == t.k && r == t.result && ex.calls == old(ex.calls) + t.executed
    {
      hide TierGate, Validate, Simulate, Decide, WithEvent, Committed, Finish, Normal;
      var p := Normalize(env.lx, c.raw, c.intent, c.context, c.bundleId);
      var rs := runState.Get(c.runId);
      var tierReason := CheckTier(c.raw, rs.tier);
      if tierReason.Some? {
        AppendKernelEvent(StepRejected(rs.tier, tierReason.value), c);
        CommitLedger(p, Early(tierReason.value), c);
        return Some(StepResult(Validating, Early(tierReason.value)));
      }
      var faults := Validate(env, p, state.now, policy);
      if faults.None? {
        return None;
      }
      if faults.value != [] {
        CommitLedger(p, Early(Invalid(faults.value)), c);
        return Some(StepResult(Validating, Early(Invalid(faults.value))));
      }
      var cost := Cost(env, p);
      if cost.None? {
        return None;
      }
      var sim := Simulate(env.round, p.action, state.now, history.stats, c.context, c.evidence, cost.value);
      var risk := env.risk(p, sim, state.now, policy);
      var refusal := Decide(sim, risk.effective, policy);
      if refusal.Some? {
        var f := Finding(Some(sim), Some(risk), Refused(refusal.value, p.action, sim, risk, policy), None, []);
        state.RecordAction(p.action);
        CommitLedger(p, f, c);
        return Some(StepResult(Deciding, f));
      }
      var res := ExecuteAndCommit(c, p, sim, risk, rs, ex);
      r := Some(res);
    }

    /** From the executor to the ledger. */
    method ExecuteAndCommit(c: Call, p: Proposal, sim: SimResult, risk: Risk, rs: RunState, ex: Executor) returns (r: StepResult)
      requires Valid() && rs == RunOf(runState.runs, c.runId)
      modifies this`policy, this`stepCount, this`failures, ledger, ledger.file, history, state, runState, ex
      ensures Valid()
      ensures var t := Finish(env, old(View()), c, p, sim, risk, ex.answer);
              View() == t.k && Some(r) == t.result && ex.calls == old(ex.calls) + t.executed
    {
      hide ToStep, Absorbed, Violations, WithTightening, Clusters, Committed;
      var step := ProposalToStep(p);
      var answer := ex.Execute(step);
      var o := answer.GetOr(RAISED);
      AbsorbOutcome(c, p, sim.costEst, rs, o);
      var violations := Verify(o, state.now, policy);
      assert FailureCluster in violations <==> Clusters(state.now, policy) by { ClustersWhen(state.now, policy); }
      if FailureCluster in violations {
        AdaptiveTighten();
      }
      var f := Finding(Some(sim), Some(risk), Approved, Some(o), violations);
      CommitLedger(p, f, c);
      stepCount := stepCount + 1;
      r := StepResult(Committing, f);
    }

    method AbsorbOutcome(c: Call, p: Proposal, cost: real, rs: RunState, o: Outcome)
      requires Valid() && rs == RunOf(runState.runs, c.runId)
      modifies this`failures, ledger, ledger.file, history, state, runState
      ensures Valid()
      ensures View() == Absorbed(env, old(View()), c, p, cost, o)
    {
      hide WithEvent, PickNextTier, Recorded, KeyOf;
      UpdateState(p.action, cost, o.success);
      history.Record(p.action, c.context, o.success, cost);
      var kinds := env.kinds(o);
      var tier := PickNextTier(rs.tier, kinds, env.tiers);
      runState.Set(c.runId, RunState(tier, kinds));
      if tier != rs.tier {
        AppendKernelEvent(Escalated(rs.tier, tier, kinds), c);
      }
    }

    /** Counters first; three failures in a row reset their counter. */
    method UpdateState(action: string, cost: real, success: bool)
      requires Valid()
      modifies this`failures, state
      ensures Valid()
      ensures View() == old(View()).(state := StateAfter(old(View()).state, action, cost, success),
                                     failures := Counter(old(View()).failures, success))
    {
      hide WithAction, WithOutcome, MAX_ACTIONS;
      state.AdvanceStep();
      ActionCosts(state.now, action);
      state.RecordAction(action);
      state.now := state.now.(totalCost := state.now.totalCost + cost);
      if success {
        state.RecordSuccess();
        failures := 0;
      } else {
        state.RecordFailure();
        failures := failures + 1;
      }
      if failures >= 3 {
        failures := 0;
      }
    }
  }
}
