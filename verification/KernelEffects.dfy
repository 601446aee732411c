/** What a call leaves behind, on the fields of the kernel and of its ledger, and
    what the counters of a run add up to. */
module KernelEffects {
  import opened Common
  import opened Json
  import opened Steps
  import opened Simulation
  import opened Validation
  import opened Kernel
  import opened KernelRuns
  import opened KernelSafety
  import HL = HardLedger

  // -------------------------------------------------------------- the counters

  /** The state behind an execution: a step more, its cost added, one failure more
      or - down to none - one less, and the action last among at most twenty. */
  lemma {:induction false} StateAfterMeans(s: State, action: string, cost: real, success: bool)
    ensures var s', n := StateAfter(s, action, cost, success), |s.recentActions|;
            && s'.stepCount == s.stepCount + 1 && s'.totalCost == s.totalCost + cost
            && s'.recentFailures == (if !success then s.recentFailures + 1 else if s.recentFailures >= 1 then s.recentFailures - 1 else 0)
            && s'.recentActions == (if n < 20 then s.recentActions else s.recentActions[n - 19..]) + [action]
            && s' == s.(stepCount := s'.stepCount, totalCost := s'.totalCost, recentFailures := s'.recentFailures, recentActions := s'.recentActions)
  {
    ActionLast(s, action);
  }

  lemma ActionLast(s: State, action: string)
    ensures var n := |s.recentActions|;
            WithAction(s, action) == s.(recentActions := (if n < 20 then s.recentActions else s.recentActions[n - 19..]) + [action])
  {
    var n := |s.recentActions|;
    var all := s.recentActions + [action];
    if n >= 20 { assert all[|all| - 20..] == s.recentActions[n - 19..] + [action]; }
  }

  lemma FinishEffects(env: Env, k: KState, c: Call, p: Proposal, sim: SimResult, risk: Risk, answer: Step -> Option<Outcome>)
    ensures var t, o := Finish(env, k, c, p, sim, risk, answer), answer(ToStep(p)).GetOr(Outcome(false, -1, "", "", 0.0, ""));
            var s := StateAfter(k.state, p.action, sim.costEst, o.success);
            var clustered := s.recentFailures >= k.policy.failClusterThreshold;
            && t.k.state == (if clustered then s.(safetyLevel := if s.safetyLevel >= 1 then 2 else s.safetyLevel + 1) else s)
            && t.k.policy == (if clustered
                              then k.policy.(riskMax := if k.policy.riskMax >= 0.4 then k.policy.riskMax - 0.1 else 0.3,
                                             successMin := if k.policy.successMin <= 0.45 then k.policy.successMin + 0.05 else 0.5)
                              else k.policy)
            && t.k.stepCount == k.stepCount + 1
            && t.k.failures == (if o.success || k.failures >= 2 then 0 else k.failures + 1)
            && t.k.history == Recorded(k.history, k.policy.historyMax, KeyOf(p.action, c.context), o.success, sim.costEst)
            && t.result == Some(StepResult(Committing, Finding(Some(sim), Some(risk), Approved, Some(o), Violations(o, s, k.policy))))
            && t.executed == [ToStep(p)]
            && RunOf(t.k.runs, c.runId) == RunState(PickNextTier(RunOf(k.runs, c.runId).tier, env.kinds(o), env.tiers), env.kinds(o))
            && forall id :: Rid(id) != Rid(c.runId) ==> RunOf(t.k.runs, id) == RunOf(k.runs, id)
  {
    hide ToStep, Recorded, StateAfter, Violations, CommitBody, CommitMetadata, EventBody, EventMetadata, PickNextTier, KeyOf, DEFAULT_RUN;
  }

  lemma {:induction false} TurnFinishes(env: Env, k: KState, c: Call, answer: Step -> Option<Outcome>)
    requires Admitted(env, k, c)
    ensures var p, k1 := ProposalOf(env, c), k.(runs := Known(k.runs, c.runId));
            var sim := SimOf(env, k, c, p, Cost(env, p).value);
            Turn(env, k, c, answer) == Finish(env, k1, c, p, sim, env.risk(p, sim, k.state, k.policy), answer)
    ensures forall id :: RunOf(Known(k.runs, c.runId), id) == RunOf(k.runs, id)
  {
    hide ToStep, TierGate, Validate, Decide, Finish, Normal, Committed, WithEvent, CfgOf, Simulate;
  }

  /** What an execution does to the kernel, over any run. */
  lemma {:induction false} ExecutionEffects(env: Env, r: Run, i: nat, c: Call, answer: Step -> Option<Outcome>)
    requires IsRun(env, r) && i < |r.turns| && r.actions[i] == Stepped(c, answer) && r.turns[i].executed != []
    ensures var k, k', p := At(r, i), At(r, i + 1), ProposalOf(env, c);
            var o := answer(ToStep(p)).GetOr(Outcome(false, -1, "", "", 0.0, ""));
            var s := k.state;
            var failures := if !o.success then s.recentFailures + 1 else if s.recentFailures >= 1 then s.recentFailures - 1 else 0;
            var clustered := failures >= k.policy.failClusterThreshold;
            && Cost(env, p).Some?
            && k'.state == s.(stepCount := s.stepCount + 1, totalCost := s.totalCost + Cost(env, p).value, recentFailures := failures,
                              recentActions := (if |s.recentActions| < 20 then s.recentActions
                                                else s.recentActions[|s.recentActions| - 19..]) + [p.action],
                              safetyLevel := if !clustered then s.safetyLevel else if s.safetyLevel >= 1 then 2 else s.safetyLevel + 1)
            && k'.policy == (if clustered
                             then k.policy.(riskMax := if k.policy.riskMax >= 0.4 then k.policy.riskMax - 0.1 else 0.3,
                                            successMin := if k.policy.successMin <= 0.45 then k.policy.successMin + 0.05 else 0.5)
                             else k.policy)
            && k'.stepCount == k.stepCount + 1
            && k'.failures == (if o.success || k.failures >= 2 then 0 else k.failures + 1)
            && k'.history == Recorded(k.history, k.policy.historyMax, p.action + "|" + c.context, o.success, Cost(env, p).value)
            && RunOf(k'.runs, c.runId) == RunState(PickNextTier(RunOf(k.runs, c.runId).tier, env.kinds(o), env.tiers), env.kinds(o))
            && (forall id :: Rid(id) != Rid(c.runId) ==> RunOf(k'.runs, id) == RunOf(k.runs, id))
            && r.turns[i].executed == [ToStep(p)]
            && r.turns[i].result.Some? && r.turns[i].result.value.finding.outcome == Some(o)
  {
    hide Turn, Admitted, Advanced, SameCore, Finish, Simulate, ToStep, Recorded, PickNextTier, StateAfter, Normal, EstimateCost;
    assert Happens(env, r, i);
    var k, p := At(r, i), ProposalOf(env, c);
    TurnAdmits(env, k, c, answer);
    AdmittedWithin(env, k, c);
    TurnFinishes(env, k, c, answer);
    var sim := SimOf(env, k, c, p, Cost(env, p).value);
    CostEstIs(env, k, c, p, Cost(env, p).value);
    FinishEffects(env, k.(runs := Known(k.runs, c.runId)), c, p, sim, env.risk(p, sim, k.state, k.policy), answer);
    StateAfterMeans(k.state, p.action, sim.costEst, answer(ToStep(p)).GetOr(RAISED).success);
  }

  lemma TurnRejects(env: Env, k: KState, c: Call, answer: Step -> Option<Outcome>)
    ensures var t := Turn(env, k, c, answer);
            t.executed == [] ==>
              t.k.state == if t.result.Some? && t.result.value.phase == Deciding
                           then WithAction(k.state, Field(env.lx, c.raw, "type")) else k.state
  {
    hide ToStep, TierGate, Validate, Decide, Finish, Normal, WithAction, CfgOf, Simulate, Known, EventBody, EventMetadata, CommitBody, CommitMetadata, Field;
    ActionIsType(env, c);
    var p, k1 := ProposalOf(env, c), k.(runs := Known(k.runs, c.runId));
    if Cost(env, p).Some? {
      var sim := SimOf(env, k1, c, p, Cost(env, p).value);
      FinishAdvances(env, k1, c, p, sim, env.risk(p, sim, k1.state, k1.policy), answer);
    }
  }

  /** A call that executes nothing, over any run: only one refused by the decision
      leaves its mark, as the last of the recent actions; history, settings,
      counters and tiers stay. */
  lemma {:induction false} RefusalEffects(env: Env, r: Run, i: nat, c: Call, answer: Step -> Option<Outcome>)
    requires IsRun(env, r) && i < |r.turns| && r.actions[i] == Stepped(c, answer) && r.turns[i].executed == []
    ensures var k, k', n := At(r, i), At(r, i + 1), |At(r, i).state.recentActions|;
            var decided := r.turns[i].result.Some? && r.turns[i].result.value.phase == Deciding;
            && k'.state == (if decided
                            then k.state.(recentActions := (if n < 20 then k.state.recentActions else k.state.recentActions[n - 19..])
                                                           + [Field(env.lx, c.raw, "type")])
                            else k.state)
            && k'.policy == k.policy && k'.history == k.history && k'.stepCount == k.stepCount && k'.failures == k.failures
            && forall id :: RunOf(k'.runs, id) == RunOf(k.runs, id)
  {
    hide Turn, Admitted, Advanced, WithAction, Field;
    assert Happens(env, r, i);
    TurnAdmits(env, At(r, i), c, answer);
    TurnRejects(env, At(r, i), c, answer);
    ActionLast(At(r, i).state, Field(env.lx, c.raw, "type"));
  }

  // ----------------------------------------------------------------- the totals

  /** What the executions of the first `i` actions were estimated to cost. */
  function Spent(env: Env, r: Run, i: nat): real
    requires i <= |r.turns| == |r.actions|
  {
    if i == 0 then 0.0
    else Spent(env, r, i - 1) + (if r.turns[i - 1].executed != [] && r.actions[i - 1].Stepped? then CostOf(env, r.actions[i - 1].call) else 0.0)
  }

  lemma TotalsStep(env: Env, r: Run, i: nat)
    requires IsRun(env, r) && i < |r.turns| && !r.actions[i].NewRun?
    ensures var k, k', ran := At(r, i), At(r, i + 1), |r.turns[i].executed|;
            && ran <= 1 && (ran > 0 ==> r.actions[i].Stepped?)
            && k'.state.stepCount == k.state.stepCount + ran && k'.stepCount == k.stepCount + ran
            && k'.state.totalCost == k.state.totalCost + (if ran > 0 then CostOf(env, r.actions[i].call) else 0.0)
  {
    hide Turn, Field, PickNextTier, Recorded, Normal, EstimateCost, ToStep;
    assert Happens(env, r, i);
    match r.actions[i]
    case Stepped(c, answer) =>
      if r.turns[i].executed == [] { RefusalEffects(env, r, i, c, answer); } else { ExecutionEffects(env, r, i, c, answer); }
    case _ =>
  }

  /** From a reset to the next: the steps counted are the executions, the kernel's
      own count grows by as many, and the total cost is the sum of their estimates. */
  lemma {:induction false} TotalsAddUp(env: Env, r: Run, i: nat, k: KState, setup: RunSetup)
    requires IsRun(env, r) && r.start == Reset(k, setup) && i <= |r.turns|
    requires forall n :: 0 <= n < i ==> !r.actions[n].NewRun?
    ensures At(r, i).state.stepCount == Executions(r, i) && At(r, i).stepCount == k.stepCount + Executions(r, i)
    ensures At(r, i).state.totalCost == Spent(env, r, i)
  {
    hide Do, CostOf;
    if i > 0 {
      TotalsAddUp(env, r, i - 1, k, setup);
      TotalsStep(env, r, i - 1);
    }
  }

  // ---------------------------------------------------------------- the records

  /** The record of a call: what was proposed, predicted, decided and why, the
      outcome, the state it is committed in, and for which run, at which tier. */
  ghost predicate Describes(env: Env, c: Call, t: Turned, rec: HL.Record) {
    t.result.Some? &&
    var f, p, s, b := t.result.value.finding, ProposalOf(env, c), t.k.state, rec.body;
    && b.proposalHash == env.hasher.sha(env.texts.proposal(p))
    && b.simulation == (if f.sim.Some? then env.texts.sim(f.sim.value) else Obj(map[]))
    && b.risk == (if f.risk.Some? then f.risk.value.record else Obj(map[]))
    && b.decision == (if t.executed != [] then "APPROVE" else "REJECT")
    && b.decisionReason == env.texts.reason(f.reason)
    && (if t.executed == [] then f.outcome.None? && b.outcomeHash.None? && b.verification.None?
        else f.outcome.Some? && b.outcomeHash == Some(env.hasher.sha(env.texts.outcome(f.outcome.value)))
             && b.verification == Some(env.texts.violations(f.violations)))
    && b.stateHash == env.hasher.sha(env.texts.state(s))
    && rec.entryHash == env.hasher.sha(env.hasher.canon(b)) && rec.chainHash == env.hasher.sha(rec.prevChainHash + rec.entryHash)
    && rec.ts == c.ts
    && rec.metadata == map["action" := Str(Field(env.lx, c.raw, "type")), "intent" := Str(c.intent), "run_id" := Str(c.runId),
                           "bundle_id" := Str(c.bundleId), "tier" := Num(RunOf(t.k.runs, c.runId).tier as real), "context_hash" := Str(c.context),
                           "memory_version" := Str(s.memoryVersion), "env_hash" := Str(s.envHash), "step_count" := Num(s.stepCount as real)]
  }

  /** The lines `after` are `before` and one record more, the last one, behind the
      chain hash `prev`. */
  ghost predicate OneMore(before: seq<HL.Line>, prev: string, after: HL.Handle) {
    && after.lines != [] && after.lines[..|after.lines| - 1] == before
    && after.lines[|after.lines| - 1].Stored?
    && after.lines[|after.lines| - 1].rec.prevChainHash == prev && after.prev == after.lines[|after.lines| - 1].rec.chainHash
  }

  lemma CommitIsLast(env: Env, k: KState, p: Proposal, f: Finding, c: Call, t: Turned)
    requires p == ProposalOf(env, c) && t.result.Some? && t.result.value.finding == f
    requires t.k.ledger == Committed(env, k, p, f, c).ledger && t.k.state == k.state && RunOf(t.k.runs, c.runId) == RunOf(k.runs, c.runId)
    requires t.executed != [] <==> f.outcome.Some?
    ensures OneMore(k.ledger.lines, k.ledger.prev, t.k.ledger) && Describes(env, c, t, t.k.ledger.lines[|t.k.ledger.lines| - 1].rec)
  {
    hide NormalParams, DEFAULT_RUN;
  }

  /** The line of an event is a rejection marked as one, for the call's run. */
  ghost predicate EventLine(env: Env, c: Call, e: Event, l: HL.Line) {
    l.Stored? &&
    var name, text := env.texts.eventName(e), env.texts.event(e, c);
    && l.rec.body == HL.Body(env.hasher.sha(text), Obj(map[]), Obj(map[]), "REJECT", "event:" + name, None,
                             env.hasher.sha("kernel_event:" + env.hasher.sha(text)), None)
    && l.rec.entryHash == env.hasher.sha(env.hasher.canon(l.rec.body))
    && l.rec.chainHash == env.hasher.sha(l.rec.prevChainHash + l.rec.entryHash) && l.rec.ts == c.ts
    && l.rec.metadata == map["record_type" := Str("kernel_event"), "run_id" := Str(c.runId), "event_type" := Str(name),
                             "action" := Str("event:" + name), "intent" := Str(c.intent), "bundle_id" := Str(c.bundleId),
                             "event" := Str(text), "ts" := Num(c.ts)]
  }

  lemma EventIsLast(env: Env, k: KState, e: Event, c: Call)
    ensures var k' := WithEvent(env, k, e, c);
            && OneMore(k.ledger.lines, k.ledger.prev, k'.ledger) && EventLine(env, c, e, k'.ledger.lines[|k.ledger.lines|])
            && k' == k.(ledger := k'.ledger)
  {
  }

  /** The record of the call comes last, behind that of the event if there is one. */
  ghost predicate RecordsCall(env: Env, c: Call, t: Turned, before: HL.Handle, event: Option<Event>) {
    && t.k.ledger.lines != [] && t.k.ledger.lines[|t.k.ledger.lines| - 1].Stored?
    && Describes(env, c, t, t.k.ledger.lines[|t.k.ledger.lines| - 1].rec)
    && match event
       case None => OneMore(before.lines, before.prev, t.k.ledger)
       case Some(e) =>
         var n, lines := |before.lines|, t.k.ledger.lines;
         && |lines| == n + 2 && lines[..n] == before.lines && EventLine(env, c, e, lines[n]) && lines[n].rec.prevChainHash == before.prev
         && OneMore(lines[..n + 1], lines[n].rec.chainHash, t.k.ledger)
  }

  lemma WithEventRecorded(env: Env, c: Call, t: Turned, k: KState, e: Event, p: Proposal, f: Finding, k': KState)
    requires p == ProposalOf(env, c) && t.result.Some? && t.result.value.finding == f && (t.executed != [] <==> f.outcome.Some?)
    requires k'.ledger == WithEvent(env, k, e, c).ledger && t.k.ledger == Committed(env, k', p, f, c).ledger
    requires t.k.state == k'.state && RunOf(t.k.runs, c.runId) == RunOf(k'.runs, c.runId)
    ensures RecordsCall(env, c, t, k.ledger, Some(e))
  {
    hide WithEvent, Committed, Describes, EventLine, Normal, RunOf;
    EventIsLast(env, k, e, c);
    CommitIsLast(env, k', p, f, c, t);
    var n, lines := |k.ledger.lines|, t.k.ledger.lines;
    assert lines[..n + 1] == k'.ledger.lines && lines[..n] == k'.ledger.lines[..n] == k.ledger.lines && lines[n] == k'.ledger.lines[n];
  }

  lemma PlainRecorded(env: Env, c: Call, t: Turned, k: KState, p: Proposal, f: Finding)
    requires p == ProposalOf(env, c) && t.result.Some? && t.result.value.finding == f && (t.executed != [] <==> f.outcome.Some?)
    requires t.k.ledger == Committed(env, k, p, f, c).ledger && t.k.state == k.state && RunOf(t.k.runs, c.runId) == RunOf(k.runs, c.runId)
    ensures RecordsCall(env, c, t, k.ledger, None)
  {
    hide Committed, Describes, Normal, RunOf;
    CommitIsLast(env, k, p, f, c, t);
  }

  lemma FinishRecorded(env: Env, k: KState, c: Call, p: Proposal, sim: SimResult, risk: Risk, answer: Step -> Option<Outcome>)
    requires p == ProposalOf(env, c)
    ensures var t, tier := Finish(env, k, c, p, sim, risk, answer), RunOf(k.runs, c.runId).tier;
            var o := answer(ToStep(p)).GetOr(RAISED);
            var tier' := PickNextTier(tier, env.kinds(o), env.tiers);
            RecordsCall(env, c, t, k.ledger, if tier' == tier then None else Some(Escalated(tier, tier', env.kinds(o))))
  {
    hide ToStep, Recorded, StateAfter, Violations, WithEvent, Committed, PickNextTier, KeyOf, Normal, RecordsCall, Clusters;
    var o := answer(ToStep(p)).GetOr(RAISED);
    var t, tier, kinds := Finish(env, k, c, p, sim, risk, answer), RunOf(k.runs, c.runId).tier, env.kinds(o);
    var tier' := PickNextTier(tier, kinds, env.tiers);
    var k0 := k.(state := StateAfter(k.state, p.action, sim.costEst, o.success), failures := Counter(k.failures, o.success),
                 history := Recorded(k.history, k.policy.historyMax, KeyOf(p.action, c.context), o.success, sim.costEst),
                 runs := k.runs[Rid(c.runId) := RunState(tier', kinds)]);
    var k1 := Absorbed(env, k, c, p, sim.costEst, o);
    var k2 := if Clusters(k1.state, k1.policy) then WithTightening(k1) else k1;
    var f := Finding(Some(sim), Some(risk), Approved, Some(o), Violations(o, k1.state, k1.policy));
    EventIsLast(env, k0, Escalated(tier, tier', kinds), c);
    CommittedKeeps(env, k2, p, f, c);
    if tier' == tier {
      PlainRecorded(env, c, t, k2, p, f);
    } else {
      WithEventRecorded(env, c, t, k0, Escalated(tier, tier', kinds), p, f, k2);
    }
  }

  lemma CommittedKeeps(env: Env, k: KState, p: Proposal, f: Finding, c: Call)
    ensures var k' := Committed(env, k, p, f, c);
            k'.state == k.state && forall id :: RunOf(k'.runs, id) == RunOf(k.runs, id)
  {
    hide CommitBody, CommitMetadata, DEFAULT_RUN;
  }

  lemma {:induction false} TurnRecorded(env: Env, k: KState, c: Call, answer: Step -> Option<Outcome>)
    requires Turn(env, k, c, answer).result.Some?
    ensures var t, tier := Turn(env, k, c, answer), RunOf(k.runs, c.runId).tier;
            var gate := TierGate(env, k.state.stepCount, CfgOf(env.tiers, tier), c.raw);
            && (gate.Some? ==> RecordsCall(env, c, t, k.ledger, Some(StepRejected(tier, gate.value))))
            && (gate.None? && t.executed == [] ==> RecordsCall(env, c, t, k.ledger, None))
            && (t.executed != [] ==>
                  var o := answer(ToStep(ProposalOf(env, c))).GetOr(RAISED);
                  var tier' := PickNextTier(tier, env.kinds(o), env.tiers);
                  RecordsCall(env, c, t, k.ledger, if tier' == tier then None else Some(Escalated(tier, tier', env.kinds(o)))))
  {
    hide ToStep, TierGate, Validate, Decide, Finish, Normal, Committed, WithEvent, CfgOf, Simulate, RecordsCall, PickNextTier, WithAction, EstimateCost, Known;
    var p, k1 := ProposalOf(env, c), k.(runs := Known(k.runs, c.runId));
    KnownRun(k.runs, c.runId);
    var t, tier := Turn(env, k, c, answer), RunOf(k.runs, c.runId).tier;
    match TierGate(env, k.state.stepCount, CfgOf(env.tiers, tier), c.raw)
    case Some(reason) =>
      var k2 := WithEvent(env, k1, StepRejected(tier, reason), c);
      EventIsLast(env, k1, StepRejected(tier, reason), c);
      CommittedKeeps(env, k2, p, Early(reason), c);
      WithEventRecorded(env, c, t, k1, StepRejected(tier, reason), p, Early(reason), k2);
    case None =>
      var faults := Validate(env, p, k1.state, k1.policy).value;
      if faults != [] {
        CommittedKeeps(env, k1, p, Early(Invalid(faults)), c);
        PlainRecorded(env, c, t, k1, p, Early(Invalid(faults)));
      } else {
        var sim := SimOf(env, k1, c, p, Cost(env, p).value);
        var risk := env.risk(p, sim, k1.state, k1.policy);
        match Decide(sim, risk.effective, k1.policy)
        case None =>
          FinishAdvances(env, k1, c, p, sim, risk, answer);
          FinishRecorded(env, k1, c, p, sim, risk, answer);
        case Some(refusal) =>
          var k2, f := k1.(state := WithAction(k1.state, p.action)), Finding(Some(sim), Some(risk), Refused(refusal, p.action, sim, risk, k1.policy), None, []);
          CommittedKeeps(env, k2, p, f, c);
          PlainRecorded(env, c, t, k2, p, f);
      }
  }

  /** Over any run: a call that returns leaves one record that describes it, behind
      one event if the tier's gate refused it or if its outcome raised the tier; a
      call that raises, and anything that is not a call, leaves the ledger as it was. */
  lemma {:induction false} CallIsRecorded(env: Env, r: Run, i: nat)
    requires IsRun(env, r) && i < |r.turns|
    ensures var k, t, a := At(r, i), r.turns[i], r.actions[i];
            if !a.Stepped? || t.result.None? then t.k.ledger == k.ledger
            else
              var tier, tier' := RunOf(k.runs, a.call.runId).tier, RunOf(t.k.runs, a.call.runId).tier;
              var gate := TierGate(env, k.state.stepCount, CfgOf(env.tiers, tier), a.call.raw);
              RecordsCall(env, a.call, t, k.ledger,
                if gate.Some? then Some(StepRejected(tier, gate.value))
                else if tier' != tier then Some(Escalated(tier, tier', env.kinds(t.result.value.finding.outcome.GetOr(RAISED))))
                else None)
  {
    hide Turn, TierGate, RecordsCall, Admitted, Advanced, PickNextTier, Recorded, ToStep, Normal, EstimateCost, CfgOf, WithAction, Field;
    assert Happens(env, r, i);
    var a := r.actions[i];
    if a.Stepped? {
      ResultOf(env, At(r, i), a.call, a.answer);
      if r.turns[i].result.Some? {
        TurnRecorded(env, At(r, i), a.call, a.answer);
        if r.turns[i].executed == [] {
          RefusalEffects(env, r, i, a.call, a.answer);
        } else {
          ExecutionEffects(env, r, i, a.call, a.answer);
          GateOpen(env, At(r, i), a.call, a.answer);
        }
      }
    }
  }

  lemma {:induction false} GateOpen(env: Env, k: KState, c: Call, answer: Step -> Option<Outcome>)
    requires Turn(env, k, c, answer).executed != []
    ensures TierGate(env, k.state.stepCount, CfgOf(env.tiers, RunOf(k.runs, c.runId).tier), c.raw).None?
  {
    hide Turn, Advanced, SameCore, Normal, TierGate, Validate, Decide, Simulate, EstimateCost;
    TurnAdmits(env, k, c, answer);
  }

  /** The ledger only grows. */
  lemma {:induction false} LedgerGrows(env: Env, r: Run, j: nat, i: nat)
    requires IsRun(env, r) && j <= i <= |r.turns|
    ensures At(r, j).ledger.lines <= At(r, i).ledger.lines
  {
    hide Do, TierGate, Describes, EventLine;
    if i > j {
      LedgerGrows(env, r, j, i - 1);
      CallIsRecorded(env, r, i - 1);
    }
  }
}
