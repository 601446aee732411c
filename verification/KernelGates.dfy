/** What each gate of the kernel asks, on the fields it reads: exactly which calls
    are executed, and what every refused call is refused for. */
module KernelGates {
  import opened Common
  import opened Json
  import opened TextLines
  import opened DiffMinimize
  import opened Steps
  import opened Simulation
  import opened Validation
  import opened Kernel
  import opened KernelRuns
  import opened KernelSafety

  // ------------------------------------------------------------- the decision

  lemma {:induction false} TurnWeighs(env: Env, k: KState, c: Call, answer: Step -> Option<Outcome>, cost: real)
    requires TierGate(env, k.state.stepCount, CfgOf(env.tiers, RunOf(k.runs, c.runId).tier), c.raw).None?
    requires Validate(env, ProposalOf(env, c), k.state, k.policy) == Some([]) && Cost(env, ProposalOf(env, c)) == Some(cost)
    ensures var t, p := Turn(env, k, c, answer), ProposalOf(env, c);
            var sim := SimOf(env, k, c, p, cost);
            var risk := env.risk(p, sim, k.state, k.policy);
            var decision := Decide(sim, risk.effective, k.policy);
            t.result.Some? && t.result.value.finding.sim == Some(sim) && t.result.value.finding.risk == Some(risk)
            && t.result.value.phase == (if decision.None? then Committing else Deciding)
            && (decision.None? ==> t.executed == [ToStep(p)] && t.result.value.finding.reason == Approved)
            && (decision.Some? ==> t.executed == [] && t.result.value.finding.reason == Refused(decision.value, p.action, sim, risk, k.policy))
  {
    hide ToStep, TierGate, Validate, Decide, Normal, Committed, WithEvent, CfgOf, Cost, Known, Simulate, Absorbed, Violations, Clusters;
    KnownRun(k.runs, c.runId);
  }

  /** A call that came past validation is executed exactly when none of five bounds
      is broken, and is otherwise refused for the first that is: loop risk, drift
      risk, a predicted cluster failure, effective risk, success probability. */
  lemma {:induction false} DecisionGates(env: Env, r: Run, i: nat, c: Call, answer: Step -> Option<Outcome>, cost: real)
    requires IsRun(env, r) && i < |r.turns| && r.actions[i] == Stepped(c, answer)
    requires var k := At(r, i);
             && TierGate(env, k.state.stepCount, CfgOf(env.tiers, RunOf(k.runs, c.runId).tier), c.raw).None?
             && Validate(env, ProposalOf(env, c), k.state, k.policy) == Some([]) && Cost(env, ProposalOf(env, c)) == Some(cost)
    ensures var k, p, t := At(r, i), ProposalOf(env, c), r.turns[i];
            var sim := SimOf(env, k, c, p, cost);
            var risk := env.risk(p, sim, k.state, k.policy);
            var loop, drift, cluster := sim.loopRisk > k.policy.loopMax, sim.driftRisk > k.policy.driftMax, sim.failureMode == Some(ClusterFailure);
            var risky, hopeless := risk.effective > k.policy.riskMax, sim.successProb < k.policy.successMin;
            && t.result.Some? && t.result.value.finding.sim == Some(sim) && t.result.value.finding.risk == Some(risk)
            && t.result.value.phase == (if t.executed == [] then Deciding else Committing)
            && (t.executed == (if loop || drift || cluster || risky || hopeless then [] else [ToStep(p)]))
            && (loop ==> t.result.value.finding.reason == Refused(LoopDetected, p.action, sim, risk, k.policy))
            && (!loop && drift ==> t.result.value.finding.reason == Refused(DriftDetected, p.action, sim, risk, k.policy))
            && (!loop && !drift && cluster ==> t.result.value.finding.reason == Refused(ClusterPredicted, p.action, sim, risk, k.policy))
            && (!loop && !drift && !cluster && risky ==> t.result.value.finding.reason == Refused(RiskTooHigh, p.action, sim, risk, k.policy))
            && (!loop && !drift && !cluster && !risky && hopeless ==>
                  t.result.value.finding.reason == Refused(SuccessTooLow, p.action, sim, risk, k.policy))
  {
    hide Turn, TierGate, Validate, Simulate, Normal, ToStep, CfgOf, EstimateCost;
    assert Happens(env, r, i);
    TurnWeighs(env, At(r, i), c, answer, cost);
  }

  // ------------------------------------------------------------ the tier's gate

  lemma {:induction false} ChangedCounts(lines: seq<string>)
    ensures LinesChangedIn(lines) == |Places(lines, IsPlus)| + |Places(lines, IsMinus)|
  {
    hide IsPlus, IsMinus;
    if lines != [] {
      var front, last := lines[..|lines| - 1], lines[|lines| - 1];
      ChangedCounts(front);
      assert lines == front + [last];
      PlacesNext(front, last, IsPlus);
      PlacesNext(front, last, IsMinus);
      NotBoth(last);
    }
  }

  lemma NotBoth(line: string)
    ensures !(IsPlus(line) && IsMinus(line))
    ensures IsPlus(line) <==> line != "" && line[0] == '+' && !("+++" <= line)
    ensures IsMinus(line) <==> line != "" && line[0] == '-' && !("---" <= line)
  {
    assert "+"[0] == '+' && "-"[0] == '-';
    if line != "" { assert line[..1] == [line[0]]; }
  }

  /** How many lines a patch changes: the lines that begin with + but not with +++,
      and those that begin with - but not with ---. */
  lemma {:induction false} ChangedMeans(lines: seq<string>)
    ensures LinesChangedIn(lines) ==
            |set i | 0 <= i < |lines| && lines[i] != "" && lines[i][0] == '+' && !("+++" <= lines[i])|
            + |set i | 0 <= i < |lines| && lines[i] != "" && lines[i][0] == '-' && !("---" <= lines[i])|
  {
    hide IsPlus, IsMinus, LinesChangedIn;
    ChangedCounts(lines);
    forall i | 0 <= i < |lines|
      ensures IsPlus(lines[i]) <==> lines[i] != "" && lines[i][0] == '+' && !("+++" <= lines[i])
      ensures IsMinus(lines[i]) <==> lines[i] != "" && lines[i][0] == '-' && !("---" <= lines[i])
    {
      NotBoth(lines[i]);
    }
    assert Places(lines, IsPlus) == set i | 0 <= i < |lines| && lines[i] != "" && lines[i][0] == '+' && !("+++" <= lines[i]);
    assert Places(lines, IsMinus) == set i | 0 <= i < |lines| && lines[i] != "" && lines[i][0] == '-' && !("---" <= lines[i]);
  }

  /** A kind of path a tier does not permit. */
  predicate Forbids(allow: Allow, kind: Kind) {
    (kind == Tests && !allow.editTests) || (kind == Deps && !allow.editDeps) || (kind == Ci && !allow.editCi)
  }

  lemma {:induction false} FirstForbiddenIs(lx: Lexer, touched: seq<string>, allow: Allow, i: nat)
    requires i <= |touched| && forall j :: 0 <= j < i ==> !Forbids(allow, Classify(lx, touched[j]))
    requires i < |touched| ==> Forbids(allow, Classify(lx, touched[i]))
    ensures FirstForbidden(lx, touched, allow) == if i < |touched| then Some(touched[i]) else None
  {
    hide Classify;
    if touched != [] {
      ForbidsMeans(allow, Classify(lx, touched[0]));
      if i > 0 { FirstForbiddenIs(lx, touched[1..], allow, i - 1); }
    }
  }

  lemma ForbidsMeans(allow: Allow, kind: Kind)
    ensures Forbids(allow, kind) <==> !Permits(allow, kind)
  {
  }

  /** The tier's gate refuses a step for the first of these that holds: the tier's
      steps are used up; a patch has too many bytes, touches too many files, or
      changes too many lines - a limit of 0 is none; or a path is of a kind the
      tier does not permit, the first such path being named. */
  lemma {:induction false} TierGateMeans(env: Env, stepCount: int, cfg: TierCfg, raw: Step, i: nat)
    requires var touched := Touched(env.lx, raw);
             && i <= |touched| && (forall j :: 0 <= j < i ==> !Forbids(cfg.allow, Classify(env.lx, touched[j])))
             && (i < |touched| ==> Forbids(cfg.allow, Classify(env.lx, touched[i])))
    ensures var b, touched := cfg.budgets, Touched(env.lx, raw);
            var patch, isPatch := Field(env.lx, raw, "patch"), "type" in raw && raw["type"] == Str("apply_patch");
            var changed := LinesChangedIn(SplitLines(patch));
            TierGate(env, stepCount, cfg, raw) ==
              if b.maxTotalSteps > 0 && stepCount >= b.maxTotalSteps then Some(TotalSteps(stepCount, b.maxTotalSteps))
              else if isPatch && 0 < b.maxPatchBytes < env.bytes(patch) then Some(PatchBytes(b.maxPatchBytes))
              else if isPatch && 0 < b.maxFilesTouched < |touched| then Some(FilesTouched(|touched|, b.maxFilesTouched))
              else if isPatch && 0 < b.maxLinesChanged < changed then Some(LinesChanged(changed, b.maxLinesChanged))
              else if i < |touched| then Some(TierForbids(touched[i], Classify(env.lx, touched[i])))
              else None
  {
    hide Touched, Field, LinesChangedIn, SplitLines, Classify, FirstForbidden, Forbids;
    FirstForbiddenIs(env.lx, Touched(env.lx, raw), cfg.allow, i);
  }

  /** A call that the tier's gate refuses, in any run, gets that reason and executes
      nothing. */
  lemma {:induction false} TierRefuses(env: Env, r: Run, i: nat, c: Call, answer: Step -> Option<Outcome>)
    requires IsRun(env, r) && i < |r.turns| && r.actions[i] == Stepped(c, answer)
    ensures var k := At(r, i);
            var gate := TierGate(env, k.state.stepCount, CfgOf(env.tiers, RunOf(k.runs, c.runId).tier), c.raw);
            gate.Some? ==>
              r.turns[i].executed == [] && r.turns[i].result == Some(StepResult(Validating, Finding(None, None, gate.value, None, [])))
  {
    hide TierGate, Validate, Decide, Normal, Committed, WithEvent, CfgOf, Cost, Simulate;
    assert Happens(env, r, i);
    KnownRun(At(r, i).runs, c.runId);
  }

  // ----------------------------------------------------------------- validation

  lemma TurnValidates(env: Env, k: KState, c: Call, answer: Step -> Option<Outcome>)
    requires TierGate(env, k.state.stepCount, CfgOf(env.tiers, RunOf(k.runs, c.runId).tier), c.raw).None?
    ensures var t, checked := Turn(env, k, c, answer), Validate(env, ProposalOf(env, c), k.state, k.policy);
            && (checked.None? ==> t.result.None? && t.executed == [])
            && (checked.Some? && checked.value != [] ==>
                  t.executed == [] && t.result == Some(StepResult(Validating, Finding(None, None, Invalid(checked.value), None, []))))
  {
    hide TierGate, Validate, Decide, Normal, Committed, CfgOf, Cost, Known, Simulate;
    KnownRun(k.runs, c.runId);
  }

  /** A call that came past the tier's gate is refused for the first of these that
      holds, and for that alone: its tool is not registered, is disabled, or is
      neither safe nor listed as allowed; the kernel is locked; its steps are used
      up; or there are faults in the parameters. It raises when those cannot be read. */
  lemma {:induction false} ValidationGates(env: Env, r: Run, i: nat, c: Call, answer: Step -> Option<Outcome>)
    requires IsRun(env, r) && i < |r.turns| && r.actions[i] == Stepped(c, answer)
    requires var k := At(r, i); TierGate(env, k.state.stepCount, CfgOf(env.tiers, RunOf(k.runs, c.runId).tier), c.raw).None?
    ensures var k, action, t := At(r, i), ProposalOf(env, c).action, r.turns[i];
            var fault :=
              if action !in REGISTRY then Some(UnknownAction)
              else if !REGISTRY[action].enabled then Some(ToolDisabled)
              else if !REGISTRY[action].safe && action !in k.policy.allowUnsafe then Some(UnsafeToolBlocked)
              else if k.state.safetyLevel >= 2 then Some(SafetyLocked)
              else if k.state.stepCount >= k.policy.maxTotalSteps then Some(StepBudgetExhausted) else None;
            var faults := ActionFaults(env.lx, env.rules, ProposalOf(env, c));
            && (fault.Some? ==>
                  t.executed == [] && t.result == Some(StepResult(Validating, Finding(None, None, Invalid([fault.value]), None, []))))
            && (fault.None? && faults.None? ==> t.executed == [] && t.result.None?)
            && (fault.None? && faults.Some? && faults.value != [] ==>
                  t.executed == [] && t.result == Some(StepResult(Validating, Finding(None, None, Invalid(faults.value), None, []))))
  {
    hide Turn, TierGate, Normal, CfgOf, ActionFaults, REGISTRY;
    assert Happens(env, r, i);
    TurnValidates(env, At(r, i), c, answer);
  }

  /** A path a read may name: not empty, not absolute, without "..", not blocked. */
  predicate PlainPath(rules: Rules, j: Json) {
    j.Str? && j.s != "" && j.s[0] != '/' && !rules.blockedPath(j.s)
    && forall i :: 0 <= i < |j.s| - 1 ==> !(j.s[i] == '.' && j.s[i + 1] == '.')
  }

  /** What the parameters of each tool must be. */
  predicate Acceptable(lx: Lexer, rules: Rules, p: Proposal) {
    && (p.action == "repo_search" && "pattern" in p.params ==>
          Length(p.params["pattern"]).Some? && Length(p.params["pattern"]).value <= 500)
    && (p.action in {"repo_read_range", "read_file"} ==> "path" in p.params && PlainPath(rules, p.params["path"]))
    && (p.action == "repo_read_range" ==>
          var start := if "line_start" in p.params then AsInt(rules, p.params["line_start"]) else Some(1);
          start.Some? &&
          var end := if "line_end" in p.params then AsInt(rules, p.params["line_end"]) else start;
          end.Some? && end.value - start.value < rules.maxLinesPerRead)
    && (p.action == "detect_workdirs" && "max_depth" in p.params ==>
          AsInt(rules, p.params["max_depth"]).Some? && 1 <= AsInt(rules, p.params["max_depth"]).value <= 8)
    && (p.action == "apply_patch" ==>
          "patch" in p.params && p.params["patch"].Str? && p.params["patch"].s != "" && lx.strip(p.params["patch"].s) != ""
          && rules.patchFaults(p.params["patch"].s) == [])
    && (p.action == "run_tests" ==>
          "template_id" in p.params && Truthy(p.params["template_id"])
          && (rules.testTemplates != [] ==> p.params["template_id"].Str? && p.params["template_id"].s in rules.testTemplates))
    && (p.action in {"run_cmd_template", "format_fix"} ==>
          var template, workdir := lx.strip(TextParam(lx, p, "template")), TextParam(lx, p, "workdir_id");
          template != "" && (rules.commandTemplates != [] ==> template in rules.commandTemplates)
          && (workdir != "" ==> rules.workdirId(workdir))
          && (p.action == "format_fix" ==> |template| >= 4 && template[|template| - 4..] == "_fix"))
  }

  lemma SlashMeans(s: string)
    ensures StartsWith(s, "/") <==> s != "" && s[0] == '/'
  {
    assert "/"[0] == '/';
    if s != "" { assert s[..1] == [s[0]]; }
  }

  lemma {:induction false} PathMeans(rules: Rules, j: Json)
    ensures PathFaults(rules, j) == Some([]) <==> PlainPath(rules, j)
  {
    if j.Str? { SlashMeans(j.s); }
  }

  /** Names of equal length, told apart by one letter. */
  lemma NamesDiffer()
    ensures |"repo_search"| == |"apply_patch"| == 11 && "repo_search" != "apply_patch"
    ensures |"repo_read_range"| == |"detect_workdirs"| == 15 && "repo_read_range" != "detect_workdirs"
    ensures |"read_file"| == |"run_tests"| == 9 && "read_file" != "run_tests"
    ensures |"run_cmd_template"| == 16 && |"format_fix"| == 10
  {
    assert "repo_search"[0] == 'r' && "apply_patch"[0] == 'a';
    assert "repo_read_range"[0] == 'r' && "detect_workdirs"[0] == 'd';
    assert "read_file"[1] == 'e' && "run_tests"[1] == 'u';
  }

  lemma ReadMeans(rules: Rules, p: Proposal)
    ensures ReadFaults(rules, p) == Some([]) <==>
            && "path" in p.params && PlainPath(rules, p.params["path"])
            && var start := if "line_start" in p.params then AsInt(rules, p.params["line_start"]) else Some(1);
               start.Some? &&
               var end := if "line_end" in p.params then AsInt(rules, p.params["line_end"]) else start;
               end.Some? && end.value - start.value < rules.maxLinesPerRead
  {
    hide PathFaults, PlainPath;
    PathMeans(rules, Param(p, "path", Str("")));
    EmptyPath(rules);
    IntegerReads(rules, 1);
    var start := AsInt(rules, Param(p, "line_start", Num(1.0)));
    if start.Some? { IntegerReads(rules, start.value); }
    var faults := PathFaults(rules, Param(p, "path", Str("")));
    if faults.Some? { NoneAdded(faults.value, [ReadRangeTooLarge]); }
  }

  lemma EmptyPath(rules: Rules)
    ensures !PlainPath(rules, Str(""))
  {
  }

  lemma IntegerReads(rules: Rules, n: int)
    ensures AsInt(rules, Num(n as real)) == Some(n)
  {
    assert (n as real).Floor == n && -(n as real) == (-n) as real && ((-n) as real).Floor == -n;
  }

  lemma NoneAdded<T>(a: seq<T>, b: seq<T>)
    requires b != []
    ensures a + [] == a && a + b != []
  {
  }

  lemma PatchMeans(lx: Lexer, rules: Rules, p: Proposal)
    ensures Validation.PatchFaults(lx, rules, Param(p, "patch", Str(""))) == Some([]) <==>
            "patch" in p.params && p.params["patch"].Str? && p.params["patch"].s != "" && lx.strip(p.params["patch"].s) != ""
            && rules.patchFaults(p.params["patch"].s) == []
  {
  }

  lemma TestsMean(rules: Rules, p: Proposal)
    ensures TestFaults(rules, Get(p.params, "template_id")) == Some([]) <==>
            "template_id" in p.params && Truthy(p.params["template_id"])
            && (rules.testTemplates != [] ==> p.params["template_id"].Str? && p.params["template_id"].s in rules.testTemplates)
  {
  }

  lemma SuffixMeans(s: string)
    ensures EndsWith(s, "_fix") <==> |s| >= 4 && s[|s| - 4..] == "_fix"
  {
  }

  lemma TemplatesMean(lx: Lexer, rules: Rules, p: Proposal)
    ensures var template, workdir := lx.strip(TextParam(lx, p, "template")), TextParam(lx, p, "workdir_id");
            TemplateFaults(lx, rules, p) == [] <==>
              template != "" && (rules.commandTemplates != [] ==> template in rules.commandTemplates)
              && (workdir != "" ==> rules.workdirId(workdir))
              && (p.action == "format_fix" ==> |template| >= 4 && template[|template| - 4..] == "_fix")
  {
    hide EndsWith, TextParam;
    SuffixMeans(lx.strip(TextParam(lx, p, "template")));
  }

  /** The checks of the parameters pass exactly when these are acceptable. */
  lemma {:induction false} ParametersMean(lx: Lexer, rules: Rules, p: Proposal)
    ensures ActionFaults(lx, rules, p) == Some([]) <==> Acceptable(lx, rules, p)
  {
    hide ReadFaults, PathFaults, Validation.PatchFaults, TestFaults, TemplateFaults, PlainPath, Truthy, TextParam;
    NamesDiffer();
    EmptyPath(rules);
    IntegerReads(rules, 4);
    if p.action == "repo_search" {
    } else if p.action == "repo_read_range" {
      ReadMeans(rules, p);
    } else if p.action == "read_file" {
      PathMeans(rules, Param(p, "path", Str("")));
    } else if p.action == "detect_workdirs" {
    } else if p.action == "apply_patch" {
      PatchMeans(lx, rules, p);
    } else if p.action == "run_tests" {
      TestsMean(rules, p);
    } else if p.action in {"run_cmd_template", "format_fix"} {
      TemplatesMean(lx, rules, p);
    }
  }

  // -------------------------------------------------------- what is executed

  lemma VisibleKept(p: Proposal, key: string)
    requires key in p.params && key != "" && key[0] != '_'
    ensures key in ToStep(p) && ToStep(p)[key] == p.params[key]
  {
    hide STEP_ID, Truthy;
  }

  /** The step executed comes from an acceptable proposal, and carries its action
      and its visible parameters. */
  lemma {:induction false} ExecutedIsAcceptable(env: Env, r: Run, i: nat, step: Step)
    requires IsRun(env, r) && i < |r.turns| && step in r.turns[i].executed
    ensures r.actions[i].Stepped?
    ensures var c := r.actions[i].call;
            var p := ProposalOf(env, c);
            && step == ToStep(p) && Get(step, "type") == Str(p.action) && Acceptable(env.lx, env.rules, p)
            && TierGate(env, At(r, i).state.stepCount, CfgOf(env.tiers, RunOf(At(r, i).runs, c.runId).tier), c.raw).None?
  {
    hide Turn, ToStep, TierGate, Normal, CfgOf, Acceptable, ActionFaults, Advanced, SameCore, Simulate, Decide, REGISTRY;
    assert Happens(env, r, i);
    var c := r.actions[i].call;
    TurnAdmits(env, At(r, i), c, r.actions[i].answer);
    StepType(env.lx, c);
    ParametersMean(env.lx, env.rules, ProposalOf(env, c));
  }

  /** The tools that are enabled are all safe; the two that are not are never run,
      whatever a policy allows. */
  lemma {:induction false} EnabledTools(action: string)
    ensures action in REGISTRY && REGISTRY[action].enabled <==>
            action in {"repo_search", "repo_read_range", "read_file", "list_files", "detect_project", "detect_workdirs", "apply_patch",
                       "run_tests", "run_cmd_template", "format_fix", "ensure_deps", "generate_repo_map"}
    ensures action in REGISTRY && REGISTRY[action].enabled ==> REGISTRY[action].safe
  {
    DisabledNames();
  }

  lemma DisabledNames()
    ensures |"apply_semantic_patch"| == 20 && |"trace_execution"| == 15
    ensures "trace_execution" != "repo_read_range" && "trace_execution" != "detect_workdirs"
    ensures |"repo_search"| == |"apply_patch"| == |"ensure_deps"| == 11 && |"read_file"| == |"run_tests"| == 9
    ensures |"list_files"| == |"format_fix"| == 10 && |"detect_project"| == 14 && |"run_cmd_template"| == 16 && |"generate_repo_map"| == 17
  {
    assert "trace_execution"[0] == 't' && "repo_read_range"[0] == 'r' && "detect_workdirs"[0] == 'd';
  }

  lemma {:induction false} ExecutedTool(env: Env, r: Run, i: nat, step: Step)
    requires IsRun(env, r) && i < |r.turns| && step in r.turns[i].executed
    ensures "type" in step && step["type"].Str?
    ensures step["type"].s in {"repo_search", "repo_read_range", "read_file", "list_files", "detect_project", "detect_workdirs", "apply_patch",
                               "run_tests", "run_cmd_template", "format_fix", "ensure_deps", "generate_repo_map"}
  {
    hide Do, REGISTRY, Simulate, ToStep, Normal, CfgOf;
    ExecutedIsVetted(env, r, i, step);
    var action :| Get(step, "type") == Str(action) && action in REGISTRY && REGISTRY[action].enabled;
    EnabledTools(action);
  }

  /** Whatever reads a file in any run names it by a path that is not empty, not
      absolute, has no "..", and is not blocked. */
  lemma {:induction false} ExecutedReadsPlainPaths(env: Env, r: Run, i: nat, step: Step)
    requires IsRun(env, r) && i < |r.turns| && step in r.turns[i].executed
    requires Get(step, "type") == Str("read_file") || Get(step, "type") == Str("repo_read_range")
    ensures "path" in step && step["path"].Str? && step["path"].s != "" && step["path"].s[0] != '/'
    ensures !env.rules.blockedPath(step["path"].s)
    ensures forall j :: 0 <= j < |step["path"].s| - 1 ==> !(step["path"].s[j] == '.' && step["path"].s[j + 1] == '.')
  {
    hide Do, ToStep, TierGate, Normal, CfgOf;
    ExecutedIsAcceptable(env, r, i, step);
    assert "path"[0] == 'p';
    VisibleKept(ProposalOf(env, r.actions[i].call), "path");
  }

  lemma {:induction false} DedupedSize(s: seq<string>, all: set<string>)
    requires forall x :: x in all <==> x in s
    ensures |Deduped(s)| == |all|
  {
    if s == [] {
      NoMembers(all, s);
    } else {
      var front, last := s[..|s| - 1], s[|s| - 1];
      assert s == front + [last];
      DedupedSize(front, if last in front then all else all - {last});
    }
  }

  lemma NoMembers(all: set<string>, s: seq<string>)
    requires s == [] && forall x :: x in all <==> x in s
    ensures all == {}
  {
  }

  lemma {:induction false} FewerTouched(env: Env, c: Call)
    ensures |Touched(env.lx, ToStep(ProposalOf(env, c)))| <= |Touched(env.lx, c.raw)|
  {
    hide ToStep, Normal, Mentioned, Deduped;
    var a, b := Mentioned(env.lx, ToStep(ProposalOf(env, c))), Mentioned(env.lx, c.raw);
    DedupedSize(a, set x | x in a);
    DedupedSize(b, set x | x in b);
    forall x | x in a
      ensures x in b
    {
      assert x in Touched(env.lx, ToStep(ProposalOf(env, c)));
      ExecutedTouchesChecked(env.lx, c.raw, c.intent, c.context, c.bundleId, x);
    }
    SmallerSet(set x | x in a, set x | x in b);
  }

  /** Whatever applies a patch in any run applies a text that is not blank and in
      which nothing is found wrong, within the limits of the tier its run then has. */
  lemma {:induction false} ExecutedPatchWithinLimits(env: Env, r: Run, i: nat, step: Step)
    requires IsRun(env, r) && i < |r.turns| && step in r.turns[i].executed && Get(step, "type") == Str("apply_patch")
    requires r.actions[i].Stepped? && "type" in r.actions[i].call.raw && r.actions[i].call.raw["type"].Str?
    ensures "patch" in step && step["patch"].Str? && env.lx.strip(step["patch"].s) != "" && env.rules.patchFaults(step["patch"].s) == []
    ensures var b, patch := CfgOf(env.tiers, RunOf(At(r, i).runs, r.actions[i].call.runId).tier).budgets, step["patch"].s;
            && (b.maxPatchBytes <= 0 || env.bytes(patch) <= b.maxPatchBytes)
            && (b.maxFilesTouched <= 0 || |Touched(env.lx, step)| <= b.maxFilesTouched)
            && (b.maxLinesChanged <= 0 || LinesChangedIn(SplitLines(patch)) <= b.maxLinesChanged)
            && (b.maxTotalSteps <= 0 || At(r, i).state.stepCount < b.maxTotalSteps)
  {
    hide Do, ToStep, Normal, CfgOf, Touched, LinesChangedIn, SplitLines, FirstForbidden;
    ExecutedIsAcceptable(env, r, i, step);
    var c := r.actions[i].call;
    assert "patch"[0] == 'p';
    VisibleKept(ProposalOf(env, c), "patch");
    FewerTouched(env, c);
    assert PathKey("patch");
    SurvivorsAreRaw(env.lx, c.raw, c.intent, c.context, c.bundleId, "patch");
    ActionIsType(env, c);
  }

  // ------------------------------------------------------------------ the cost

  /** What a call is estimated to cost: a base for its tool, and on top 0.005 for
      each line of a patch and 0.0005 for each second a test run may take. */
  lemma {:induction false} CostMeans(env: Env, p: Proposal)
    ensures p.action == "apply_patch" && "patch" in p.params && p.params["patch"].Str? ==>
              Cost(env, p) == Some(env.round(0.3 + 0.005 * |SplitLines(p.params["patch"].s)| as real))
    ensures p.action == "run_tests" && "timeout_s" !in p.params ==> Cost(env, p) == Some(env.round(0.62))
    ensures p.action == "run_tests" && "timeout_s" in p.params && AsInt(env.rules, p.params["timeout_s"]).Some?
            && Fits(AsInt(env.rules, p.params["timeout_s"]).value) ==>
              Cost(env, p) == Some(env.round(0.5 + 0.0005 * AsInt(env.rules, p.params["timeout_s"]).value as real))
    ensures p.action !in BASE_COSTS ==> Cost(env, p) == Some(env.round(0.1))
    ensures p.action == "repo_search" ==> Cost(env, p) == Some(env.round(0.05))
    ensures p.action == "repo_read_range" || p.action == "detect_project" ==> Cost(env, p) == Some(env.round(0.03))
    ensures p.action == "read_file" ==> Cost(env, p) == Some(env.round(0.02))
    ensures p.action == "detect_workdirs" ==> Cost(env, p) == Some(env.round(0.06))
    ensures p.action == "run_cmd_template" ==> Cost(env, p) == Some(env.round(0.4))
    ensures p.action == "format_fix" ==> Cost(env, p) == Some(env.round(0.35))
    ensures p.action == "ensure_deps" ==> Cost(env, p) == Some(env.round(0.2))
  {
    NamesDiffer();
    IntegerReads(env.rules, 240);
    assert Fits(240);
    BaseCosts();
    hide BASE_COSTS, AsInt, Fits;
  }

  lemma BaseCosts()
    ensures BASE_COSTS.Keys >= {"repo_search", "repo_read_range", "read_file", "detect_project", "detect_workdirs", "apply_patch", "run_tests",
                                "run_cmd_template", "format_fix", "ensure_deps"}
    ensures BASE_COSTS["apply_patch"] == 0.3 && BASE_COSTS["run_tests"] == 0.5 && BASE_COSTS["repo_search"] == 0.05
    ensures BASE_COSTS["repo_read_range"] == BASE_COSTS["detect_project"] == 0.03 && BASE_COSTS["read_file"] == 0.02
    ensures BASE_COSTS["detect_workdirs"] == 0.06 && BASE_COSTS["run_cmd_template"] == 0.4 && BASE_COSTS["format_fix"] == 0.35
    ensures BASE_COSTS["ensure_deps"] == 0.2
    ensures "apply_patch" !in {"repo_search", "repo_read_range", "read_file", "detect_project", "detect_workdirs", "run_cmd_template", "format_fix", "ensure_deps"}
    ensures "run_tests" !in {"repo_search", "repo_read_range", "read_file", "detect_project", "detect_workdirs", "run_cmd_template", "format_fix", "ensure_deps"}
  {
    RateNames();
  }
}
