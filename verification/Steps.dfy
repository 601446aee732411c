/** Steps, proposals and tiers: rfsn_kernel/normalize.py, tier_policy.py and the
    parts of tool_registry.py they rest on. */
module Steps {
  import opened Common
  import opened Json
  import opened TextLines
  import opened DiffMinimize

  /** A step as the planner writes it, and as the executor receives it. */
  type Step = map<string, Json>

  /** Text work left to the environment: `str` of a value that is not a string,
      `str.strip`, the two paths of a "diff --git a/... b/..." line (none if it
      has another shape), and the three lists of globs. */
  datatype Lexer = Lexer(show: Json -> string, strip: string -> string, gitPaths: string -> seq<string>,
                         testsGlob: string -> bool, depsGlob: string -> bool, ciGlob: string -> bool)

  function Text(lx: Lexer, j: Json): string {
    match j
    case Str(s) => s
    case _ => lx.show(j)
  }

  /** `str(step.get(key, ""))`. */
  function Field(lx: Lexer, step: Step, key: string): string {
    if key in step then Text(lx, step[key]) else ""
  }

  // ------------------------------------------------------------------ registry

  datatype Tool = Tool(safe: bool, enabled: bool, params: set<string>)

  const REGISTRY: map<string, Tool> := map[
    "repo_search" := Tool(true, true, {"pattern", "timeout_s", "max_results", "path_glob"}),
    "repo_read_range" := Tool(true, true, {"path", "line_start", "line_end", "timeout_s"}),
    "read_file" := Tool(true, true, {"path", "timeout_s"}),
    "list_files" := Tool(true, true, {"path", "glob", "max_results"}),
    "detect_project" := Tool(true, true, {"path", "timeout_s"}),
    "detect_workdirs" := Tool(true, true, {"max_depth", "timeout_s"}),
    "apply_patch" := Tool(true, true, {"patch", "timeout_s"}),
    "apply_semantic_patch" := Tool(true, false, {"path", "search", "replace", "timeout_s"}),
    "run_tests" := Tool(true, true, {"template_id", "template_params", "workdir_id", "timeout_s"}),
    "run_cmd_template" := Tool(true, true, {"template", "workdir_id", "timeout_s", "env"}),
    "format_fix" := Tool(true, true, {"template", "workdir_id", "timeout_s"}),
    "ensure_deps" := Tool(true, true, {"manifest", "workdir_id", "timeout_s"}),
    "generate_repo_map" := Tool(true, true, {"path", "max_depth", "include_globs"}),
    "trace_execution" := Tool(false, false, {"path", "entry_point", "args", "timeout_s"})
  ]

  function AllowedParams(action: string): set<string> {
    if action in REGISTRY then REGISTRY[action].params else {}
  }

  // ------------------------------------------------------------- normalization

  datatype Proposal = Proposal(action: string, params: map<string, Json>, contextHash: string, intent: string, bundleId: string)

  const STEP_ID := "_step_id"

  predicate Survives(action: string, key: string) {
    key != "type" && key != "id" && key in AllowedParams(action)
  }

  function NormalParams(raw: Step, action: string): map<string, Json> {
    var kept := map k | k in raw && Survives(action, k) :: raw[k];
    if "id" in raw then kept[STEP_ID := raw["id"]] else kept
  }

  function Normal(lx: Lexer, raw: Step, intent: string, contextHash: string, bundleId: string): Proposal {
    var action := Field(lx, raw, "type");
    Proposal(action, NormalParams(raw, action), contextHash, intent, bundleId)
  }

  predicate Hidden(key: string) { key != "" && key[0] == '_' }

  predicate Truthy(j: Json) {
    match j
    case Null => false
    case Bool(b) => b
    case Num(n) => n != 0.0
    case NaN => true
    case Inf(_) => true
    case Str(s) => s != ""
    case Arr(items) => items != []
    case Obj(fields) => fields != map[]
  }

  /** The step handed to the executor. */
  function ToStep(p: Proposal): Step {
    var head: Step := map["type" := Str(p.action)];
    var named := if Truthy(Get(p.params, STEP_ID)) then head["id" := p.params[STEP_ID]] else head;
    named + Visible(p.params, {})
  }

  /** The parameters that are not hidden, but for those still `pending`. */
  function Visible(params: map<string, Json>, pending: set<string>): map<string, Json> {
    map k | k in params && k !in pending && !Hidden(k) :: params[k]
  }

  lemma VisibleStep(params: map<string, Json>, pending: set<string>, k: string)
    requires k in params && k in pending
    ensures Visible(params, pending - {k}) ==
            if Hidden(k) then Visible(params, pending) else Visible(params, pending)[k := params[k]]
  {
  }

  lemma MergeUpdate(a: map<string, Json>, b: map<string, Json>, k: string, v: Json)
    ensures (a + b)[k := v] == a + b[k := v]
  {
  }

  method Normalize(lx: Lexer, raw: Step, intent: string, contextHash: string, bundleId: string) returns (p: Proposal)
    ensures p == Normal(lx, raw, intent, contextHash, bundleId)
  {
    hide REGISTRY, STEP_ID;
    var action := Field(lx, raw, "type");
    var allowed := AllowedParams(action);
    var params: map<string, Json> := map[];
    var keys := raw.Keys;
    while keys != {}
      invariant keys <= raw.Keys
      invariant params == map k | k in raw && k !in keys && Survives(action, k) :: raw[k]
    {
      var k :| k in keys;
      keys := keys - {k};
      if k == "type" || k == "id" {
        continue;
      }
      if k in allowed {
        params := params[k := raw[k]];
      }
    }
    if "id" in raw {
      params := params[STEP_ID := raw["id"]];
    }
    p := Proposal(action, params, contextHash, intent, bundleId);
  }

  method ProposalToStep(p: Proposal) returns (step: Step)
    ensures step == ToStep(p)
  {
    step := map["type" := Str(p.action)];
    if Truthy(Get(p.params, STEP_ID)) {
      step := step["id" := p.params[STEP_ID]];
    }
    ghost var named := step;
    var keys := p.params.Keys;
    assert Visible(p.params, keys) == map[];
    while keys != {}
      invariant keys <= p.params.Keys
      invariant step == named + Visible(p.params, keys)
    {
      var k :| k in keys;
      VisibleStep(p.params, keys, k);
      MergeUpdate(named, Visible(p.params, keys), k, p.params[k]);
      hide Visible;
      keys := keys - {k};
      if Hidden(k) {
        continue;
      }
      step := step[k := p.params[k]];
    }
  }

  // ------------------------------------------------------------- paths touched

  /** The strings of a list, in order. */
  function StringsOf(items: seq<Json>): seq<string> {
    if items == [] then []
    else StringsOf(items[..|items| - 1]) + (match items[|items| - 1] case Str(s) => [s] case _ => [])
  }

  /** The paths of a list of files: strings, and dicts whose path is a string. */
  function FilePaths(items: seq<Json>): seq<string> {
    if items == [] then []
    else
      FilePaths(items[..|items| - 1])
      + (match items[|items| - 1]
         case Str(s) => [s]
         case Obj(f) => if Get(f, "path").Str? then [f["path"].s] else []
         case _ => [])
  }

  function HeaderPaths(lx: Lexer, lines: seq<string>): seq<string> {
    if lines == [] then []
    else
      var last := lines[|lines| - 1];
      HeaderPaths(lx, lines[..|lines| - 1])
      + (if StartsWith(last, "+++ b/") || StartsWith(last, "--- a/") then [lx.strip(last[6..])] else [])
  }

  function GitPaths(lx: Lexer, lines: seq<string>): seq<string> {
    if lines == [] then [] else GitPaths(lx, lines[..|lines| - 1]) + lx.gitPaths(lines[|lines| - 1])
  }

  function PatchPaths(lx: Lexer, patch: string): seq<string> {
    var paths := HeaderPaths(lx, SplitLines(patch));
    if paths != [] then paths else GitPaths(lx, SplitLines(patch))
  }

  /** Every path the step mentions, repetitions included. */
  function Mentioned(lx: Lexer, step: Step): seq<string> {
    (match Get(step, "path") case Str(s) => [s] case _ => [])
    + (match Get(step, "paths") case Arr(items) => StringsOf(items) case _ => [])
    + (match Get(step, "files") case Arr(items) => FilePaths(items) case _ => [])
    + (match Get(step, "patch") case Str(s) => PatchPaths(lx, s) case _ => [])
  }

  /** The distinct elements in order of first occurrence. */
  function Deduped(s: seq<string>): (r: seq<string>)
    ensures forall x :: x in r <==> x in s
  {
    if s == [] then []
    else
      var front, last := Deduped(s[..|s| - 1]), s[|s| - 1];
      if last in s[..|s| - 1] then front else front + [last]
  }

  function Touched(lx: Lexer, step: Step): seq<string> { Deduped(Mentioned(lx, step)) }

  method StepTouches(lx: Lexer, step: Step) returns (touched: seq<string>)
    ensures touched == Touched(lx, step)
  {
    hide Mentioned, Deduped;
    var out := Mentioned(lx, step);
    var seen: set<string> := {};
    touched := [];
    DedupedStep(out, 0);
    for i := 0 to |out|
      invariant touched == Deduped(out[..i]) && forall x :: x in seen <==> x in touched
    {
      DedupedStep(out, i);
      if out[i] !in seen {
        seen := seen + {out[i]};
        touched := touched + [out[i]];
      }
    }
    assert out[..|out|] == out;
  }

  lemma DedupedStep(s: seq<string>, i: nat)
    requires i <= |s|
    ensures Deduped(s[..0]) == []
    ensures i < |s| ==> Deduped(s[..i + 1]) == if s[i] in Deduped(s[..i]) then Deduped(s[..i]) else Deduped(s[..i]) + [s[i]]
  {
    if i < |s| { assert s[..i + 1][..i] == s[..i]; }
  }

  lemma {:induction false} StringsAre(items: seq<Json>, x: string)
    ensures x in StringsOf(items) <==> exists i :: 0 <= i < |items| && items[i] == Str(x)
  {
    if items != [] {
      var front := items[..|items| - 1];
      StringsAre(front, x);
      assert items == front + [items[|items| - 1]];
    }
  }

  lemma {:induction false} FilesAre(items: seq<Json>, x: string)
    ensures x in FilePaths(items) <==>
            exists i :: 0 <= i < |items| &&
              (items[i] == Str(x) || (items[i].Obj? && "path" in items[i].fields && items[i].fields["path"] == Str(x)))
  {
    if items != [] {
      var front := items[..|items| - 1];
      FilesAre(front, x);
      assert items == front + [items[|items| - 1]];
    }
  }

  lemma {:induction false} HeadersAre(lx: Lexer, lines: seq<string>, x: string)
    ensures x in HeaderPaths(lx, lines) <==>
            exists i :: 0 <= i < |lines| && (StartsWith(lines[i], "+++ b/") || StartsWith(lines[i], "--- a/")) && x == lx.strip(lines[i][6..])
    ensures HeaderPaths(lx, lines) == [] <==>
            forall i :: 0 <= i < |lines| ==> !StartsWith(lines[i], "+++ b/") && !StartsWith(lines[i], "--- a/")
  {
    if lines != [] {
      var front := lines[..|lines| - 1];
      HeadersAre(lx, front, x);
      assert lines == front + [lines[|lines| - 1]];
    }
  }

  lemma {:induction false} GitsAre(lx: Lexer, lines: seq<string>, x: string)
    ensures x in GitPaths(lx, lines) <==> exists i :: 0 <= i < |lines| && x in lx.gitPaths(lines[i])
  {
    if lines != [] {
      var front := lines[..|lines| - 1];
      GitsAre(lx, front, x);
      assert lines == front + [lines[|lines| - 1]];
    }
  }

  /** The paths of a patch: those behind its "+++ b/" and "--- a/" lines, and only if
      it has none those of its "diff --git" lines. */
  lemma {:induction false} PatchPathsAre(lx: Lexer, patch: string, x: string)
    ensures var lines := SplitLines(patch);
            x in PatchPaths(lx, patch) <==>
              if exists i :: 0 <= i < |lines| && ("+++ b/" <= lines[i] || "--- a/" <= lines[i])
              then exists i :: 0 <= i < |lines| && ("+++ b/" <= lines[i] || "--- a/" <= lines[i]) && x == lx.strip(lines[i][6..])
              else exists i :: 0 <= i < |lines| && x in lx.gitPaths(lines[i])
  {
    hide SplitLines, HeaderPaths, GitPaths;
    HeadersAre(lx, SplitLines(patch), x);
    GitsAre(lx, SplitLines(patch), x);
  }

  /** What a step touches: its path, the strings among its paths, its files by name
      or by their own path, and what its patch names. */
  lemma {:induction false} TouchedMeans(lx: Lexer, step: Step, x: string)
    ensures x in Touched(lx, step) <==>
            || ("path" in step && step["path"] == Str(x))
            || ("paths" in step && step["paths"].Arr? && exists i :: 0 <= i < |step["paths"].items| && step["paths"].items[i] == Str(x))
            || ("files" in step && step["files"].Arr? && x in FilePaths(step["files"].items))
            || ("patch" in step && step["patch"].Str? && x in PatchPaths(lx, step["patch"].s))
  {
    hide PatchPaths, StringsOf, FilePaths;
    if "paths" in step && step["paths"].Arr? { StringsAre(step["paths"].items, x); }
  }

  /** Each path is listed once, in the order of first mention. */
  lemma {:induction false} DedupedOrder(s: seq<string>, i: nat, j: nat) returns (a: nat)
    requires i < j < |Deduped(s)|
    ensures a < |s| && s[a] == Deduped(s)[i] && Deduped(s)[j] !in s[..a + 1] && Deduped(s)[i] != Deduped(s)[j]
  {
    var n := |s| - 1;
    var front := Deduped(s[..n]);
    if j < |front| {
      a := DedupedOrder(s[..n], i, j);
      assert s[..n][..a + 1] == s[..a + 1];
    } else {
      assert front[i] in s[..n];
      a :| 0 <= a < n && s[..n][a] == front[i];
      assert s[..a + 1] == s[..n][..a + 1];
    }
  }

  // --------------------------------------------------------------------- tiers

  datatype Kind = Code | Tests | Deps | Ci

  function Classify(lx: Lexer, path: string): Kind {
    var p := lx.strip(path);
    if p == "" then Code
    else if lx.testsGlob(p) then Tests
    else if lx.depsGlob(p) then Deps
    else if lx.ciGlob(p) then Ci
    else Code
  }

  datatype Allow = Allow(editTests: bool, editDeps: bool, editCi: bool)

  /** A budget of 0 or less is no budget. */
  datatype Budgets = Budgets(maxTotalSteps: int, maxPatchBytes: int, maxFilesTouched: int, maxLinesChanged: int)

  datatype TierCfg = TierCfg(allow: Allow, budgets: Budgets)

  /** The three lists of failure kinds are the escalation rules. */
  datatype TierPolicy = TierPolicy(tiers: map<int, TierCfg>, toTier1: seq<string>, toTier2: seq<string>, toTier3: seq<string>)

  const NO_BUDGETS := Budgets(0, 0, 0, 0)

  const DEFAULT_TIER_POLICY := TierPolicy(
    map[0 := TierCfg(Allow(false, false, false), NO_BUDGETS),
        1 := TierCfg(Allow(true, false, false), NO_BUDGETS),
        2 := TierCfg(Allow(true, true, false), NO_BUDGETS),
        3 := TierCfg(Allow(true, true, true), NO_BUDGETS)],
    ["tests_failed"],
    ["deps_install_failed", "import_error_missing_module", "build_system_missing_dependency"],
    ["ci_failed", "ci_config_invalid", "ci_env_mismatch"])

  /** A tier the policy does not list allows nothing special and has no budget. */
  function CfgOf(policy: TierPolicy, tier: int): TierCfg {
    if tier in policy.tiers then policy.tiers[tier] else TierCfg(Allow(false, false, false), NO_BUDGETS)
  }

  predicate Permits(allow: Allow, kind: Kind) {
    match kind
    case Code => true
    case Tests => allow.editTests
    case Deps => allow.editDeps
    case Ci => allow.editCi
  }

  /** Which paths a tier permits: the first of the three lists of globs that names
      the stripped path decides, and a path in none of them is always permitted. */
  lemma {:induction false} PermitsMeans(lx: Lexer, allow: Allow, path: string)
    ensures Permits(allow, Classify(lx, path)) <==>
            lx.strip(path) == ""
            || (lx.testsGlob(lx.strip(path)) && allow.editTests)
            || (!lx.testsGlob(lx.strip(path)) && lx.depsGlob(lx.strip(path)) && allow.editDeps)
            || (!lx.testsGlob(lx.strip(path)) && !lx.depsGlob(lx.strip(path)) && (lx.ciGlob(lx.strip(path)) ==> allow.editCi))
  {
  }

  predicate TierAllows(lx: Lexer, step: Step, allow: Allow) {
    forall path :: path in Touched(lx, step) ==> Permits(allow, Classify(lx, path))
  }

  /** The first of the paths that the tier forbids, if any. */
  function FirstForbidden(lx: Lexer, touched: seq<string>, allow: Allow): (path: Option<string>)
    ensures path.None? <==> forall p :: p in touched ==> Permits(allow, Classify(lx, p))
    ensures path.Some? ==> path.value in touched && !Permits(allow, Classify(lx, path.value))
  {
    if touched == [] then None
    else if !Permits(allow, Classify(lx, touched[0])) then Some(touched[0])
    else
      assert forall p :: p in touched <==> p == touched[0] || p in touched[1..];
      FirstForbidden(lx, touched[1..], allow)
  }

  method TierAllowsStep(lx: Lexer, step: Step, allow: Allow) returns (forbidden: Option<string>)
    ensures forbidden == FirstForbidden(lx, Touched(lx, step), allow)
    ensures forbidden.None? <==> TierAllows(lx, step, allow)
  {
    hide Touched, Permits, Classify;
    var touched := StepTouches(lx, step);
    for i := 0 to |touched|
      invariant FirstForbidden(lx, touched, allow) == FirstForbidden(lx, touched[i..], allow)
    {
      assert touched[i..][1..] == touched[i + 1..];
      if !Permits(allow, Classify(lx, touched[i])) {
        return Some(touched[i]);
      }
    }
    return None;
  }

  predicate AnyOf(rules: seq<string>, kinds: seq<string>) {
    exists r :: r in rules && r in kinds
  }

  /** The kinds of failure that call for a tier. */
  function RulesOf(policy: TierPolicy, tier: int): seq<string> {
    if tier == 1 then policy.toTier1 else if tier == 2 then policy.toTier2 else if tier == 3 then policy.toTier3 else []
  }

  /** The lowest tier above the current one that some failure calls for, and the
      current one if there is none. */
  function PickNextTier(current: int, kinds: seq<string>, policy: TierPolicy): (tier: int)
    ensures current <= tier && (tier == current || 1 <= tier <= 3)
    ensures tier > current ==> AnyOf(RulesOf(policy, tier), kinds)
    ensures forall t :: current < t <= 3 && AnyOf(RulesOf(policy, t), kinds) ==> current < tier <= t
  {
    if current < 1 && AnyOf(policy.toTier1, kinds) then 1
    else if current < 2 && AnyOf(policy.toTier2, kinds) then 2
    else if current < 3 && AnyOf(policy.toTier3, kinds) then 3
    else current
  }

  /** The flags a higher tier allows include those a lower one does. */
  ghost predicate MonotoneTiers(policy: TierPolicy) {
    forall t, u :: 0 <= t <= u <= 3 ==> Weaker(CfgOf(policy, t).allow, CfgOf(policy, u).allow)
  }

  predicate Weaker(a: Allow, b: Allow) {
    (a.editTests ==> b.editTests) && (a.editDeps ==> b.editDeps) && (a.editCi ==> b.editCi)
  }

  /** The built-in tiers: tests from 1 on, dependencies from 2, CI at 3, no budgets;
      and what each failure calls for. */
  lemma {:induction false} DefaultTiers(tier: int, kind: Kind, failure: string)
    requires 0 <= tier <= 3
    ensures Permits(CfgOf(DEFAULT_TIER_POLICY, tier).allow, kind) <==>
            match kind case Code => true case Tests => tier >= 1 case Deps => tier >= 2 case Ci => tier == 3
    ensures CfgOf(DEFAULT_TIER_POLICY, tier).budgets == Budgets(0, 0, 0, 0)
    ensures PickNextTier(tier, [failure], DEFAULT_TIER_POLICY) ==
            if tier < 1 && failure == "tests_failed" then 1
            else if tier < 2 && failure in {"deps_install_failed", "import_error_missing_module", "build_system_missing_dependency"} then 2
            else if tier < 3 && failure in {"ci_failed", "ci_config_invalid", "ci_env_mismatch"} then 3
            else tier
  {
    assert tier == 0 || tier == 1 || tier == 2 || tier == 3;
    forall rules: seq<string>
      ensures AnyOf(rules, [failure]) <==> failure in rules
    {
      assert failure in [failure];
    }
  }

  lemma DefaultIsMonotone()
    ensures MonotoneTiers(DEFAULT_TIER_POLICY)
  {
    var p := DEFAULT_TIER_POLICY;
    forall t, u | 0 <= t <= u <= 3
      ensures Weaker(CfgOf(p, t).allow, CfgOf(p, u).allow)
    {
      assert t == 0 || t == 1 || t == 2 || t == 3;
      assert u == 0 || u == 1 || u == 2 || u == 3;
    }
  }

  /** What a tier allows, every higher tier of a monotone policy allows. */
  lemma AllowedStaysAllowed(lx: Lexer, policy: TierPolicy, step: Step, t: int, u: int)
    requires MonotoneTiers(policy) && 0 <= t <= u <= 3 && TierAllows(lx, step, CfgOf(policy, t).allow)
    ensures TierAllows(lx, step, CfgOf(policy, u).allow)
  {
    assert Weaker(CfgOf(policy, t).allow, CfgOf(policy, u).allow);
  }

  // ------------------------------------------- the step executed and the step checked

  predicate PathKey(key: string) { key in {"path", "paths", "files", "patch"} }

  lemma PathKeyIsPlain(key: string)
    requires PathKey(key)
    ensures !Hidden(key) && key != "type" && key != "id" && key != STEP_ID
  {
    assert key[0] in {'p', 'f'};
    assert STEP_ID[0] == '_' && "type"[0] == 't' && "id"[0] == 'i';
  }

  /** A key other than these reaches the executor only with its raw value. */
  lemma PlainSurvives(raw: Step, action: string, p: Proposal, key: string)
    requires !Hidden(key) && key != "type" && key != "id" && key != STEP_ID && p.params == NormalParams(raw, action)
    ensures key in ToStep(p) ==> key in raw && ToStep(p)[key] == raw[key]
  {
    hide REGISTRY, Truthy, STEP_ID, Survives, Hidden;
  }

  lemma SurvivorsAreRaw(lx: Lexer, raw: Step, intent: string, contextHash: string, bundleId: string, key: string)
    requires PathKey(key)
    ensures var step := ToStep(Normal(lx, raw, intent, contextHash, bundleId));
            key in step ==> key in raw && step[key] == raw[key]
  {
    hide REGISTRY, Truthy, STEP_ID, ToStep, NormalParams, PathKey, Hidden;
    PathKeyIsPlain(key);
    PlainSurvives(raw, Field(lx, raw, "type"), Normal(lx, raw, intent, contextHash, bundleId), key);
  }

  /** The step executed, key by key: the type, the id unless it counts as false, and
      the parameters the action allows, none of which is hidden, as they were. */
  lemma {:induction false} ExecutedKeys(lx: Lexer, raw: Step, intent: string, contextHash: string, bundleId: string, key: string)
    ensures var step, action := ToStep(Normal(lx, raw, intent, contextHash, bundleId)), Field(lx, raw, "type");
            && step.Keys >= {"type"} && step["type"] == Str(action)
            && ("id" in step <==> "id" in raw && Truthy(raw["id"])) && ("id" in step ==> step["id"] == raw["id"])
            && (key != "type" && key != "id" ==>
                  (key in step <==> key in raw && key in AllowedParams(action))
                  && (key in step ==> step[key] == raw[key]))
  {
    hide REGISTRY, Truthy;
    assert "type"[0] == 't' && "id"[0] == 'i' && STEP_ID[0] == '_';
    FalseValues(Null);
    if key in AllowedParams(Field(lx, raw, "type")) { PlainParams(Field(lx, raw, "type"), key); }
    if STEP_ID in AllowedParams(Field(lx, raw, "type")) { PlainParams(Field(lx, raw, "type"), STEP_ID); }
  }

  /** What counts as false. */
  lemma FalseValues(j: Json)
    ensures !Truthy(j) <==> j in {Null, Bool(false), Num(0.0), Str(""), Arr([]), Obj(map[])}
  {
  }

  /** No tool takes a hidden parameter. */
  lemma PlainParams(action: string, key: string)
    requires key in AllowedParams(action)
    ensures key != "" && key[0] != '_'
  {
    assert key in {"pattern", "timeout_s", "max_results", "path_glob", "path", "line_start", "line_end", "glob", "max_depth", "patch", "search",
                   "replace", "template_id", "template_params", "workdir_id", "template", "env", "manifest", "include_globs", "entry_point", "args"};
    assert "pattern"[0] == "path_glob"[0] == "path"[0] == "patch"[0] == 'p' && "timeout_s"[0] == "template_id"[0] == "template_params"[0] == 't';
    assert "template"[0] == 't' && "max_results"[0] == "max_depth"[0] == "manifest"[0] == 'm' && "line_start"[0] == "line_end"[0] == 'l';
    assert "glob"[0] == 'g' && "search"[0] == 's' && "replace"[0] == 'r' && "workdir_id"[0] == 'w' && "env"[0] == "entry_point"[0] == 'e';
    assert "include_globs"[0] == 'i' && "args"[0] == 'a';
  }

  /** The paths touched by the step that is executed are among those of the raw
      step that was checked. */
  lemma {:induction false} ExecutedTouchesChecked(lx: Lexer, raw: Step, intent: string, contextHash: string, bundleId: string, path: string)
    requires path in Touched(lx, ToStep(Normal(lx, raw, intent, contextHash, bundleId)))
    ensures path in Touched(lx, raw)
  {
    hide ToStep, Normal, PatchPaths, StringsOf, FilePaths;
    SurvivorsAreRaw(lx, raw, intent, contextHash, bundleId, "path");
    SurvivorsAreRaw(lx, raw, intent, contextHash, bundleId, "paths");
    SurvivorsAreRaw(lx, raw, intent, contextHash, bundleId, "files");
    SurvivorsAreRaw(lx, raw, intent, contextHash, bundleId, "patch");
    var step := ToStep(Normal(lx, raw, intent, contextHash, bundleId));
    assert path in Mentioned(lx, step);
    assert path in Mentioned(lx, raw);
  }

  /** So the tier check made on the raw step covers the step executed. */
  lemma {:induction false} TierCheckCarriesOver(lx: Lexer, raw: Step, intent: string, contextHash: string, bundleId: string, allow: Allow)
    requires TierAllows(lx, raw, allow)
    ensures TierAllows(lx, ToStep(Normal(lx, raw, intent, contextHash, bundleId)), allow)
  {
    var step := ToStep(Normal(lx, raw, intent, contextHash, bundleId));
    forall path | path in Touched(lx, step)
      ensures Permits(allow, Classify(lx, path))
    {
      ExecutedTouchesChecked(lx, raw, intent, contextHash, bundleId, path);
    }
  }
}
