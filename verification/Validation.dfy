/** The per-action checks of rfsn_kernel/validate.py and the cost estimate of
    rfsn_kernel/simulate.py, with the parameters they cannot read. */
module Validation {
  import opened Common
  import opened Json
  import opened TextLines
  import opened DiffMinimize
  import opened Steps

  datatype Fault =
    | UnknownAction | ToolDisabled | UnsafeToolBlocked | SafetyLocked | StepBudgetExhausted
    | PatternTooLong | MissingPath | PathTraversal | PathBlocked | ReadRangeTooLarge | InvalidDepth
    | EmptyPatch | PatchFault(text: string) | UnknownTestTemplate | MissingTestTemplate
    | MissingTemplate | UnknownCommandTemplate | InvalidWorkdir | FixTemplateRequired

  /** The settings the checks read, which the kernel never changes, and the text
      work left out: `int` of a string, the blocked paths, what is wrong with a
      patch that is not empty, and the form of a workdir id. An empty list of
      templates stands for none configured. */
  datatype Rules = Rules(parse: string -> Option<int>, blockedPath: string -> bool, maxLinesPerRead: int,
                         testTemplates: seq<string>, commandTemplates: seq<string>, workdirId: string -> bool,
                         patchFaults: string -> seq<Fault>)

  /** `params.get(key, default)`: a key that is there counts even if it is None. */
  function Param(p: Proposal, key: string, default: Json): Json {
    if key in p.params then p.params[key] else default
  }

  function Truncated(x: real): int { if x >= 0.0 then x.Floor else -((-x).Floor) }

  /** `int(j)`; None when it raises. */
  function AsInt(rules: Rules, j: Json): Option<int> {
    match j
    case Bool(b) => Some(if b then 1 else 0)
    case Num(n) => Some(Truncated(n))
    case Str(s) => rules.parse(s)
    case _ => None
  }

  /** 2^1024 - 2^970: the integers of this size and above round to no float. */
  const FLOAT_LIMIT := 0xFFFFFFFFFFFFFC00000000000000000000000000000000000000000000000000000000000000000000000000000000000000000000000000000000000000000000000000000000000000000000000000000000000000000000000000000000000000000000000000000000000000000000000000000000000000000000000000

  predicate Fits(n: int) { -FLOAT_LIMIT < n < FLOAT_LIMIT }

  /** `len(j)`; None when it raises. */
  function Length(j: Json): Option<nat> {
    match j
    case Str(s) => Some(|s|)
    case Arr(items) => Some(|items|)
    case Obj(fields) => Some(|fields|)
    case _ => None
  }

  /** `".." in s`. */
  predicate HasDots(s: string) {
    exists i :: 0 <= i < |s| - 1 && s[i] == '.' && s[i + 1] == '.'
  }

  /** A list or a dict passes for a path only as long as it holds "..". */
  function PathFaults(rules: Rules, path: Json): Option<seq<Fault>> {
    if !Truthy(path) then Some([MissingPath])
    else match path
         case Str(s) => Some(if HasDots(s) || StartsWith(s, "/") then [PathTraversal] else if rules.blockedPath(s) then [PathBlocked] else [])
         case Arr(items) => if Str("..") in items then Some([PathTraversal]) else None
         case Obj(fields) => if ".." in fields then Some([PathTraversal]) else None
         case _ => None
  }

  function ReadFaults(rules: Rules, p: Proposal): Option<seq<Fault>> {
    match PathFaults(rules, Param(p, "path", Str("")))
    case None => None
    case Some(faults) =>
      match AsInt(rules, Param(p, "line_start", Num(1.0)))
      case None => None
      case Some(start) =>
        match AsInt(rules, Param(p, "line_end", Num(start as real)))
        case None => None
        case Some(end) => Some(faults + (if end - start + 1 > rules.maxLinesPerRead then [ReadRangeTooLarge] else []))
  }

  function PatchFaults(lx: Lexer, rules: Rules, patch: Json): Option<seq<Fault>> {
    if !Truthy(patch) then Some([EmptyPatch])
    else match patch
         case Str(s) => Some(if lx.strip(s) == "" then [EmptyPatch] else rules.patchFaults(s))
         case _ => None
  }

  function TestFaults(rules: Rules, template: Json): Option<seq<Fault>> {
    if rules.testTemplates == [] then Some(if Truthy(template) then [] else [MissingTestTemplate])
    else if !Truthy(template) then Some([UnknownTestTemplate])
    else match template
         case Str(s) => Some(if s in rules.testTemplates then [] else [UnknownTestTemplate])
         case Arr(_) => None
         case Obj(_) => None
         case _ => Some([UnknownTestTemplate])
  }

  /** `str(params.get(key, "") or "")`. */
  function TextParam(lx: Lexer, p: Proposal, key: string): string {
    var j := Param(p, key, Str(""));
    if Truthy(j) then Text(lx, j) else ""
  }

  predicate EndsWith(s: string, suffix: string) {
    |suffix| <= |s| && s[|s| - |suffix|..] == suffix
  }

  function TemplateFaults(lx: Lexer, rules: Rules, p: Proposal): seq<Fault> {
    var template, workdir := lx.strip(TextParam(lx, p, "template")), TextParam(lx, p, "workdir_id");
    (if template == "" then [MissingTemplate] else [])
    + (if rules.commandTemplates != [] && template !in rules.commandTemplates then [UnknownCommandTemplate] else [])
    + (if workdir != "" && !rules.workdirId(workdir) then [InvalidWorkdir] else [])
    + (if p.action == "format_fix" && template != "" && !EndsWith(template, "_fix") then [FixTemplateRequired] else [])
  }

  /** What is wrong with a proposal's parameters; None when reading them raises. */
  function ActionFaults(lx: Lexer, rules: Rules, p: Proposal): Option<seq<Fault>> {
    if p.action == "repo_search" then
      match Length(Param(p, "pattern", Str("")))
      case None => None
      case Some(n) => Some(if n > 500 then [PatternTooLong] else [])
    else if p.action == "repo_read_range" then ReadFaults(rules, p)
    else if p.action == "read_file" then PathFaults(rules, Param(p, "path", Str("")))
    else if p.action == "detect_workdirs" then
      match AsInt(rules, Param(p, "max_depth", Num(4.0)))
      case None => None
      case Some(depth) => Some(if depth < 1 || depth > 8 then [InvalidDepth] else [])
    else if p.action == "apply_patch" then PatchFaults(lx, rules, Param(p, "patch", Str("")))
    else if p.action == "run_tests" then TestFaults(rules, Get(p.params, "template_id"))
    else if p.action in {"run_cmd_template", "format_fix"} then Some(TemplateFaults(lx, rules, p))
    else Some([])
  }

  // ------------------------------------------------------------ cost estimate

  const BASE_COSTS: map<string, real> := map[
    "repo_search" := 0.05, "repo_read_range" := 0.03, "read_file" := 0.02, "detect_project" := 0.03,
    "detect_workdirs" := 0.06, "apply_patch" := 0.3, "run_tests" := 0.5, "run_cmd_template" := 0.4,
    "format_fix" := 0.35, "ensure_deps" := 0.2
  ]

  /** What a step is estimated to cost; None when reading its parameters raises. */
  function EstimateCost(round: real -> real, rules: Rules, p: Proposal): Option<real> {
    var base := if p.action in BASE_COSTS then BASE_COSTS[p.action] else 0.1;
    if p.action == "apply_patch" then
      var patch := Param(p, "patch", Str(""));
      if !Truthy(patch) then Some(round(base))
      else if patch.Str? then Some(round(base + |SplitLines(patch.s)| as real * 0.005)) else None
    else if p.action == "run_tests" then
      match AsInt(rules, Param(p, "timeout_s", Num(240.0)))
      case None => None
      case Some(timeout) => if Fits(timeout) then Some(round(base + timeout as real * 0.0005)) else None
    else Some(round(base))
  }

  // -------------------------------------------------- parameters nobody can read

  /** `int` of the parameter raises: it is None, NaN, infinite, a list, a dict, or a
      string that does not read as an integer. */
  predicate NotInt(rules: Rules, p: Proposal, key: string) {
    key in p.params &&
    match p.params[key]
    case Bool(_) => false
    case Num(_) => false
    case Str(s) => rules.parse(s).None?
    case _ => true
  }

  /** The parameter reads as an integer that no float can hold. */
  predicate TooLarge(rules: Rules, p: Proposal, key: string) {
    key in p.params &&
    match p.params[key]
    case Bool(b) => !Fits(if b then 1 else 0)
    case Num(n) => !Fits(Truncated(n))
    case Str(s) => rules.parse(s).Some? && !Fits(rules.parse(s).value)
    case _ => false
  }

  /** The parameter is truthy and neither a string nor, where `dots` are allowed, a
      list or a dict that holds "..". */
  predicate NotText(p: Proposal, key: string, dots: bool) {
    key in p.params && Truthy(p.params[key]) &&
    match p.params[key]
    case Str(_) => false
    case Arr(items) => !dots || Str("..") !in items
    case Obj(fields) => !dots || ".." !in fields
    case _ => true
  }

  /** Which proposals the per-action checks cannot read. */
  predicate Unreadable(rules: Rules, p: Proposal) {
    || (p.action == "repo_search" && "pattern" in p.params
        && !p.params["pattern"].Str? && !p.params["pattern"].Arr? && !p.params["pattern"].Obj?)
    || (p.action == "repo_read_range" && (NotText(p, "path", true) || NotInt(rules, p, "line_start") || NotInt(rules, p, "line_end")))
    || (p.action == "read_file" && NotText(p, "path", true))
    || (p.action == "detect_workdirs" && NotInt(rules, p, "max_depth"))
    || (p.action == "apply_patch" && NotText(p, "patch", false))
    || (p.action == "run_tests" && rules.testTemplates != [] && "template_id" in p.params && Truthy(p.params["template_id"])
        && (p.params["template_id"].Arr? || p.params["template_id"].Obj?))
  }

  /** The timeout of a test run that does not convert to an integer and a float. */
  predicate BadTimeout(rules: Rules, p: Proposal) {
    p.action == "run_tests" && (NotInt(rules, p, "timeout_s") || TooLarge(rules, p, "timeout_s"))
  }

  /** The checks raise exactly on those, and the estimate on a patch that is no
      text and on a timeout that does not convert. */
  lemma {:induction false} RaiseOnUnreadable(lx: Lexer, round: real -> real, rules: Rules, p: Proposal)
    ensures ActionFaults(lx, rules, p).None? <==> Unreadable(rules, p)
    ensures EstimateCost(round, rules, p).None? <==>
            (p.action == "apply_patch" && NotText(p, "patch", false)) || BadTimeout(rules, p)
  {
    hide BASE_COSTS, HasDots, StartsWith, SplitLines, TemplateFaults;
    assert "apply_patch" != "run_tests" by { assert "apply_patch"[0] == 'a' && "run_tests"[0] == 'r'; }
  }
}
