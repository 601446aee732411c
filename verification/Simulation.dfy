/** System state, outcome history, prediction, decision and verification:
    rfsn_kernel/state.py, simulate.py, decide.py and verify.py. Floats are reals. */
module Simulation {
  import opened Common

  // --------------------------------------------------------------------- state

  datatype State = State(memoryVersion: string, envHash: string, rngSeed: int, safetyLevel: int, runId: Option<string>,
                         stepCount: int, iterCount: int, totalCost: real, recentFailures: int,
                         recentActions: seq<string>, driftVariance: real, policyHash: string)

  const MAX_ACTIONS := 20

  function Fresh(runId: Option<string>, memoryVersion: string, envHash: string, rngSeed: int, policyHash: string): State {
    State(memoryVersion, envHash, rngSeed, 0, runId, 0, 0, 0.0, 0, [], 0.0, policyHash)
  }

  function WithAction(s: State, action: string): State {
    var actions := s.recentActions + [action];
    s.(recentActions := if |actions| > MAX_ACTIONS then actions[|actions| - MAX_ACTIONS..] else actions)
  }

  function WithOutcome(s: State, success: bool): State {
    s.(recentFailures := if !success then s.recentFailures + 1 else if s.recentFailures > 1 then s.recentFailures - 1 else 0)
  }

  /** The live object; each method is one of the source's. */
  class SystemState {
    var now: State

    constructor (s: State)
      ensures now == s
    {
      now := s;
    }

    method RecordAction(action: string)
      modifies this
      ensures now == WithAction(old(now), action)
      // The action comes last, behind as many of the earlier ones as make twenty.
      ensures var all := old(now).recentActions + [action];
              now.recentActions == all[if |all| > MAX_ACTIONS then |all| - MAX_ACTIONS else 0..] && |now.recentActions| <= MAX_ACTIONS
    {
      now := now.(recentActions := now.recentActions + [action]);
      if |now.recentActions| > MAX_ACTIONS {
        now := now.(recentActions := now.recentActions[|now.recentActions| - MAX_ACTIONS..]);
      }
    }

    method RecordFailure()
      modifies this
      ensures now == WithOutcome(old(now), false)
    {
      now := now.(recentFailures := now.recentFailures + 1);
    }

    method RecordSuccess()
      modifies this
      ensures now == WithOutcome(old(now), true)
      ensures now.recentFailures >= 0 && (old(now).recentFailures > 0 ==> now.recentFailures == old(now).recentFailures - 1)
    {
      now := now.(recentFailures := if now.recentFailures - 1 > 0 then now.recentFailures - 1 else 0);
    }

    method AdvanceStep()
      modifies this
      ensures now == old(now).(stepCount := old(now).stepCount + 1)
    {
      now := now.(stepCount := now.stepCount + 1);
    }
  }

  // ------------------------------------------------------------------- history

  datatype Stats = Stats(n: nat, success: nat, fail: nat, totalCost: real, rate: real)

  datatype Entry = Entry(key: string, stats: Stats)

  /** The table in insertion order, as a dict keeps it. */
  type Table = seq<Entry>

  const UNSEEN := Stats(0, 0, 0, 0.0, 0.0)
  const ALPHA := 0.3

  function KeyOf(action: string, context: string): string { action + "|" + context }

  function Lookup(t: Table, key: string): Option<Stats> {
    if t == [] then None else if t[0].key == key then Some(t[0].stats) else Lookup(t[1..], key)
  }

  function Counted(s: Stats, success: bool, cost: real): Stats {
    Stats(s.n + 1, s.success + (if success then 1 else 0), s.fail + (if success then 0 else 1), s.totalCost + cost,
          ALPHA * (if success then 0.0 else 1.0) + (1.0 - ALPHA) * s.rate)
  }

  /** The entry replaced where it is, or added at the end. */
  function Put(t: Table, key: string, s: Stats): Table {
    if t == [] then [Entry(key, s)]
    else if t[0].key == key then [Entry(key, s)] + t[1..]
    else [t[0]] + Put(t[1..], key, s)
  }

  /** The leftmost of the least used entries. */
  function LeastUsed(t: Table): (i: nat)
    requires t != []
    ensures i < |t| && (forall j :: 0 <= j < |t| ==> t[i].stats.n <= t[j].stats.n)
            && forall j :: 0 <= j < i ==> t[i].stats.n < t[j].stats.n
  {
    if |t| == 1 then 0
    else
      var i := LeastUsed(t[1..]);
      if t[0].stats.n <= t[1..][i].stats.n then 0 else i + 1
  }

  /** Without its `k` least used entries, the older of equals going first. */
  function DropLeast(t: Table, k: nat): Table
    decreases k
  {
    if k == 0 || t == [] then t
    else
      var i := LeastUsed(t);
      DropLeast(t[..i] + t[i + 1..], k - 1)
  }

  function Pruned(t: Table, max: int): Table {
    if |t| > max then DropLeast(t, |t| / 4) else t
  }

  function Recorded(t: Table, max: int, key: string, success: bool, cost: real): Table {
    Pruned(Put(t, key, Counted(Lookup(t, key).GetOr(UNSEEN), success, cost)), max)
  }

  class OutcomeHistory {
    const max: int
    var stats: Table

    constructor (max: int)
      ensures this.max == max && stats == []
    {
      this.max := max;
      stats := [];
    }

    method Record(action: string, context: string, success: bool, cost: real)
      modifies this
      ensures stats == Recorded(old(stats), max, KeyOf(action, context), success, cost)
    {
      hide Put, Lookup, DropLeast, KeyOf;
      var key := KeyOf(action, context);
      var s := Lookup(stats, key).GetOr(UNSEEN);
      s := s.(n := s.n + 1);
      if success {
        s := s.(success := s.success + 1);
      } else {
        s := s.(fail := s.fail + 1);
      }
      s := s.(totalCost := s.totalCost + cost,
              rate := ALPHA * (if success then 0.0 else 1.0) + (1.0 - ALPHA) * s.rate);
      stats := Put(stats, key, s);
      if |stats| > max {
        stats := DropLeast(stats, |stats| / 4);
      }
    }
  }

  lemma {:induction false} LookupPut(t: Table, key: string, s: Stats, other: string)
    ensures Lookup(Put(t, key, s), other) == if other == key then Some(s) else Lookup(t, other)
  {
    if t != [] && t[0].key != key { LookupPut(t[1..], key, s, other); }
  }

  ghost predicate DistinctKeys(t: Table) {
    forall i, j :: 0 <= i < j < |t| ==> t[i].key != t[j].key
  }

  lemma {:induction false} LookupIs(t: Table, key: string, i: nat)
    requires DistinctKeys(t) && i < |t| && t[i].key == key
    ensures Lookup(t, key) == Some(t[i].stats)
  {
    if i > 0 { LookupIs(t[1..], key, i - 1); }
  }

  lemma {:induction false} LookupNone(t: Table, key: string)
    ensures Lookup(t, key).None? <==> forall i :: 0 <= i < |t| ==> t[i].key != key
  {
    if t != [] {
      LookupNone(t[1..], key);
      assert forall i :: 1 <= i < |t| ==> t[i] == t[1..][i - 1];
    }
  }

  lemma {:induction false} PutDistinct(t: Table, key: string, s: Stats)
    requires DistinctKeys(t)
    ensures DistinctKeys(Put(t, key, s))
    ensures forall e :: e in Put(t, key, s) ==> e.key == key || e in t
  {
    if t != [] && t[0].key != key { PutDistinct(t[1..], key, s); }
  }

  ghost function Without(t: Table, i: nat): (rest: Table)
    requires i < |t|
    ensures |rest| == |t| - 1
    ensures forall j :: 0 <= j < |rest| ==> rest[j] == t[if j < i then j else j + 1]
    ensures forall e :: e in rest ==> e in t
    ensures forall e :: e in t ==> e in rest || e == t[i]
    ensures DistinctKeys(t) ==> DistinctKeys(rest)
  {
    var rest := t[..i] + t[i + 1..];
    assert t == t[..i] + [t[i]] + t[i + 1..];
    rest
  }

  lemma LookupWithout(t: Table, i: nat, key: string)
    requires DistinctKeys(t) && i < |t| && Lookup(Without(t, i), key).Some?
    ensures Lookup(Without(t, i), key) == Lookup(t, key)
  {
    var rest := Without(t, i);
    LookupNone(rest, key);
    var j :| 0 <= j < |rest| && rest[j].key == key;
    LookupIs(rest, key, j);
    LookupIs(t, key, if j < i then j else j + 1);
  }

  /** An entry that survives pruning survives unchanged. */
  lemma {:induction false} DropKeeps(t: Table, k: nat, key: string)
    requires DistinctKeys(t)
    ensures DistinctKeys(DropLeast(t, k))
    ensures Lookup(DropLeast(t, k), key).Some? ==> Lookup(DropLeast(t, k), key) == Lookup(t, key)
    decreases k
  {
    hide Lookup, DistinctKeys;
    if k > 0 && t != [] {
      var rest := Without(t, LeastUsed(t));
      DropKeeps(rest, k - 1, key);
      if Lookup(rest, key).Some? { LookupWithout(t, LeastUsed(t), key); }
    }
  }

  lemma CountedIs(s: Stats, success: bool, cost: real)
    ensures Counted(s, success, cost) == if success then Stats(s.n + 1, s.success + 1, s.fail, s.totalCost + cost, 0.7 * s.rate)
                                         else Stats(s.n + 1, s.success, s.fail + 1, s.totalCost + cost, 0.3 + 0.7 * s.rate)
  {
  }

  /** Recording touches one entry; the others stay as they are or are pruned. */
  lemma RecordedLookup(t: Table, max: int, key: string, success: bool, cost: real, other: string)
    requires DistinctKeys(t)
    ensures var t' := Recorded(t, max, key, success, cost);
            && DistinctKeys(t')
            && (Lookup(t', other).Some? ==>
                  if other == key
                  then var s := Lookup(t, key).GetOr(Stats(0, 0, 0, 0.0, 0.0));
                       Lookup(t', key) == Some(if success then Stats(s.n + 1, s.success + 1, s.fail, s.totalCost + cost, 0.7 * s.rate)
                                               else Stats(s.n + 1, s.success, s.fail + 1, s.totalCost + cost, 0.3 + 0.7 * s.rate))
                  else Lookup(t', other) == Lookup(t, other))
  {
    hide Counted, DistinctKeys, Lookup, Put, DropLeast;
    var s := Counted(Lookup(t, key).GetOr(UNSEEN), success, cost);
    CountedIs(Lookup(t, key).GetOr(UNSEEN), success, cost);
    PutDistinct(t, key, s);
    LookupPut(t, key, s, other);
    DropKeeps(Put(t, key, s), |Put(t, key, s)| / 4, other);
  }

  /** Pruning drops a quarter of the table, and nothing it drops was used more
      often than anything it keeps. */
  lemma {:induction false} DropsLeastUsed(t: Table, k: nat, kept: Entry, dropped: Entry)
    requires k <= |t|
    ensures |DropLeast(t, k)| == |t| - k
    ensures kept in DropLeast(t, k) ==> kept in t
    ensures kept in DropLeast(t, k) && dropped in t && dropped !in DropLeast(t, k) ==> dropped.stats.n <= kept.stats.n
    decreases k
  {
    if k > 0 {
      DropsLeastUsed(Without(t, LeastUsed(t)), k - 1, kept, dropped);
    }
  }

  /** How many entries there are after recording: one more if the key is new, and
      a quarter of them fewer if that is more than the table may hold. */
  lemma {:induction false} RecordedSize(t: Table, max: int, key: string, success: bool, cost: real)
    ensures var n := if forall i :: 0 <= i < |t| ==> t[i].key != key then |t| + 1 else |t|;
            |Recorded(t, max, key, success, cost)| == if n > max then n - n / 4 else n
  {
    var s := Counted(Lookup(t, key).GetOr(UNSEEN), success, cost);
    PutSize(t, key, s);
    if |Put(t, key, s)| > max { DropSize(Put(t, key, s), |Put(t, key, s)| / 4); }
  }

  lemma {:induction false} PutSize(t: Table, key: string, s: Stats)
    ensures |Put(t, key, s)| == if forall i :: 0 <= i < |t| ==> t[i].key != key then |t| + 1 else |t|
  {
    if t != [] && t[0].key != key {
      PutSize(t[1..], key, s);
      assert forall i :: 1 <= i < |t| ==> t[i] == t[1..][i - 1];
    }
  }

  lemma {:induction false} DropSize(t: Table, k: nat)
    requires k <= |t|
    ensures |DropLeast(t, k)| == |t| - k
    decreases k
  {
    hide LeastUsed, DistinctKeys;
    if k > 0 { DropSize(Without(t, LeastUsed(t)), k - 1); }
  }

  lemma LeftmostFirst(t: Table, i: nat, j: nat)
    requires i < j < |t| && t[i].stats.n == t[j].stats.n
    ensures LeastUsed(t) != j
  {
  }

  lemma OnlyThere(t: Table, i: nat)
    requires DistinctKeys(t) && i < |t|
    ensures t[i] !in Without(t, i)
  {
  }

  lemma StillThere(t: Table, m: nat, i: nat)
    requires m < |t| && i < |t| && i != m
    ensures var at := if i < m then i else i - 1; at < |Without(t, m)| && Without(t, m)[at] == t[i]
  {
  }

  /** Of two entries used equally often, the older one is dropped first. */
  lemma {:induction false} DropsOldest(t: Table, k: nat, i: nat, j: nat)
    requires DistinctKeys(t) && k <= |t| && i < j < |t| && t[i].stats.n == t[j].stats.n
    ensures t[i] in DropLeast(t, k) ==> t[j] in DropLeast(t, k)
    decreases k
  {
    hide DistinctKeys, LeastUsed;
    if k > 0 {
      var m := LeastUsed(t);
      var rest := Without(t, m);
      hide Without;
      LeftmostFirst(t, i, j);
      StillThere(t, m, j);
      if i != m {
        StillThere(t, m, i);
        DropsOldest(rest, k - 1, if i < m then i else i - 1, if j < m then j else j - 1);
      } else {
        OnlyThere(t, i);
        DropsLeastUsed(rest, k - 1, t[i], t[i]);
      }
    }
  }

  // ---------------------------------------------------------------- simulation

  datatype Mode = ClusterFailure | ResourceFailure | Instability

  datatype SimResult = SimResult(successProb: real, failureMode: Option<Mode>, costEst: real, driftRisk: real, loopRisk: real)

  /** What the learner tells the kernel; `priorLoop` is already derived from it. */
  datatype Evidence = Evidence(priorProb: Option<real>, trials: int, failureOccurrence: int, traps: seq<string>)

  function Min(a: real, b: real): real { if a <= b then a else b }

  function Max(a: real, b: real): real { if a >= b then a else b }

  function Matching(actions: seq<string>, action: string): nat {
    if actions == [] then 0
    else Matching(actions[..|actions| - 1], action) + (if actions[|actions| - 1] == action then 1 else 0)
  }

  function TrailingRun(actions: seq<string>, action: string): nat {
    if actions == [] || actions[|actions| - 1] != action then 0 else 1 + TrailingRun(actions[..|actions| - 1], action)
  }

  function LoopRisk(action: string, s: State): real {
    var n := |s.recentActions|;
    var recent := if n > 10 then s.recentActions[n - 10..] else s.recentActions;
    if TrailingRun(recent, action) >= 4 then 0.95
    else if TrailingRun(recent, action) >= 3 then 0.7
    else if Matching(recent, action) >= 6 then 0.6
    else if Matching(recent, action) >= 4 then 0.3
    else 0.0
  }

  /** Rounding to four decimals is monotone and moves a number by little. */
  ghost predicate Rounding(round: real -> real) {
    (forall x, y :: x <= y ==> round(x) <= round(y)) && forall x :: -0.00005 <= round(x) - x <= 0.00005
  }

  function DriftRisk(round: real -> real, s: State): real {
    if s.stepCount <= 0 then 0.0
    else round(Min(1.0, s.recentFailures as real / s.stepCount as real * 2.0 + s.driftVariance))
  }

  const CLUSTER_RATE := 0.7

  function FailureMode(s: State, stats: Option<Stats>): Option<Mode> {
    if stats.Some? && stats.value.rate > CLUSTER_RATE then Some(ClusterFailure)
    else if stats.Some? && stats.value.totalCost / (if stats.value.n > 1 then stats.value.n else 1) as real > 1.0 then Some(ResourceFailure)
    else if s.recentFailures >= 5 then Some(Instability)
    else None
  }

  const BASE_PROBS: map<string, real> := map[
    "repo_search" := 0.85, "repo_read_range" := 0.95, "read_file" := 0.96, "detect_project" := 0.95,
    "detect_workdirs" := 0.9, "apply_patch" := 0.6, "run_tests" := 0.5, "run_cmd_template" := 0.55,
    "format_fix" := 0.7, "ensure_deps" := 0.8
  ]

  function Blend(weight: real, old_: real, new_: real): real { (1.0 - weight) * old_ + weight * new_ }

  /** The base rate, blended with the record and with the learner's estimate. */
  function Estimate(action: string, stats: Option<Stats>, priorProb: Option<real>, trials: int): real {
    var p0 := if action in BASE_PROBS then BASE_PROBS[action] else 0.5;
    var p1 := if stats.Some? && stats.value.n >= 3
              then Blend(Min(stats.value.n as real / 10.0, 1.0), p0, stats.value.success as real / stats.value.n as real) else p0;
    if priorProb.Some?
    then Blend(0.25 + 0.5 * Max(0.0, Min(1.0, trials as real / 20.0)), p1, Max(0.01, Min(1.0, priorProb.value))) else p1
  }

  function SuccessProb(action: string, s: State, stats: Option<Stats>, ev: Evidence): real {
    var p2 := Estimate(action, stats, ev.priorProb, ev.trials);
    var p3 := if s.recentFailures >= 3 then p2 * 0.7 else p2;
    var p4 := if s.recentFailures >= 6 then p3 * 0.5 else p3;
    var p5 := if s.safetyLevel >= 1 then p4 * 0.9 else p4;
    var p6 := if "action:" + action in ev.traps then p5 * 0.1 else p5;
    var p7 := if action in ev.traps then p6 * 0.1 else p6;
    Max(0.01, Min(1.0, p7))
  }

  function PriorLoopRisk(ev: Evidence): Option<real> {
    if ev.failureOccurrence < 2 then None
    else
      var capped := if ev.failureOccurrence < 5 then ev.failureOccurrence else 5;
      Some(Max(Min(0.9, 0.2 + 0.1 * capped as real), 0.7))
  }

  /** `cost` is the estimate of the step's cost, taken from the environment. */
  function Simulate(round: real -> real, action: string, s: State, t: Table, context: string, ev: Evidence, cost: real): SimResult {
    var stats := Lookup(t, KeyOf(action, context));
    var loop := match PriorLoopRisk(ev)
                case None => LoopRisk(action, s)
                case Some(prior) => Max(LoopRisk(action, s), Max(0.0, Min(1.0, prior)));
    SimResult(round(SuccessProb(action, s, stats, ev)), FailureMode(s, stats), cost, DriftRisk(round, s), loop)
  }

  lemma {:induction false} TrailingIs(actions: seq<string>, action: string, m: nat)
    ensures TrailingRun(actions, action) >= m <==> |actions| >= m && forall i :: |actions| - m <= i < |actions| ==> actions[i] == action
    decreases |actions|
  {
    if m > 0 && actions != [] && actions[|actions| - 1] == action {
      TrailingIs(actions[..|actions| - 1], action, m - 1);
    }
  }

  lemma {:induction false} MatchingIs(actions: seq<string>, action: string)
    ensures Matching(actions, action) == |set i | 0 <= i < |actions| && actions[i] == action|
  {
    var places := set i | 0 <= i < |actions| && actions[i] == action;
    if actions == [] {
      if places != {} { var x := Pick(places); }
    } else {
      var n := |actions| - 1;
      MatchingIs(actions[..n], action);
      var front := set i | 0 <= i < |actions[..n]| && actions[..n][i] == action;
      assert places == if actions[n] == action then front + {n} else front;
    }
  }

  /** The loop risk, on the actions recorded: four in a row of the same kind at the
      end, three, or six or four of it among the last ten. */
  lemma {:induction false} LoopRiskIs(action: string, s: State)
    ensures var n := |s.recentActions|;
            var recent := if n > 10 then s.recentActions[n - 10..] else s.recentActions;
            var same := |set i | 0 <= i < |recent| && recent[i] == action|;
            LoopRisk(action, s) ==
              if n >= 4 && forall i :: n - 4 <= i < n ==> s.recentActions[i] == action then 0.95
              else if n >= 3 && forall i :: n - 3 <= i < n ==> s.recentActions[i] == action then 0.7
              else if same >= 6 then 0.6 else if same >= 4 then 0.3 else 0.0
  {
    hide TrailingRun, Matching;
    var n := |s.recentActions|;
    var recent := if n > 10 then s.recentActions[n - 10..] else s.recentActions;
    MatchingIs(recent, action);
    TrailingIs(recent, action, 4);
    TrailingIs(recent, action, 3);
    LastOnes(s.recentActions, recent, action, 4);
    LastOnes(s.recentActions, recent, action, 3);
  }

  lemma LastOnes(all: seq<string>, recent: seq<string>, action: string, m: nat)
    requires m <= 10 && recent == if |all| > 10 then all[|all| - 10..] else all
    ensures (|recent| >= m && forall i :: |recent| - m <= i < |recent| ==> recent[i] == action) <==>
            (|all| >= m && forall i :: |all| - m <= i < |all| ==> all[i] == action)
  {
    var from := |all| - |recent|;
    if |recent| >= m && forall i :: |recent| - m <= i < |recent| ==> recent[i] == action {
      forall i | |all| - m <= i < |all|
        ensures all[i] == action
      {
        assert recent[i - from] == all[i];
      }
    }
    if |all| >= m && forall i :: |all| - m <= i < |all| ==> all[i] == action {
      forall i | |recent| - m <= i < |recent|
        ensures recent[i] == action
      {
        assert recent[i] == all[from + i];
      }
    }
  }

  /** Twice seen, a failure of the learner's counts as a loop risk of 0.7, however
      often it occurred: the rising part of the formula never passes that floor. */
  lemma PriorIsFlat(ev: Evidence)
    ensures PriorLoopRisk(ev) == if ev.failureOccurrence >= 2 then Some(0.7) else None
  {
  }

  /** What the simulation predicts: a cluster failure from the failure rate of the
      action in its context, too high a cost from its average, instability from
      five failures; drift from the ratio of failures to steps. */
  lemma {:induction false} SimulationIs(round: real -> real, action: string, s: State, t: Table, context: string, ev: Evidence, cost: real)
    ensures var sim, entry := Simulate(round, action, s, t, context, ev, cost), Lookup(t, action + "|" + context);
            && (sim.failureMode == Some(ClusterFailure) <==> entry.Some? && entry.value.rate > 0.7)
            && (sim.failureMode == Some(ResourceFailure) <==>
                  entry.Some? && entry.value.rate <= 0.7
                  && entry.value.totalCost > (if entry.value.n >= 1 then entry.value.n as real else 1.0))
            && (sim.failureMode.None? ==> s.recentFailures < 5)
            && (sim.failureMode == Some(Instability) ==> s.recentFailures >= 5)
            && (s.stepCount == 0 ==> sim.driftRisk == 0.0)
            && (s.stepCount > 0 ==>
                  var raw := 2.0 * s.recentFailures as real / s.stepCount as real + s.driftVariance;
                  sim.driftRisk == round(if raw > 1.0 then 1.0 else raw))
            && sim.costEst == cost
            && sim.loopRisk == (if ev.failureOccurrence >= 2 && LoopRisk(action, s) < 0.7 then 0.7 else LoopRisk(action, s))
            && sim.successProb == round(SuccessProb(action, s, entry, ev))
  {
    hide LoopRisk, SuccessProb, Lookup;
    PriorIsFlat(ev);
    var entry := Lookup(t, action + "|" + context);
    if entry.Some? { AverageOver(entry.value.totalCost, if entry.value.n > 1 then entry.value.n as real else 1.0); }
    if s.stepCount > 0 { assert s.recentFailures as real / s.stepCount as real * 2.0 == 2.0 * s.recentFailures as real / s.stepCount as real; }
  }

  lemma AverageOver(total: real, n: real)
    requires n >= 1.0
    ensures total / n > 1.0 <==> total > n
  {
  }

  /** The estimate before penalties: the action's base rate, drawn to its record by
      a tenth for each of up to ten tries once there are three. */
  lemma {:induction false} RecordCounts(action: string, stats: Option<Stats>)
    ensures var base := if action in BASE_PROBS then BASE_PROBS[action] else 0.5;
            && (stats.None? || stats.value.n < 3 ==> Estimate(action, stats, None, 0) == base)
            && (stats.Some? && 3 <= stats.value.n < 10 ==>
                  Estimate(action, stats, None, 0) == base + stats.value.n as real / 10.0 * (stats.value.success as real / stats.value.n as real - base))
            && (stats.Some? && stats.value.n >= 10 ==> Estimate(action, stats, None, 0) == stats.value.success as real / stats.value.n as real)
  {
    hide BASE_PROBS;
  }

  /** The base rates, which a tool never tried is estimated at. */
  lemma {:induction false} UntriedRates(action: string)
    ensures var rate := Estimate(action, None, None, 0);
            && (action == "repo_search" ==> rate == 0.85) && (action == "repo_read_range" ==> rate == 0.95)
            && (action == "read_file" ==> rate == 0.96) && (action == "detect_project" ==> rate == 0.95)
            && (action == "detect_workdirs" ==> rate == 0.9) && (action == "apply_patch" ==> rate == 0.6)
            && (action == "run_tests" ==> rate == 0.5) && (action == "run_cmd_template" ==> rate == 0.55)
            && (action == "format_fix" ==> rate == 0.7) && (action == "ensure_deps" ==> rate == 0.8)
            && (action !in BASE_PROBS ==> rate == 0.5)
  {
    RateNames();
  }

  lemma RateNames()
    ensures |"repo_search"| == |"apply_patch"| == |"ensure_deps"| == 11 && |"repo_read_range"| == |"detect_workdirs"| == 15
    ensures |"read_file"| == |"run_tests"| == 9 && |"detect_project"| == 14 && |"run_cmd_template"| == 16 && |"format_fix"| == 10
    ensures "repo_search" != "apply_patch" && "repo_search" != "ensure_deps" && "apply_patch" != "ensure_deps"
    ensures "repo_read_range" != "detect_workdirs" && "read_file" != "run_tests"
  {
    assert "repo_search"[0] == 'r' && "apply_patch"[0] == 'a' && "ensure_deps"[0] == 'e';
    assert "repo_read_range"[0] == 'r' && "detect_workdirs"[0] == 'd' && "read_file"[1] == 'e' && "run_tests"[1] == 'u';
  }

  /** And to the learner's estimate by a quarter, and by up to a half more for twenty
      trials. */
  lemma {:induction false} LearnerCounts(action: string, stats: Option<Stats>, p: real, trials: int)
    ensures var own := Estimate(action, stats, None, 0);
            var weight := if trials <= 0 then 0.25 else if trials >= 20 then 0.75 else 0.25 + trials as real / 40.0;
            Estimate(action, stats, Some(p), trials) == own + weight * ((if p < 0.01 then 0.01 else if p > 1.0 then 1.0 else p) - own)
    ensures Estimate(action, stats, None, trials) == Estimate(action, stats, None, 0)
  {
    hide BASE_PROBS, Blend, Min, Max;
    WeightIs(trials);
    Within(p);
    BlendIs(0.25 + 0.5 * Max(0.0, Min(1.0, trials as real / 20.0)), Estimate(action, stats, None, 0), Max(0.01, Min(1.0, p)));
  }

  lemma BlendIs(weight: real, a: real, b: real)
    ensures Blend(weight, a, b) == a + weight * (b - a)
  {
  }

  lemma Within(p: real)
    ensures Max(0.01, Min(1.0, p)) == if p < 0.01 then 0.01 else if p > 1.0 then 1.0 else p
  {
  }

  lemma WeightIs(trials: int)
    ensures 0.25 + 0.5 * Max(0.0, Min(1.0, trials as real / 20.0)) ==
            if trials <= 0 then 0.25 else if trials >= 20 then 0.75 else 0.25 + trials as real / 40.0
  {
  }

  /** The penalties: three and six recent failures, a raised safety level, and each
      form in which the action is a known trap. The result is kept within 0.01 and 1. */
  lemma {:induction false} SuccessProbIs(action: string, s: State, stats: Option<Stats>, ev: Evidence)
    ensures var estimate := Estimate(action, stats, ev.priorProb, ev.trials);
            var failing := if s.recentFailures >= 6 then 0.35 else if s.recentFailures >= 3 then 0.7 else 1.0;
            var raised := if s.safetyLevel >= 1 then 0.9 else 1.0;
            var trapped := if "action:" + action in ev.traps && action in ev.traps then 0.01
                           else if "action:" + action in ev.traps || action in ev.traps then 0.1 else 1.0;
            SuccessProb(action, s, stats, ev) == Max(0.01, Min(1.0, estimate * failing * raised * trapped))
    ensures 0.01 <= SuccessProb(action, s, stats, ev) <= 1.0
  {
    hide Estimate;
  }

  // ------------------------------------------------------------------ decision

  datatype Policy = Policy(riskMax: real, successMin: real, loopMax: real, driftMax: real, maxTotalSteps: int,
                           maxSafetyLevel: int, maxDuration: real, maxTotalCost: real, failClusterThreshold: int,
                           allowUnsafe: set<string>, historyMax: int, rngSeed: int, policyHash: string)

  datatype Refusal = LoopDetected | DriftDetected | ClusterPredicted | RiskTooHigh | SuccessTooLow

  /** None approves. */
  function Decide(sim: SimResult, effectiveRisk: real, policy: Policy): Option<Refusal> {
    if sim.loopRisk > policy.loopMax then Some(LoopDetected)
    else if sim.driftRisk > policy.driftMax then Some(DriftDetected)
    else if sim.failureMode == Some(ClusterFailure) then Some(ClusterPredicted)
    else if effectiveRisk > policy.riskMax then Some(RiskTooHigh)
    else if sim.successProb < policy.successMin then Some(SuccessTooLow)
    else None
  }

  // -------------------------------------------------------------- verification

  datatype Outcome = Outcome(success: bool, exitCode: int, payload: string, logs: string, duration: real, deltaHash: string)

  /** What an execute callback that raises is turned into. */
  const RAISED := Outcome(false, -1, "", "", 0.0, "")

  datatype Violation = SafetyLevelExceeded | DurationExceeded | CostExceeded | FailureCluster

  predicate Clusters(s: State, policy: Policy) { s.recentFailures >= policy.failClusterThreshold }

  function Violations(o: Outcome, s: State, policy: Policy): seq<Violation> {
    (if s.safetyLevel > policy.maxSafetyLevel then [SafetyLevelExceeded] else [])
    + (if o.duration > policy.maxDuration then [DurationExceeded] else [])
    + (if s.totalCost > policy.maxTotalCost then [CostExceeded] else [])
    + (if Clusters(s, policy) then [FailureCluster] else [])
  }

  lemma ViolationsMean(o: Outcome, s: State, policy: Policy)
    ensures var violations := Violations(o, s, policy);
            && (SafetyLevelExceeded in violations <==> s.safetyLevel > policy.maxSafetyLevel)
            && (DurationExceeded in violations <==> o.duration > policy.maxDuration)
            && (CostExceeded in violations <==> s.totalCost > policy.maxTotalCost)
            && (FailureCluster in violations <==> s.recentFailures >= policy.failClusterThreshold)
  {
    var a: seq<Violation> := if s.safetyLevel > policy.maxSafetyLevel then [SafetyLevelExceeded] else [];
    var b: seq<Violation> := if o.duration > policy.maxDuration then [DurationExceeded] else [];
    var c: seq<Violation> := if s.totalCost > policy.maxTotalCost then [CostExceeded] else [];
    var d: seq<Violation> := if Clusters(s, policy) then [FailureCluster] else [];
    assert Violations(o, s, policy) == a + b + c + d;
    assert forall v :: v in a + b + c + d <==> v in a || v in b || v in c || v in d;
  }

  method Verify(o: Outcome, s: State, policy: Policy) returns (violations: seq<Violation>)
    ensures violations == Violations(o, s, policy)
    ensures SafetyLevelExceeded in violations <==> s.safetyLevel > policy.maxSafetyLevel
    ensures DurationExceeded in violations <==> o.duration > policy.maxDuration
    ensures CostExceeded in violations <==> s.totalCost > policy.maxTotalCost
    ensures FailureCluster in violations <==> s.recentFailures >= policy.failClusterThreshold
  {
    ViolationsMean(o, s, policy);
    violations := [];
    if s.safetyLevel > policy.maxSafetyLevel {
      violations := violations + [SafetyLevelExceeded];
    }
    if o.duration > policy.maxDuration {
      violations := violations + [DurationExceeded];
    }
    if s.totalCost > policy.maxTotalCost {
      violations := violations + [CostExceeded];
    }
    if s.recentFailures >= policy.failClusterThreshold {
      violations := violations + [FailureCluster];
    }
  }

  function Tightened(policy: Policy): Policy {
    policy.(riskMax := Max(0.3, policy.riskMax - 0.1), successMin := Min(0.5, policy.successMin + 0.05))
  }

  function Relaxed(policy: Policy): Policy {
    policy.(riskMax := Min(0.8, policy.riskMax + 0.05), successMin := Max(0.1, policy.successMin - 0.02))
  }
}
