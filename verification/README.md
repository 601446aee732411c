# A verified model of the RFSN kernel and its services

RFSN is an agent runtime: a planner proposes steps, a kernel decides which of
them an executor may carry out, hash-chained ledgers record what was decided, and
services around it share state between agents. This project models the parts
whose correctness rests on an invariant, a loop or a whole run, and proves what
they are for.

- `Consensus` - the replicated log: what one log does with a proposal or an
  append, then any number of nodes exchanging slices of their logs over a network
  that reorders, repeats and loses them.
- `ModelCheck`, `DepthFirst`, `Exploration`, `Counterexample` - the explicit-state searches, what
  their reports mean, and the minimiser of violating paths.
- `Steps`, `Validation`, `Simulation`, `Kernel` - planner steps and tiers, the checks
  of a step's parameters, prediction and decision, and the kernel itself. `Turn` says on values what one call makes of
  the kernel's whole state; the class `HardKernel` does it in place and is proved
  to agree. `KernelRuns` and `KernelSafety` are about any sequence of calls, resets,
  relaxings and run ends, with arbitrary executor answers: a `Run` is a kernel, what
  is done with it and what each action leads to, and `RunsExist` shows that there is
  exactly one for any kernel and any actions. `KernelGates` says what each gate asks
  and `KernelEffects` what each call leaves behind, on the fields read and written.
- `HardLedger`, `Replay`, `LedgerChain` - the two hash chains and the replay of a
  run from the ledger.
- `TextLines`, `DiffMinimize`, `DiffGate`, `Patcher`, `BenchRun` - unified diffs,
  the gate over them, SEARCH/REPLACE patches, and the repair loop.
- `SandboxPool`, `Budget` - the shared pool of containers, and the usage table that
  forgets old iterations.
- `Drift` - equality of manifests and the score built on it (`Json` holds the
  values, `Common` an Option type).

What the source changes step by step is a method or a class here, and is proved
equal to a function of its inputs or of the state before; the theorems are about
those functions.

Taken from outside as parameters: SHA-256 and canonical JSON (`sha`, `canon`), of
which only the digest width is assumed, and, where tampering is the point, that
the texts hashed in the files compared do not collide; regular expressions and
globs (`Lexer`, `Gate`); `int` of a string and the settings of the validator (`Rules`);
the executor, the proposer, the test commands and the
clock; rounding to four decimals (`Rounding`: monotone, off by at most 0.00005).
Floats are reals. A call that may raise returns an Option.

Where the code does less than its own text suggests, the code is followed; the
members named show an input on which the property fails or say exactly when it does
hold:

- The log has no elections. "One proposer per term" and "a proposer accepts nothing"
  are assumptions about the environment, and each is needed
  (`SharedTermBreaksMatching`, `AcceptingProposerBreaksMatching`).
- A violation in the initial state is reported by both searches, but replaying its
  empty path checks nothing, so exactly that one never gets a message
  (`GenuineTriggers`).
- An action that raises is reported one layer early, so the first violation need not
  be a shortest one (`RaisingComesFirst`). If the budget lasted, the report itself
  tells: it is one exactly when no later violation listed is shorter
  (`FirstIsShortest`). Before the search, it is known to be one if no enabled action
  raises (`BfsShortestWhenTotal`).
- Replay takes actions without asking whether they are enabled, so a shortest
  violating run may still be shortened (`ShortestIsNotAlwaysKept`). A path is
  returned unchanged exactly when it is 1-minimal (`MinimizePath`), and a shortest
  one is if its own actions are enabled everywhere and never raise
  (`ShortestIsKept`).
- Dropping a hunk also drops the header lines of the next file, which the splitter
  counts as part of the hunk: added lines can move from a test file to a source
  file (`DroppedHunkExample`). `AttributionKept` says exactly for which diffs every
  line stays. A diff the gate lets through may be rejected once minimised
  (`MinimizedIsRejected`); `MinimizeKeepsAllowed` says exactly when.
- `LedgerChain` hashes reserved keys a caller passes in but strips them when it
  verifies, so a chain is valid exactly if no entry had one (`BuiltChainVerdict`).
- A second ledger object on the same file breaks the chain exactly unless it is up to
  date (`StaleWriterBreaksChain`).
- An occurrence of a search text that overlaps the leftmost one is not noticed as a
  second one (`AppliesWhen`).
- A usage table that has forgotten an iteration grants its budget again
  (`ForgottenExample`). `ForgettingShows`, for the next charge, and `PruningShows`,
  for a whole run, say exactly when that shows; to a charge on one of the five latest
  iterations of its scope it never does (`PruningIsInvisible`).
- Replay accepts a rejection that names an outcome, and looks at no body: what was
  decided can be changed without its noticing (`ChangedBodyReplays`), and what it
  does notice is said exactly (`ReportMeans`, `TamperedStep`).
- The learner's loop risk never passes its own floor of 0.7 (`PriorIsFlat`).
- The drift estimate is 1 when the first execution fails, so with the default limit
  such a run never executes again (`FirstFailureIsFinal`).
- Some parameters are read in ways that can raise, and such a call commits no record:
  a test run with a timeout of null is one (`NullTimeoutRaises`), and `CallRaises`
  says which calls those are.

## Model

| member | source | states |
|---|---|---|
| Consensus.ConsensusLog.Append | services/consensus/deterministic_consensus.py:24-46 | Returns true exactly when there is no previous index or the log reaches it with that term, and else changes nothing; the log keeps every entry that agrees, is cut at the first conflict and takes the rest of the message |
| Consensus.ConsensusLog.Propose | services/consensus/deterministic_consensus.py:48-57 | Adds one entry with the current term and the next index |
| Consensus.MatchedIsFirst | services/consensus/deterministic_consensus.py:33-44 | The log is kept exactly up to the first entry it lacks or holds under another term |
| Consensus.AcceptExactly | services/consensus/deterministic_consensus.py:24-46 | The log after a message, entry by entry: whole if all entries are there by term, else kept up to the first that is missing or conflicts and continued from there |
| Consensus.AcceptHolds | services/consensus/deterministic_consensus.py:24-46 | After a consistent message the log has every entry's term in place, is unchanged before them, and ends with the message if it changed at all |
| Consensus.AcceptTwice | services/consensus/deterministic_consensus.py:24-46 | Delivering a message again changes nothing |
| Consensus.SliceIsTaken | services/consensus/deterministic_consensus.py:24-46 | Progress: every log that reaches the previous index with the sender's term takes the slice, whatever it holds behind, and then carries the sender's terms up to the last entry sent |
| Consensus.AcceptSlice | services/consensus/deterministic_consensus.py:24-46 | A slice of the sender's log, at a receiver whose log agrees with the sender's term at the previous index: the log ends as the sender's up to the last entry sent, or began with that already; at any other receiver it stays |
| Consensus.StepKeeps | services/consensus/deterministic_consensus.py:24-57 | Every enabled step of any node or of the network keeps the invariant that each log is made of prefixes of its terms' proposers |
| Consensus.RunKeeps | services/consensus/deterministic_consensus.py:24-57 | So does any run of steps |
| Consensus.LogMatching | services/consensus/deterministic_consensus.py:24-57 | Log Matching (section 5.3 of the Raft paper, extended version): entries with equal index and term in two logs imply equal logs up to that index, after any run |
| Consensus.DeliveryCopiesSender | services/consensus/deterministic_consensus.py:24-46 | However late and however often a message arrives: a receiver that agrees with the sender's term at the previous index then has exactly the log the sender had when it sent it, up to the last entry sent, or keeps one that begins with it; any other keeps its log |
| Consensus.SharedTermBreaksMatching | services/consensus/deterministic_consensus.py:48-57 | Without the first assumption there is a run - two fresh logs propose in term 0 - after which Log Matching fails |
| Consensus.AcceptingProposerBreaksMatching | services/consensus/deterministic_consensus.py:24-57 | Without the second there is one too: a proposer is truncated by a message of an earlier term and proposes again at the same place |
| ModelCheck.ExploreBfs | rfsn_kernel/model_check.py:57-129 | The discoveries are exactly those of breadth-first search, in its order; they are layered by distance, everything enabled within the bound was enqueued or seen, and the report lists exactly what the popped nodes yield |
| ModelCheck.ExpandBfs | rfsn_kernel/model_check.py:103-127 | One node's actions: unseen successors are enqueued in order, raising actions reported |
| ModelCheck.ExploreDfs | rfsn_kernel/model_check.py:132-194 | The same for the stack-based search, whose nodes are popped in preorder |
| ModelCheck.ExpandDfs | rfsn_kernel/model_check.py:172-192 | One node's actions, last one first |
| Exploration.BfsSound | rfsn_kernel/model_check.py:86-127 | Every violation replays: its path follows enabled actions from the initial state, is as long as its depth, and ends in a broken state or in an action that raises |
| Exploration.DfsSound | rfsn_kernel/model_check.py:156-192 | The same for depth-first search |
| Exploration.ViolationsListed | rfsn_kernel/model_check.py:86-127 | Either search reports every broken state it pops and every raising action of the nodes it expands |
| Exploration.BfsDeadlocks | rfsn_kernel/model_check.py:103-109 | Every deadlock reported replays, in as many actions as its depth and fewer than the bound, to an unbroken state without actions; every node popped at such a state is reported once, with its own path |
| Exploration.DfsDeadlocks | rfsn_kernel/model_check.py:168-174 | The same for depth-first search |
| Exploration.BfsListsDeadlocks | rfsn_kernel/model_check.py:82-129 | With budget left, every state where a clean run shorter than the bound gets stuck is listed, once, with a path no longer than that run |
| Exploration.DepthReported | rfsn_kernel/model_check.py:82-129 | The count reported is that of the nodes popped, and the depth that of the deepest of them |
| Exploration.DfsIsDepthFirst | rfsn_kernel/model_check.py:150-192 | Between a node and a descendant only descendants are popped, and of two successors of a state the one whose action is listed first comes first |
| Exploration.BfsComplete | rfsn_kernel/model_check.py:82-129 | No violation and budget left: every run of at most the bound's enabled actions satisfies the invariant and raises nothing, and without deadlocks can be continued |
| Exploration.BfsShortest | rfsn_kernel/model_check.py:86-127 | The first violation is as short as any faulty run, whether or not the budget ran out, except that a raising action may precede a broken state of its own layer |
| Exploration.FirstIsShortest | rfsn_kernel/model_check.py:86-127 | If the budget lasted, the first violation is as short as any faulty run exactly when none in the report is shorter |
| Exploration.RaisingComesFirst | rfsn_kernel/model_check.py:86-127 | A system on which the search reports a run of two actions before one of one action |
| Exploration.BfsOrdered | rfsn_kernel/model_check.py:86-127 | Two violations are out of order of depth exactly when the earlier is a raising action and the later a broken state one step shallower |
| Exploration.BfsShortestWhenTotal | rfsn_kernel/model_check.py:86-127 | If no enabled action raises: nondecreasing depths, and the first violation is as short as any violating run |
| Exploration.SearchesAgree | rfsn_kernel/model_check.py:57-194 | If depth-first search hits neither budget nor bound, breadth-first search visits the same states and reports as many states, violations and deadlocks, with the same verdict |
| Counterexample.MinimizePath | rfsn_kernel/counterexample.py:11-43 | Leaves out the first action that can be spared, again and again: a subsequence from which no single action can be removed, which still violates if the input did; the input is returned unchanged exactly when it was already 1-minimal |
| Counterexample.GenerateCounterexample | rfsn_kernel/counterexample.py:67-106 | A path that violates always gets a message, that of replaying the minimised path |
| Counterexample.ViolatesAtTheEnd | rfsn_kernel/counterexample.py:25-64 | On a minimised path the violation occurs exactly at the last action |
| Counterexample.ShortestIsKept | rfsn_kernel/counterexample.py:11-43 | A shortest violating path whose actions are enabled everywhere and never raise is returned unchanged |
| Counterexample.ShortestIsNotAlwaysKept | rfsn_kernel/counterexample.py:46-64 | A system whose shortest violating run is not 1-minimal, because replay takes a disabled action |
| Counterexample.GenuineTriggers | rfsn_kernel/counterexample.py:46-64 | A violation found by a search is reproduced by replay exactly when its depth is not 0 |
| Counterexample.MinimizeFirst | rfsn_kernel/counterexample.py:67-106 | Search and minimiser together: the result is minimal, no longer than the first violation, violates exactly when that one is not the initial state, and is that one's own path if no enabled action raises and the path's actions are enabled everywhere |
| Steps.Normalize | rfsn_kernel/normalize.py:26-68 | The proposal keeps exactly the parameters its action allows, and the step's id under a hidden name |
| Steps.ProposalToStep | rfsn_kernel/normalize.py:71-81 | The executor's step has the action, the id if there is one, and exactly the parameters that are not hidden |
| Steps.ExecutedKeys | rfsn_kernel/normalize.py:26-81 | The step executed, key by key: the type, the id unless it counts as false, and exactly the parameters the action allows, with the raw values |
| Steps.ExecutedTouchesChecked | rfsn_kernel/normalize.py:37-81 | The paths touched by the step executed are among those of the raw step that was checked |
| Steps.TierCheckCarriesOver | rfsn_kernel/kernel.py:523-527 | So a tier that allows the raw step allows the step executed |
| Steps.StepTouches | rfsn_kernel/tier_policy.py:61-90 | The paths a step mentions, each once, in order of first mention |
| Steps.TouchedMeans | rfsn_kernel/tier_policy.py:61-90 | A step touches its path, the strings among its paths, its files by name or by their own path, and what its patch names |
| Steps.PatchPathsAre | rfsn_kernel/tier_policy.py:41-58 | A patch names what its "+++ b/" and "--- a/" lines name, and only without any such line what its "diff --git" lines name |
| Steps.DedupedOrder | rfsn_kernel/tier_policy.py:83-90 | Each path is listed once, in the order of first mention |
| Steps.PermitsMeans | rfsn_kernel/tier_policy.py:28-38 | The first of the three lists of globs that names the path decides whether a tier permits it; a path in none is permitted |
| Steps.TierAllowsStep | rfsn_kernel/tier_policy.py:93-108 | Reports the first forbidden path, and none exactly when every path touched is permitted |
| Steps.PickNextTier | rfsn_kernel/tier_policy.py:111-141 | The lowest tier above the current one whose rules name one of the failure kinds, or the current one |
| Steps.DefaultTiers | rfsn_kernel/kernel.py:83-142 | The built-in policy: tests from tier 1 on, dependencies from 2, CI at 3, no budgets, and which failures call for which tier |
| Steps.DefaultIsMonotone | rfsn_kernel/kernel.py:83-121 | In the built-in policy a higher tier allows whatever a lower one does |
| Steps.AllowedStaysAllowed | rfsn_kernel/tier_policy.py:93-108 | Under a monotone policy a step allowed at one tier is allowed at every higher one |
| Simulation.SystemState.RecordAction | rfsn_kernel/state.py:84-88 | The action comes last, behind as many of the earlier ones as make twenty |
| Simulation.SystemState.RecordSuccess | rfsn_kernel/state.py:93-94 | Takes one failure back, but never below zero |
| Simulation.OutcomeHistory.Record | rfsn_kernel/simulate.py:63-95 | Counts the outcome in the pair's entry, moves its failure rate by 0.3, and prunes an overfull table |
| Simulation.RecordedLookup | rfsn_kernel/simulate.py:70-98 | Recording counts the outcome and the cost in the entry of its own key and moves its rate by 0.3; any other entry is unchanged or pruned |
| Simulation.DropsLeastUsed | rfsn_kernel/simulate.py:84-95 | Pruning drops as many entries as asked, keeps the others, and drops none used more often than one it keeps |
| Simulation.DropsOldest | rfsn_kernel/simulate.py:84-95 | Of two entries used equally often the older is dropped first |
| Simulation.RecordedSize | rfsn_kernel/simulate.py:70-95 | An overfull table loses exactly a quarter of its entries |
| Simulation.LoopRiskIs | rfsn_kernel/simulate.py:151-183 | The loop risk from the actions recorded: four or three of the kind in a row at the end, or six or four of it among the last ten |
| Simulation.SimulationIs | rfsn_kernel/simulate.py:186-340 | Predicted failure, drift, cost, loop risk and success probability from the entry of the action in its context, the counters and the evidence |
| Simulation.RecordCounts | rfsn_kernel/simulate.py:242-262 | The estimate is the base rate, drawn to the record by a tenth for each of up to ten tries once there are three |
| Simulation.UntriedRates | rfsn_kernel/simulate.py:242-254 | The base rates a tool never tried is estimated at |
| Simulation.LearnerCounts | rfsn_kernel/simulate.py:265-276 | It is drawn to the learner's estimate by a quarter, and by up to a half more for twenty trials |
| Simulation.SuccessProbIs | rfsn_kernel/simulate.py:277-302 | The penalties for failures, safety level and traps multiply it, and the result stays within 0.01 and 1 |
| Simulation.PriorIsFlat | rfsn_kernel/kernel.py:626-641 | A failure the learner saw twice or more counts as a loop risk of 0.7, however often |
| Simulation.Verify | rfsn_kernel/verify.py:25-81 | Lists the violated postconditions in order, each exactly when its own limit is passed |
| Kernel.RunStateStore.Get | rfsn_kernel/run_state.py:18-24 | A run not known yet becomes known at tier 0; the empty id stands for the default run |
| Kernel.HardKernel.KernelStep | rfsn_kernel/kernel.py:309-822 | Leaves the kernel, its ledger and the executor exactly as `Turn` says, whose gates, effects and records the rows of `KernelGates` and `KernelEffects` give on the fields |
| Kernel.HardKernel.ExecuteAndCommit | rfsn_kernel/kernel.py:700-822 | From the executor's answer, or its raising, to the approval record |
| Kernel.HardKernel.AbsorbOutcome | rfsn_kernel/kernel.py:710-781 | Counters, history, failure kinds and tier after an outcome, with an event if the tier rose |
| Kernel.HardKernel.CheckTier | rfsn_kernel/kernel.py:342-536 | The first of the tier's limits and path rules that the raw step breaks, in the source's order |
| Kernel.HardKernel.CommitLedger | rfsn_kernel/kernel.py:824-857 | Appends one record behind the chain head, an approval exactly when there is an outcome |
| Kernel.HardKernel.AppendKernelEvent | rfsn_kernel/kernel.py:259-307 | Appends one record marked as an event |
| Kernel.HardKernel.AdaptiveTighten | rfsn_kernel/kernel.py:901-914 | Raises the safety level by one up to 2, lowers the risk limit by 0.1 down to 0.3 and raises the success floor by 0.05 up to 0.5 |
| Kernel.HardKernel.AdaptiveRelax | rfsn_kernel/kernel.py:916-926 | Lowers the level by one, raises the risk limit by 0.05 up to 0.8 and lowers the success floor by 0.02 down to 0.1 |
| Validation.RaiseOnUnreadable | rfsn_kernel/validate.py:231-459 | The per-action checks raise exactly on the parameters listed, and the cost estimate on a patch that is no text and a timeout that does not convert to an integer and a float |
| Kernel.HardKernel.ResetForRun | rfsn_kernel/kernel.py:859-899 | Fresh state, the history if asked for, tier 0 for the run; the ledger stays |
| KernelRuns.RunsExist | rfsn_kernel/kernel.py:309-935 | Any actions can be done with any kernel, and what they lead to is determined |
| KernelRuns.TurnCounts | rfsn_kernel/kernel.py:348-822 | A call that returns commits one record that is not an event, for its run; an execution is one approval; the ledger stays a chain |
| KernelRuns.RunCounts | rfsn_kernel/kernel.py:348-822 | The same over any run from any sound ledger, for every run id |
| KernelRuns.Accounting | rfsn_kernel/kernel.py:348-822 | From a fresh ledger: as many records that are not events as calls that returned, as many approvals as executor invocations, and a file that verifies |
| KernelRuns.RunReplays | rfsn_kernel/replay.py:97-176 | Replaying any run from that ledger is ok and matches as many steps as calls for that run returned |
| KernelGates.TierGateMeans | rfsn_kernel/kernel.py:342-536 | The tier's gate refuses a step for the first of these, on the fields: its steps used up, a patch of too many bytes, files or changed lines, a path of a kind the tier forbids - the first such path |
| KernelGates.TierRefuses | rfsn_kernel/kernel.py:342-536 | In any run, a call that gate refuses gets its reason and executes nothing |
| KernelGates.ChangedMeans | rfsn_kernel/kernel.py:478-485 | Changed lines are those that begin with one + or one - and not with three |
| KernelGates.ValidationGates | rfsn_kernel/validate.py:183-229 | In any run, a call past that gate is refused for the first of: unregistered, disabled, unsafe and not listed, locked, out of steps, faulty parameters - and for that alone; it raises when those cannot be read |
| KernelGates.ParametersMean | rfsn_kernel/validate.py:231-459 | The checks of the parameters pass exactly when these are acceptable, tool by tool |
| KernelGates.DecisionGates | rfsn_kernel/decide.py:48-95 | In any run, a call past validation executes exactly when loop risk, drift risk, predicted cluster failure, effective risk and success probability all keep their bounds, and is otherwise refused for the first that does not |
| KernelGates.CostMeans | rfsn_kernel/simulate.py:136-148 | The cost is a base for the tool, and on top 0.005 for each line of a patch and 0.0005 for each second of a test run |
| KernelGates.ExecutedTool | rfsn_kernel/validate.py:183-213 | In any run only twelve tools are ever executed |
| KernelGates.ExecutedReadsPlainPaths | rfsn_kernel/validate.py:240-282 | In any run, whatever reads a file names it by a path that is not empty, not absolute, not blocked and without ".." |
| KernelGates.ExecutedPatchWithinLimits | rfsn_kernel/kernel.py:384-522 | In any run, whatever applies a patch applies a text that is not blank, has no fault, and keeps the limits of the tier its run then has |
| KernelEffects.ExecutionEffects | rfsn_kernel/kernel.py:700-822 | What an execution does to every field: steps, cost, failures, recent actions, safety level, thresholds, history, tier and failure kinds |
| KernelEffects.RefusalEffects | rfsn_kernel/kernel.py:675-697 | A call that executes nothing changes none of them, but that one refused by the decision becomes the last recent action |
| KernelEffects.TotalsAddUp | rfsn_kernel/kernel.py:707-722 | From a reset to the next, the steps counted are the executions and the total cost is the sum of their estimates |
| KernelEffects.CallIsRecorded | rfsn_kernel/kernel.py:259-307 | In any run a call that returns leaves one record that describes it - proposal, prediction, decision, reason, outcome, state, run, tier - behind one event exactly if the tier gate refused it or its outcome raised the tier; nothing else touches the ledger |
| KernelEffects.LedgerGrows | rfsn_kernel/kernel.py:824-857 | The ledger is only appended to |
| KernelSafety.TurnAdmits | rfsn_kernel/kernel.py:539-822 | A call executes exactly when all gates let it through, and then exactly the normalized step; otherwise it changes nothing but the ledger, the recent actions and which runs are known |
| KernelSafety.CallRaises | rfsn_kernel/kernel.py:538-663 | A call raises, and commits nothing, exactly when it reaches the per-action checks and has a parameter they cannot read, or passes them as a test run whose timeout does not convert |
| KernelSafety.NullTimeoutRaises | rfsn_kernel/simulate.py:144-147 | A test run with a timeout of null does so in any kernel just started |
| KernelSafety.ExecutedIsVetted | rfsn_kernel/validate.py:183-229 | In any run, what reaches the executor is an enabled tool, safe or listed, on paths its run's tier permits, while the kernel is neither locked nor out of steps, and with loop risk, drift risk, predicted failure, effective risk and success probability within their bounds |
| KernelSafety.LockdownBound | rfsn_kernel/kernel.py:793-796 | From a reset, recent failures exceed the cluster threshold by at most one, and one more for each relaxing |
| KernelSafety.FailuresAreSteps | rfsn_kernel/state.py:90-97 | At all times 0 <= recent failures <= steps <= the step budget |
| KernelSafety.DriftIsFinal | rfsn_kernel/decide.py:57-62 | Once the drift estimate is over its limit nothing executes before the next reset, relaxed or not |
| KernelSafety.FirstFailureIsFinal | rfsn_kernel/simulate.py:186-197 | With any drift limit below 0.99995, a run whose first execution fails, whatever was refused before it, executes nothing more before the next reset |
| KernelSafety.StreakRate | rfsn_kernel/simulate.py:78-82 | After n failures in a row of one action in one context its rate is at least 1 - 0.7^n |
| KernelSafety.StreakAtMostFour | rfsn_kernel/simulate.py:200-210 | No action fails more than four times in a row in one context while its entry is kept |
| KernelSafety.ClusterIsFinal | rfsn_kernel/decide.py:64-70 | Once a pair's rate is over 0.7 it is not executed again until its entry is pruned or the history reset |
| KernelSafety.FourthFailureIsFinal | rfsn_kernel/decide.py:64-70 | In particular after four failures in a row |
| KernelSafety.TierNeverFalls | rfsn_kernel/kernel.py:761-769 | Between resets a run's tier never falls, and never rises above 3 |
| KernelSafety.TiersInRange | rfsn_kernel/kernel.py:761-769 | Every tier is between 0 and 3 at all times |
| KernelSafety.PermittedStaysPermitted | rfsn_kernel/kernel.py:523-527 | Under a monotone policy, paths a run's tier permits once stay permitted until the run is restarted; the whole tier gate then stays open where the tier sets no limits |
| HardLedger.Ledger.constructor | rfsn_kernel/hard_ledger.py:81-107 | Resuming takes up the last chain hash stored and the number of records, a record without a chain hash counting but leaving the hash as it was |
| HardLedger.Ledger.Append | rfsn_kernel/hard_ledger.py:113-169 | Adds one record that points to the previous chain hash and holds the digests of its canonical text and of the two hashes joined |
| HardLedger.Ledger.VerifyChain | rfsn_kernel/hard_ledger.py:171-249 | Returns every fault of every line, in order, and the number of entries |
| HardLedger.ErrorFreeIsChained | rfsn_kernel/hard_ledger.py:201-247 | A file verifies exactly when no line is malformed and each record is sealed behind the one before, from the zero hash |
| HardLedger.VerifiedRecord | rfsn_kernel/hard_ledger.py:171-249 | In a file that verifies every record holds the digest of its own text, points to the chain hash before it - 64 zeros for the first - and holds the digest of the two |
| HardLedger.SealedFileVerifies | rfsn_kernel/hard_ledger.py:171-249 | Any file of such records without a malformed line verifies |
| HardLedger.ErrorsListed | rfsn_kernel/hard_ledger.py:179-247 | Which faults are listed for which line |
| HardLedger.ErrorsInOrder | rfsn_kernel/hard_ledger.py:179-247 | They are listed in the order of the lines |
| HardLedger.EntriesAreNotBlank | rfsn_kernel/hard_ledger.py:179-186 | The entries counted are the lines that are not blank |
| HardLedger.PrevIs | rfsn_kernel/hard_ledger.py:81-107 | An appender resumes from the last chain hash stored, and verification expects that of the last record with all three hashes |
| HardLedger.AnyHistoryVerifies | rfsn_kernel/hard_ledger.py:87-169 | Any history of appends and reopenings of a file that verifies leaves one that verifies |
| HardLedger.StaleWriterBreaksChain | rfsn_kernel/hard_ledger.py:113-143 | An append through a ledger object with another previous hash verifies exactly when that hash was the head |
| HardLedger.HeadDeterminesBodies | rfsn_kernel/hard_ledger.py:122-143 | Chains of equal length with the same head agree on every hashed field of every record |
| HardLedger.HeadDeterminesLength | rfsn_kernel/hard_ledger.py:122-143 | And chains with the same head have equal length if no chain hash is the zero hash |
| HardLedger.TamperEvident | rfsn_kernel/hard_ledger.py:201-247 | So two files that both verify with the same head agree on all eight hashed fields |
| Replay.ReplayVerify | rfsn_kernel/replay.py:85-176 | The divergences are exactly the selected records that are inconsistent, in order; the others match |
| Replay.SelectAt | rfsn_kernel/replay.py:67-99 | The records selected are those of the run that are no events, in their order |
| Replay.ReportMeans | rfsn_kernel/replay.py:104-176 | A step matches exactly when its chain hash is that of its own fields - without a run id, when it points to the record before it - it has the state hash expected, and it is a rejection or an approval with an outcome |
| Replay.ChainedRunReplays | rfsn_kernel/replay.py:97-176 | On a chain of well-formed records every run replays without divergence, whatever lies between its records |
| Replay.TamperedStep | rfsn_kernel/replay.py:104-176 | If one record of a run is replaced on such a ledger, the run diverges at that step alone, and exactly when the new record has a chain hash that is not that of its fields, an unknown decision, or an approval without outcome |
| Replay.ChangedHashDiverges | rfsn_kernel/replay.py:114-128 | So changing any of the three hashes of a record shows at exactly that step |
| Replay.ChangedBodyReplays | rfsn_kernel/replay.py:104-176 | Changing what was decided does not show on replay; it shows when the chain is verified |
| LedgerChain.Chain.constructor | rfsn_kernel/ledger_chain.py:31-34 | An empty chain starts from the hash of its seed |
| LedgerChain.Chain.Load | rfsn_kernel/ledger_chain.py:122-131 | Loading takes the saved entries over and resumes from the last hash, or raises if the last entry has none; a chain that was built is again one that was built |
| LedgerChain.Chain.Append | rfsn_kernel/ledger_chain.py:36-56 | Stores the entry with its index, the previous hash and its own hash; a chain built from some contents becomes the one built from one entry more |
| LedgerChain.StoredMeans | rfsn_kernel/ledger_chain.py:36-56 | What is stored, key by key: the caller's values, the index, the previous hash, and the digest of that hash, a bar and the entry |
| LedgerChain.ValidMeans | rfsn_kernel/ledger_chain.py:58-93 | An entry is valid exactly when it points to the hash its predecessor stores and stores the digest of that hash, a bar and its own contents |
| LedgerChain.Chain.Verify | rfsn_kernel/ledger_chain.py:58-99 | Names the first invalid entry or none; on a chain that was built that is the first with a reserved key, and on one whose contents were changed since, the first changed |
| LedgerChain.TamperedValidAt | rfsn_kernel/ledger_chain.py:58-99 | After any change of contents an entry is valid exactly when its own contents are unchanged |
| LedgerChain.FirstInvalidIsLeastChanged | rfsn_kernel/ledger_chain.py:58-99 | So the first invalid index is exactly the least changed one |
| LedgerChain.BuiltChainVerdict | rfsn_kernel/ledger_chain.py:36-99 | A chain just built is valid exactly when no entry held a reserved key, and is otherwise first invalid at the first that did |
| DiffMinimize.MinimizeUnifiedDiff | rfsn_kernel/patch_minimize.py:6-49 | The loop with its nested flush computes the minimised text |
| DiffMinimize.KeepsChangedHunks | rfsn_kernel/patch_minimize.py:15-46 | It keeps the leading lines and exactly the hunks with a change, in order |
| DiffMinimize.MinimizedMeans | rfsn_kernel/patch_minimize.py:6-49 | The minimised text on the lines of the diff: what stands before the first line that begins with @@, the hunks with a line that adds or deletes, and the final newline |
| DiffMinimize.MinimizeIdempotent | rfsn_kernel/patch_minimize.py:6-49 | Minimising twice is minimising once, final newlines included |
| DiffMinimize.MinimizeShrinks | rfsn_kernel/patch_minimize.py:6-49 | The result has no more bytes than the diff |
| DiffGate.DiffAnalysis | rfsn_swebench/gate.py:78-114 | The loop over the lines computes the statistics of the whole diff |
| DiffGate.AnalysisMeans | rfsn_swebench/gate.py:84-114 | The statistics are the bytes of the text, the files its "diff --git" lines name, and the numbers of lines that begin a new file, add, delete, or delete a line that mentions a test |
| DiffGate.AddedLine | rfsn_swebench/gate.py:97-108 | Each added line is listed in order, and once more with the test lines or the source lines by the file it is in |
| DiffGate.CurrentFileIs | rfsn_swebench/gate.py:88-95 | The file a line is in is the one named last by a "+++ b/" or a "diff --git" line |
| DiffGate.MinimizePreservesAnalysis | rfsn_swebench/gate.py:84-114 | Minimising keeps added and deleted lines and deleted test lines exactly; size, files and new files never grow |
| DiffGate.AttributionKept | rfsn_swebench/gate.py:84-114 | Minimising keeps every added line with the test files or with the others exactly when each hunk that adds a line before naming a file finds a file of the same side current in the minimised diff as in the diff |
| DiffGate.AttributionKeptLists | rfsn_swebench/gate.py:103-108 | Then the lists of lines added to test files and to other files are the same |
| DiffGate.DroppedHunkExample | rfsn_kernel/patch_minimize.py:15-46 | A diff on which a line added to a test file becomes a source line |
| DiffGate.PatchRiskGate | rfsn_swebench/gate.py:191-284 | Gives each of nine reasons exactly when its own limit is broken, and allows a diff exactly when there is none |
| DiffGate.AllowedMeans | rfsn_swebench/gate.py:191-284 | What it lets through, on the lines: no blocked file, no more files, new files, added, deleted and deleted test lines and bytes than allowed, no banned pattern |
| DiffGate.EmptyDiffAllowed | rfsn_swebench/gate.py:191-284 | The empty diff passes any gate with nonnegative limits |
| DiffGate.MinimizeKeepsAllowed | rfsn_swebench/gate.py:191-284 | A diff that passes still passes minimised exactly when the lines then counted as test lines match no banned pattern |
| DiffGate.MinimizedIsRejected | rfsn_swebench/gate.py:191-284 | A diff that passes and, minimised, is rejected |
| DiffGate.KeptSidesAllowed | rfsn_swebench/gate.py:191-284 | So it passes if every added line stays on its side |
| Patcher.AppliesWhen | rfsn_swebench/patcher.py:206-231 | A patch applies exactly when its search text is not empty, differs from its replacement, and has no occurrence behind its leftmost one |
| Patcher.AppliedContent | rfsn_swebench/patcher.py:206-231 | What comes out: the leftmost occurrence replaced and nothing else, and as no change exactly a replacement equal to the text searched for |
| Patcher.UndoOne | rfsn_swebench/patcher.py:206-231 | Swapping search and replacement restores the content exactly when what was put in is not empty, is its own leftmost occurrence, and has no other behind it |
| Patcher.ScanIsNonGreedy | rfsn_swebench/patcher.py:393-405 | The scanner finds a block whenever one matches, at the leftmost header with the nearest divider and footer |
| Patcher.PrintThenParse | rfsn_swebench/patcher.py:393-405 | Printed blocks parse back exactly when each delimiter first occurs where it was printed |
| Patcher.ReadsOneBlock | rfsn_swebench/patcher.py:393-405 | A text of one block, as it is written with its delimiters, is read as that block |
| Patcher.AppliedInTurn | rfsn_swebench/patcher.py:413-418 | The blocks make of a content what each in turn makes of the one before, up to the first that fails |
| Patcher.SemanticPatcher.ApplyPatches | rfsn_swebench/patcher.py:393-418 | Applies the blocks in turn; if there is none or one fails, the content is untouched |
| Patcher.UndoRestores | rfsn_swebench/patcher.py:403-418 | Undoing the blocks in reverse order restores the content when each of them can be undone |
| BenchRun.Run | rfsn_swebench/runner.py:202-530 | The patch returned is empty or was let through, and then touches no blocked file and keeps every limit on its lines; the risk reported is ALLOW if limits are not negative and no pattern matches the empty text; GATE_REJECT leaves an empty patch and PASS means both test runs exited 0; the status is that of the first iteration to win or time out, and iterations keep to the limit |
| BenchRun.LastGateDecides | rfsn_swebench/runner.py:283-530 | The patch held is that of the last gate decision: empty after a rejection, the diff let through otherwise |
| BenchRun.PassesExactlyWhen | rfsn_swebench/runner.py:202-530 | The run passes exactly when some iteration in time has a proposal that applies, is let through, and whose two test runs exit with 0, and aborts exactly when the clock runs out before |
| BenchRun.LastExitCodes | rfsn_swebench/runner.py:283-530 | The exit codes reported are those of the last patch let through and of the last whose quick run succeeded |
| SandboxPool.StepKeeps | services/executor/sandbox_pool.py:98-129 | Every step of any thread keeps each container at one known place |
| SandboxPool.OnePlaceEach | services/executor/sandbox_pool.py:107-129 | In every interleaving each container is held by one thread, pooled, being destroyed by one, destroyed, or replaced after it was reported dead - exactly one of these |
| SandboxPool.NoneLost | services/executor/sandbox_pool.py:324-336 | With no thread under way, a container is pooled for its run or destroyed, not both, exactly if it was not replaced after it was reported dead |
| SandboxPool.GivenOut | services/executor/sandbox_pool.py:98-129 | A step gives out only what is then pooled for the run asked for and was created for it, one already there only if just reported alive |
| SandboxPool.ReturnedIsOwned | services/executor/sandbox_pool.py:98-129 | In every interleaving, what a call for a run was given had been created for that run |
| SandboxPool.Popped | services/executor/sandbox_pool.py:324-336 | Only destroying or reaping a run takes a container out of the pool, that run's and no other |
| SandboxPool.ReturnedIsPooled | services/executor/sandbox_pool.py:98-129 | Without destroys and dead reports, whatever was returned is what the pool holds |
| SandboxPool.SameSandbox | services/executor/sandbox_pool.py:98-129 | Then all calls for one run return the same container, however they raced |
| Budget.Gateway.Charge | services/tool_gateway/app.py:199-228 | Counts, refuses at the first limit passed, and prunes the scope after an accepted charge |
| Budget.Gateway.PruneUsage | services/tool_gateway/app.py:221-228 | Sorting and slicing drops exactly the iterations that are not among the five latest of the scope |
| Budget.ChargeMeans | services/tool_gateway/app.py:190-219 | A charge is refused for the first limit that one more step of its kind, or else its bytes, would pass, and counts nothing behind it |
| Budget.ChargeDrops | services/tool_gateway/app.py:221-228 | An accepted charge drops from its scope the iterations with five or more later ones and leaves every other entry |
| Budget.ChargeRefines | services/tool_gateway/app.py:199-228 | Every charge keeps the pruned table a refinement of the full one, and one of the five latest iterations gets the same verdict from both |
| Budget.PruningIsInvisible | services/tool_gateway/app.py:190-228 | In any run a charge on one of the five latest iterations of its scope is accepted or refused as if nothing were ever pruned, whatever else is charged |
| Budget.RecentRunsAgree | services/tool_gateway/app.py:190-228 | So a run of such charges has exactly the verdicts of a table that never forgets |
| Budget.ForgettingShows | services/tool_gateway/app.py:199-228 | Right after a pruning charge, one on the same scope is decided differently exactly when its iteration is not recent and its forgotten usage would have had it refused where a fresh one is not |
| Budget.PruningShows | services/tool_gateway/app.py:199-228 | Over any run all verdicts agree exactly when no charge is refused at its whole usage but not at what is remembered of it: the usage since the last accepted charge in its scope that found its iteration behind the five latest |
| Budget.ForgottenIsFresh | services/tool_gateway/app.py:221-228 | After an accepted charge an iteration of the scope reads as in the full table exactly if it is recent, and as never used otherwise |
| Budget.ForgottenExample | services/tool_gateway/app.py:221-228 | An iteration behind the five latest is granted its budget a second time |
| Budget.WithinLimits | services/tool_gateway/app.py:199-219 | Accepted reads, searches and bytes of an iteration stay within their limits, negative charges included |
| Budget.RefusalIsFinal | services/tool_gateway/app.py:207-219 | After a refusal no charge of that kind on that iteration is accepted |
| Drift.DeepEqualIsStrippedEqual | services/replay_verifier/drift.py:23-36 | Deep equality is equality after dropping every None-valued key, on values without NaN |
| Drift.DeepEqualReflexive | services/replay_verifier/drift.py:23-36 | A value equals itself exactly when it holds no NaN |
| Drift.DeepEqualSymmetric | services/replay_verifier/drift.py:23-36 | Deep equality is symmetric |
| Drift.DeepEqualTransitive | services/replay_verifier/drift.py:23-36 | Deep equality is transitive |
| Drift.EqualCases | services/replay_verifier/drift.py:23-36 | Dicts are compared key by key with a missing key reading as None, lists place by place, and across kinds only a bool equals its number |
| Drift.ComputeDrift | services/replay_verifier/drift.py:39-66 | The score is the fraction of tracked keys that drift, and the mismatches say which |
| Drift.ScoreIsShare | services/replay_verifier/drift.py:12-66 | The score is the share of the tracked keys, seven if none are given, under which the manifests differ, and 1 exactly when they differ under all |
| Drift.ScoreIsPseudometric | services/replay_verifier/drift.py:39-66 | The score is within [0, 1], 0 exactly when every tracked value is equal and free of NaN, symmetric, and obeys the triangle inequality |

## Left out

- Consensus.LogMatching: takes "one proposer per term, which accepts nothing while it proposes" and "a message is a slice of the sender's log" as assumptions, because nothing in the file elects leaders or builds messages.
- Consensus.ConsensusLog.Append: does not model a previous index below -1, where Python would index from the end.
- ModelCheck.ExploreBfs: takes states themselves as fingerprints, which assumes that the hash of a state is injective; a transition that raises is None and its message is not modelled.
- Exploration.SearchesAgree: nothing is claimed of depth-first search cut at the bound, because a state first reached by a long path can be cut there.
- Counterexample.ShortestIsKept: goes one way; 1-minimality, the exact condition, is in the contract of `MinimizePath`.
- HardLedger.TamperEvident: assumes that the texts hashed in the two files do not collide; time stamps and metadata are stored but not hashed, so nothing is claimed of them.
- HardLedger.Ledger.VerifyChain: an absent entry hash or previous hash and an empty one read alike, as the code reads them; other absent fields of a stored line, and lines that are JSON but no object, are not modelled.
- Replay.ChainedRunReplays: covers replay of a named run; without a run id, neighbours are compared after events are filtered out, and nothing is claimed.
- Patcher.UndoRestores: goes one way, because an undo that goes wrong in the middle may still end at the content; each single undo is an if and only if (`UndoOne`).
- DiffGate.MinimizePreservesAttribution: goes one way; `AttributionKept` is the exact condition, for all diffs.
- Budget.RefusalIsFinal: for a refusal for bytes, and `ForgettingShows` and `PruningShows` throughout, no charge has a negative number of bytes; the gateway only charges lengths of text (services/tool_gateway/app.py:706-721).
- KernelSafety.FirstFailureIsFinal: reals stand for floats, with rounding as a monotone function off by at most 0.00005.
- Kernel.HardKernel.KernelStep: what is wrong with the text of a patch, the risk score and the failure kinds are arbitrary functions of their inputs; the error text a rollback adds to an outcome is not modelled, nor is an executor that calls back into the kernel. Settings of the policy are taken to have the types the code converts them to.
- KernelSafety.CallRaises: texts hold no lone surrogates, for which encoding the ledger's text raises (rfsn_kernel/kernel.py:275-277, rfsn_kernel/hard_ledger.py:134-136), and what the learner passes is already numbers a float can hold, where rfsn_kernel/simulate.py:265-274 would raise on larger ones.
- KernelGates.ExecutedPatchWithinLimits: takes the raw type to be a string, since no other JSON value reads as a tool's name; `str` of other values is an arbitrary function here.
- SandboxPool.OnePlaceEach: the pool is a state machine over the steps between lock operations, not a class: threads, the lock object, sandbox metadata and idle times are left out, and which runs the reaper picks is arbitrary.
- Steps.StepTouches: the order of a dict's keys is not modelled; `str` of values that are not strings, white space stripping and "diff --git" lines are arbitrary functions.
- Elections, commits and terms of the log: there is no such code to model.
- HTTP services, Docker, git, databases, prompts, policies read from YAML, metrics and command lines: plumbing.
- `rfsn_kernel/repair_loop.py` and the status branch of `rfsn_kernel/failure_kinds.py`: `... or 1` turns status 0 into 1, so their success branches have no interesting runs.
- The immune memory, BM25 and bandit scoring, virtual time, schedulers and placeholders: thin state or floating point without a sharp theorem.
