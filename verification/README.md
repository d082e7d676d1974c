# Verified model of the marketmesh end-to-end and infrastructure checks

The project models the parts of marketmesh that decide whether a tunnel test run passed, and the small stateful
programs around them, and proves what their documentation promises.

- **SLO evaluator** (`Slo*.dfy`): a finite request ledger is judged against a scenario. The verdict is proved equal
  to a declarative contract; exclusions only where zero capacity is proven, exact parts-per-million budgets on
  128-bit arithmetic, downtime windows, stable recovery.
- **Probe** (`Probe*.dfy`, `Journal*.dfy`, `Runner*.dfy`, `Ledger*.dfy`): the bounded journal, the runner's interleavings over it,
  the reconciliation of two ledgers and the report. A passing report means exactly-once application.
- **Failover** (`Failover*.dfy`): the fencing and promotion protocol of two PostgreSQL data centres as a state machine with an
  adversarial environment.
- **Test clock** (`TestClock.dfy`), **firewall partition** (`FirewallRules.dfy`, `Partition.dfy`), **pod-fault scenario**
  (`FaultPlans.dfy`, `FaultScenario.dfy`, `ScenarioTheorems.dfy`), **frame scanner** (`WireFormat.dfy`, `FrameScanner.dfy`) and **service
  selection** (`ServiceSelection.dfy`).

`Sorting.dfy`, `StringOrder.dfy` and `Wrappers.dfy` hold the general lemmas. Every lemma is marked `{:induction false}`, so its body is its whole proof.
`dafny verify dfyconfig.toml` checks everything.

Instants and durations are integers, with 0 for Go's zero time. Methods under a mutex are atomic steps and goroutines their
interleavings. Go map iteration is an arbitrary choice of the next element. SHA-256 is a function parameter. Calls to
kubectl, docker, SQL, the invoker, the controller and the collector return arbitrary answers.

Where a promise does not hold as stated, the code is kept, a lemma gives a failing input, and the exact condition is proved:

- The runner lets a success without a source, and an invoker's own backpressure, through to the journal, but the ledger check
  refuses such records: `ContractNeeded` and `BothBreaches` give the runs, `RunYieldsExactValidity` the condition.
- The journal starts a record again that was started or finished (`StartsAgain`, `StartExact`); the runner never asks it to
  (`StartsOnlyFresh`).
- The sequence key of a record without a source can equal that of a record whose source is spelled like its data centre
  (`KeysCanCollide`); keys are equal exactly when origin and class are (`SequenceKeyInjective`).
- The report ignores reordered client responses (`SettledNotClean`): a pass means settled ledgers (`SettledExact`), which are clean
  exactly when the responses came in order (`CleanExact`).
- A restore that finds more copies of a rule than it applied removes only as many as it applied (`CopiesSurvive`, `RestoreExact`,
  `RestoreTwice`).
- A failover whose controller gave up behind the fence cannot be completed (`QuitLoses`); `HealsExactly` says which idle states can.

Two properties of single functions hold on every input the program gives them, though not on all: the recovery scan treats a
required streak of zero as one, and the downtime scan takes the zero time for "no open window", where no eligible sample stands.
The database start script starts a promoted directory as writable also under the role `replica`, and the model does the same.

## Model

| member | source | states |
|---|---|---|
| SloEvaluate.Evaluate | backend/e2e/tunnel/spec/evaluate.go:41-87 | a report is returned exactly for a valid scenario; it passes exactly when the run meets the declarative contract (evidence intact, mutations safe, both classes within their targets, every fault recovered); the two class summaries and the downtime are those of the ledger, and there is one recovery entry per class of each fault with a recovery target, in order, with the verdict and the recovery instant of the samples |
| SloEvaluate.EvaluateValid | backend/e2e/tunnel/spec/evaluate.go:47-86 | the same for a scenario already known to be valid: the conjunction of all checks decides the contract, and the report's classes, downtime and recovery entries are those of the ledger |
| SloEvaluate.EvaluationState.ValidateRun | backend/e2e/tunnel/spec/run_validate.go:8-54 | the integrity list stays empty exactly when the header, plan, capacity timeline, exclusions and fault events of the run are valid; exclusions are recorded only on a valid timeline |
| SloEvaluate.EvaluationState.ValidatePlannedRequests | backend/e2e/tunnel/spec/run_validate.go:56-92 | plans are accepted exactly when classes are known, unrepeated and positive; the plan map is the accepted plans |
| SloEvaluate.EvaluationState.ValidateCapacity | backend/e2e/tunnel/spec/run_validate.go:94-145 | returns true, with no new violation, exactly when the capacity timeline is gapless over the measured window |
| SloEvaluate.EvaluationState.ValidateExclusions | backend/e2e/tunnel/spec/run_validate.go:147-184 | all exclusions are applied when every one is proven by zero capacity; one unproven exclusion leaves none applied and a violation |
| SloEvaluate.EvaluationState.ValidateFaultEvents | backend/e2e/tunnel/spec/run_validate.go:205-259 | no new violation exactly when every event is well formed, expected and unrepeated and every expected fault has its event |
| SloEvaluate.EvaluationState.EvaluateAttempts | backend/e2e/tunnel/spec/evaluate.go:184-259 | latest finish, success (one valid attempt that succeeded), unknown result and retry of a request; violations exactly for an invalid attempt list |
| SloEvaluate.EvaluationState.EvaluateMutation | backend/e2e/tunnel/spec/evaluate.go:261-329 | the mutation list grows exactly when the request's mutation evidence is unsafe: repeated key, retry, unknown ledger, applied twice, or acknowledged and not applied once |
| SloEvaluate.EvaluationState.EvaluateRequests | backend/e2e/tunnel/spec/evaluate.go:109-170 | after the loop the state holds the samples and counts of the whole ledger, and the violation lists are those of its requests |
| SloEvaluate.EvaluationState.RecoveryResult | backend/e2e/tunnel/spec/recovery.go:28-106 | violations are empty exactly when the class recovers within its limit from the anchor; the entry names fault, target and class, and its instant is given exactly when it is the latest finish of the earliest long enough block; its duration runs from the anchor to that instant or to the end of the run |
| SloEvaluate.EvaluationState.RecoveryResults | backend/e2e/tunnel/spec/recovery.go:9-26 | all recovery checks pass exactly when every fault with a recovery target is recovered; the entries are those of every class of every such fault, in scenario order, each with the verdict of its check |
| SloEvaluate.RecoveryDecides | backend/e2e/tunnel/spec/recovery.go:61-81 | the streak scan's answer decides recovery within the limit, and the recovered instant is not before the anchor, so the negative clamp is dead |
| SloCapacity.ZeroCapacityCovers | backend/e2e/tunnel/spec/run_validate.go:186-203 | a covered exclusion has zero capacity at each of its instants; on a gapless timeline it is covered exactly when every overlapping interval has zero data centres |
| SloCapacity.GaplessOrdered | backend/e2e/tunnel/spec/run_validate.go:94-145 | intervals of a gapless timeline never overlap and stand in order |
| SloCapacity.GaplessPartition | backend/e2e/tunnel/spec/run_validate.go:94-145 | every measured instant lies in exactly one interval of a gapless timeline |
| SloCapacity.ExcludedOnlyWithoutCapacity | backend/e2e/tunnel/spec/run_validate.go:147-184 | an instant excluded by the applied exclusions lies in a gapless timeline where every interval around it has zero data centres |
| SloSamples.OnlyOutagesLeaveTheSample | backend/e2e/tunnel/spec/evaluate.go:145-149 | a measured, well-scheduled request that is not eligible was scheduled where the capacity evidence is zero, on a valid timeline with all exclusions proven |
| SloSamples.SamplesSound | backend/e2e/tunnel/spec/evaluate.go:121-168 | every sample is sound: eligible only inside the measured window, successful only when finished after its schedule |
| SloSamples.CountsAddUp | backend/e2e/tunnel/spec/evaluate.go:351-372 | eligible is successful plus failed, and missing plus unknown never exceed failed |
| SloArithmetic.Mul64 | backend/e2e/tunnel/spec/evaluate.go:484-494 | high and low word together are the 128-bit product |
| SloArithmetic.Div64 | backend/e2e/tunnel/spec/evaluate.go:484-494 | the quotient of a two-word dividend, wherever the hardware division does not trap |
| SloArithmetic.BudgetDivisionSafe | backend/e2e/tunnel/spec/evaluate.go:484-488 | for every 64-bit count and rate up to a million the budget division does not trap |
| SloArithmetic.RatioDivisionSafe | backend/e2e/tunnel/spec/evaluate.go:490-494 | for every non-empty sample the availability division does not trap |
| SloArithmetic.AllowedFailures | backend/e2e/tunnel/spec/evaluate.go:484-488 | the allowance is the exact rational budget rounded down and never exceeds the sample |
| SloArithmetic.RatioPPM | backend/e2e/tunnel/spec/evaluate.go:490-494 | availability is the exact ratio in parts per million rounded down, at most a million |
| SloArithmetic.BudgetExact | backend/e2e/tunnel/spec/evaluate.go:373-406 | the budget is exhausted exactly when failed times a million exceeds eligible times rate, exactly when the reported availability is below a million minus the rate |
| SloClasses.BudgetDecides | backend/e2e/tunnel/spec/evaluate.go:373-406 | the comparison with the rounded allowance is the exact rational comparison, also for an empty sample |
| SloClasses.CountSamples | backend/e2e/tunnel/spec/evaluate.go:336-372 | one pass counts the samples and collects the eligible ones in order |
| SloClasses.TallyIgnoresOrder | backend/e2e/tunnel/spec/evaluate.go:336-372 | the counts are independent of the schedule order they are taken in |
| SloClasses.TallyAddsUp | backend/e2e/tunnel/spec/evaluate.go:336-372 | the counts of a class add up and fit 64 bits |
| SloClasses.WindowsDecideDowntime | backend/e2e/tunnel/spec/evaluate.go:421-437 | comparing every window with the limit is comparing every maximal failed run with it |
| SloClasses.ClassResult | backend/e2e/tunnel/spec/evaluate.go:331-438 | exact summary, one window per maximal failed run, and no violation exactly when the class meets its target |
| SloWindows.DowntimeWindows | backend/e2e/tunnel/spec/evaluate.go:440-482 | with no sample scheduled at the zero time, the windows are in order-preserving one-to-one correspondence with the maximal runs of failed samples |
| SloWindows.EveryRunListed | backend/e2e/tunnel/spec/evaluate.go:440-482 | a list of failed runs produced by the scan contains every maximal failed run |
| SloWindows.WindowsEncloseFailures | backend/e2e/tunnel/spec/evaluate.go:440-482 | on the samples of any run both end clamps are dead, and every failed sample's schedule lies inside its window |
| SloRecovery.FindStableRecovery | backend/e2e/tunnel/spec/recovery.go:122-155 | no result exactly means no long enough block of successes at or after the anchor; a result is the latest finish of the earliest such block |
| SloRecovery.RecoveryNotBeforeAnchor | backend/e2e/tunnel/spec/recovery.go:122-155 | the latest finish of a block at or after the anchor is not before the anchor |
| SloRecovery.RecoveryUnique | backend/e2e/tunnel/spec/recovery.go:122-155 | the recovered instant is determined by the samples |
| ProbeVerdict.Reconcile | backend/e2e/tunnel/probe/reconcile.go:51-307 | the whole result as a function of the two snapshots: every list's contents, the completeness reasons and both verdict flags, whatever order the indexes are traversed in |
| ProbeExact.CleanExact | backend/e2e/tunnel/probe/reconcile.go:51-307 | complete and without integrity fault exactly when both ledgers are complete, valid and non-empty, correspond one to one, are on time, successful and single-attempt, have one owner per digest and are in sequence on both sides |
| ProbeExact.SettledExact | backend/e2e/tunnel/probe/reconcile.go:51-307 | nothing the report looks at is found exactly when the ledgers are settled (clean up to the order of client responses) |
| ProbeExact.SettledNotClean | backend/e2e/tunnel/probe/report.go:260-282 | two ledgers that the report accepts although the client saw one response overtake another |
| ProbeExact.Deterministic | backend/e2e/tunnel/probe/reconcile.go:130-304 | missing, lost, unexpected and invalid lists and both flags are equal for every traversal order; the reasons are equal; duplicates, late and reordered results are the same with multiplicity |
| ProbeExact.InternalReordersExact | backend/e2e/tunnel/probe/reconcile.go:163-202 | an internal entry is reported reordered exactly when an earlier valid entry with the same key has a larger sequence, and as often |
| ProbeExact.InternalOrderExact | backend/e2e/tunnel/probe/reconcile.go:186-201 | on corresponding ledgers the internal entries are monotone exactly when sequences never go backwards per source and class |
| ProbeExact.ClientOrderExact | backend/e2e/tunnel/probe/reconcile.go:130-161 | the same for the order in which the client saw responses complete |
| ProbeClean.CorrespondExact | backend/e2e/tunnel/probe/reconcile.go:204-270 | no finding about a record exactly when dispatched client records and internal records correspond one to one with matching fields |
| ProbeClean.NoFindingsExact | backend/e2e/tunnel/probe/reconcile.go:93-270 | all lists but the reorders are empty exactly when both ledgers are valid, correspond, and digests have single owners |
| ProbeReconcile.MatchRecord | backend/e2e/tunnel/probe/reconcile.go:204-264 | for one client record and its group: missing, lost, unsent and contradicted verdicts and the exact duplicate and late entries |
| ProbeReconcile.MatchAll | backend/e2e/tunnel/probe/reconcile.go:204-264 | over any traversal, the lists collected are exactly those of the compared records |
| ProbeReconcile.ListOrphans | backend/e2e/tunnel/probe/reconcile.go:266-270 | exactly the identifiers that only the internal ledger knows |
| ProbeReconcile.ListByCompletion | backend/e2e/tunnel/probe/reconcile.go:130-139 | sorting the index by completion number gives one order, whatever the traversal |
| LedgerIndex.IndexClient | backend/e2e/tunnel/probe/reconcile.go:93-129 | the index holds exactly the accepted records and the rejected identifiers are listed in order |
| LedgerIndex.NothingRejected | backend/e2e/tunnel/probe/reconcile.go:93-129 | nothing is rejected exactly when every record is valid and identifiers, class sequences and completion numbers are pairwise distinct |
| LedgerIndex.IndexInternal | backend/e2e/tunnel/probe/reconcile.go:163-171 | the index groups exactly the valid internal records by identifier; nothing is listed exactly when all are valid |
| LedgerIndex.CheckOwners | backend/e2e/tunnel/probe/reconcile.go:173-184 | one entry for every valid record whose digest another request carried first; none exactly when every digest has one owner |
| LedgerOrder.ScanOrder | backend/e2e/tunnel/probe/reconcile.go:140-161 | the running-maximum scan reports exactly the overtaken entries |
| LedgerOrder.ReordersMembers | backend/e2e/tunnel/probe/reconcile.go:186-201 | an entry is among the reorders exactly when an earlier entry of its key has a larger sequence |
| LedgerOrder.NoReorderIffMonotone | backend/e2e/tunnel/probe/reconcile.go:140-161 | no reorder exactly when sequences never go backwards per key |
| ProbeTypes.SequenceKeyInjective | backend/e2e/tunnel/probe/reconcile.go:326-336 | two keys are equal exactly when origin and class are, whatever characters the origin has |
| ProbeTypes.KeysCanCollide | backend/e2e/tunnel/probe/reconcile.go:326-336 | a record without a source shares its key with one whose source is spelled like its data centre |
| ProbeVerdict.NormalizedReasons | backend/e2e/tunnel/probe/validate.go:205-221 | the reasons are trimmed, unsafe ones replaced, and each kept where it occurs first; they are empty exactly when they were |
| ProbeVerdict.IncompleteReasons | backend/e2e/tunnel/probe/reconcile.go:62-91 | the collected reasons of both snapshots and of empty ledgers, normalised; none exactly when both snapshots are complete, without reasons and non-empty |
| ProbeVerdict.FirstOccurrencesInOrder | backend/e2e/tunnel/probe/validate.go:205-221 | the kept reasons are all that occur, once each, in the order in which they first occur |
| ProbeReport.BuildReport | backend/e2e/tunnel/probe/report.go:37-65 | the report passes exactly when the ledgers are settled, every fault is marked and no marker is stray, cleanup is complete and the derived run meets the contract; a pass implies the one-to-one correspondence and that every mutating request was dispatched and applied exactly once |
| ProbeReport.DemandedIsExactlyOnce | backend/e2e/tunnel/probe/report.go:37-65 | what is demanded implies, for every mutating record, exactly one successful single-attempt application |
| ProbeReport.SafeObservationAppliedOnce | backend/e2e/tunnel/probe/report.go:78-121 | a settled mutating record whose derived observation is safe was applied exactly once |
| ProbeReport.BuildSpecRun | backend/e2e/tunnel/probe/report.go:67-139 | the derived run: one observation per client record, plan counts per class, fault events and evidence windows |
| ProbeReport.AppliedMutationCount | backend/e2e/tunnel/probe/report.go:163-171 | the number of successful mutating internal records |
| ProbeReport.SpecFaultEvents | backend/e2e/tunnel/probe/report.go:173-258 | the fault events of the markers; no violation exactly when every fault is marked soundly and no marker is stray |
| ProbeReport.ReconciliationViolations | backend/e2e/tunnel/probe/report.go:260-282 | no violation exactly when nothing is reported, client-stage reorders aside |
| ProbeJournal.JournalLog.Schedule | backend/e2e/tunnel/probe/journal.go:44-77 | the new journal is the specified function of the old one: capacity, clock and duplicate refusals leave a reason |
| ProbeJournal.JournalLog.Start | backend/e2e/tunnel/probe/journal.go:79-103 | the same for starting a request: a known record is marked dispatched with its deadline, whatever state it is in; an unknown one leaves a reason |
| ProbeJournal.JournalLog.Finish | backend/e2e/tunnel/probe/journal.go:105-149 | the same for finishing: only an unfinished record finishes, and its completion number is its event's |
| ProbeJournal.JournalLog.AppendEvent | backend/e2e/tunnel/probe/journal.go:211-226 | an event gets the next number and the current offset, or the journal a reason |
| ProbeJournal.JournalLog.ReadOffset | backend/e2e/tunnel/probe/journal.go:228-237 | a clock that goes backwards leaves a reason and the old offset |
| ProbeJournal.JournalLog.MarkIncomplete | backend/e2e/tunnel/probe/journal.go:246-253 | a reason is added once and never removed |
| ProbeJournal.JournalLog.TakeSnapshot | backend/e2e/tunnel/probe/journal.go:255-285 | the snapshot is complete exactly when there is no reason and every record is finished; records keep their order |
| JournalFacts.CompleteSnapshot | backend/e2e/tunnel/probe/journal.go:255-285 | a snapshot is complete exactly without reasons, non-empty, with a clock that did not go back and all records finished; it lists every record in scheduling order |
| ProbeRunner.NormalizeIsNormal | backend/e2e/tunnel/probe/runner.go:405-422 | every answer, after normalising, has a known outcome and admissible metadata |
| RunnerTheorems.ExecuteInv | backend/e2e/tunnel/probe/runner.go:281-421 | every interleaving of scheduling, backpressure, start, finish, cancel, panic, marker and steady-look steps keeps the runner's invariant |
| RunnerTheorems.RunYieldsValidLedger | backend/e2e/tunnel/probe/runner.go:281-421 | for every interleaving, if the invoker leaves backpressure to the queue and names the source of a success, a complete snapshot is a valid client ledger with distinct identifiers, sequences and completion numbers, and as many scheduled as finished events as records |
| RunnerTheorems.RunYieldsExactValidity | backend/e2e/tunnel/probe/reconcile.go:343-387 | for every interleaving and any invoker, a record of a complete snapshot is refused exactly when its answer is a success without a source or an invoker's own backpressure; event numbers are 1..n with non-decreasing offsets |
| RunnerTheorems.ContractNeeded | backend/e2e/tunnel/probe/runner.go:405-422 | for every answer outside the contract that survives normalising, a run whose complete snapshot holds a record that the ledger check refuses |
| RunnerTheorems.BothBreaches | backend/e2e/tunnel/probe/runner.go:405-422 | both kinds of breach occur: a success that names no source, and a backpressure that the invoker itself reports |
| RunnerStarts.StartExact | backend/e2e/tunnel/probe/journal.go:79-103 | start succeeds exactly for a known record, a clock that does not go back and a log with room; it does not look at the record's state |
| RunnerStarts.StartsAgain | backend/e2e/tunnel/probe/journal.go:79-103 | a journal by itself starts a dispatched and finished record once more |
| RunnerStarts.StartsOnlyFresh | backend/e2e/tunnel/probe/runner.go:356-373 | in every reachable runner state, with or without reasons, the start step meets an undispatched and unfinished record |
| RunnerTheorems.ReachableLinks | backend/e2e/tunnel/probe/journal.go:105-149 | in every reachable journal without a reason, finished records and finish events refer to each other |
| ProbeSteady.Steady | backend/e2e/tunnel/probe/journal.go:151-195 | refused exactly when a reason exists; otherwise each class's streak is the length of its longest all-success suffix of the log |
| ProbeSteady.SortRecoversLog | backend/e2e/tunnel/probe/journal.go:158-166 | sorting the finished records by completion number recovers the order of the log |
| ProbeSteady.StreakIsSuffix | backend/e2e/tunnel/probe/journal.go:168-184 | the counter that resets on a failure is the length of the longest all-success suffix |
| Failover.OneWriter | infra/files-dc-e2e/run.py:23-142 | in every reachable state of any sequence of faults and restores, with controllers that give up between any two steps and machines, servers and promotions that act at any time, at most one data centre is writable |
| Failover.StepInv | infra/files-dc-e2e/run.py:30-142 | every single step keeps the invariant: at most one site that could become writable by itself, and the controller's memory agrees with the fence |
| Failover.FenceHolds | infra/files-dc-e2e/run.py:46-58 | a fenced site without a server stays so under every step until its rejoin lifts the fence |
| Failover.DataKept | infra/files-dc-e2e/run.py:102-117 | the primary's directory is only ever removed while the other site holds the promoted one, so primary data is never lost |
| Failover.PotentialExact | infra/files-dc-e2e/run.py:23-28 | the invariant's notion is exact: a site can become writable without the controller if and only if it is counted as potential |
| FailoverProgress.FaultMoves | infra/files-dc-e2e/run.py:30-76 | an undisturbed fault of a primary, fenced before or not, ends with the peer writable and recorded as primary, the old one stopped behind its fence |
| FailoverProgress.RestoreRebuilds | infra/files-dc-e2e/run.py:78-142 | an undisturbed restore rebuilds the old primary as the standby of the new one: the healthy state with swapped roles |
| FailoverHealing.HealsExactly | infra/files-dc-e2e/run.py:30-142 | a reachable idle state can return to health by some sequence of controller and environment steps if and only if both database pods exist and no fenced site without a server was forgotten by its controller |
| FailoverHealing.LostForGood | infra/files-dc-e2e/run.py:226-233 | a site that only a rejoin could start, forgotten by the controller, keeps the pair from ever being healthy again |
| FailoverHealing.QuitLoses | infra/files-dc-e2e/run.py:46-61 | giving up after the fenced primary was stopped leads to such a state |
| FailoverHealing.EitherStep | infra/files-dc-e2e/run.py:30-142 | every step keeps the pair of sites either in one of the shapes of a transition or lost |
| TestClock.AdvanceTwice | backend/platform/testkit/clock.go:116-155 | advancing by a and then by b with no receive in between is advancing by a+b: timers, slots and every next tick |
| TestClock.AdvanceInPieces | backend/platform/testkit/clock.go:116-155 | however a span is cut into advances, the clock ends in the same state |
| TestClock.LeastIsLeast | backend/platform/testkit/clock.go:151-153 | no instant in the ticker's phase lies strictly between now and its next tick |
| TestClock.NextTickLeast | backend/platform/testkit/clock.go:151-153 | the remainder formula gives the least instant after now in the original phase |
| TestClock.Clock.Advance | backend/platform/testkit/clock.go:116-155 | the new state is the advanced old one in any traversal order; a timer or ticker stays registered exactly when it is active, every ticker keeps its anchor, and every active one is due at its least coming tick |
| TestClock.Clock.NewTimer | backend/platform/testkit/clock.go:69-86 | a fresh timer is added, active and registered exactly when the clock is not stopped |
| TestClock.Clock.NewTicker | backend/platform/testkit/clock.go:90-112 | the same for a ticker, whose phase starts now |
| TestClock.Timer.Stop | backend/platform/testkit/clock.go:159-169 | only this timer changes: inactive and unregistered; the result is whether it was active |
| TestClock.Timer.Reset | backend/platform/testkit/clock.go:173-187 | the slot is drained and the timer due after the duration, active unless the clock is stopped; nothing else changes |
| TestClock.Ticker.Stop | backend/platform/testkit/clock.go:191-198 | only this ticker changes: inactive and unregistered, its slot kept |
| TestClock.Ticker.Reset | backend/platform/testkit/clock.go:202-218 | the slot is drained and the phase restarts now with the new interval; nothing else changes |
| TestClock.Clock.StopAll | backend/platform/testkit/clock.go:220-233 | every timer and ticker becomes inactive and unregistered and the clock is done; slots and anchors are kept |
| Partition.PartitionRules | backend/platform/testkit/networkchaos/docker.go:451-481 | exactly the two directions of every prefix of every peer, two rules per occurrence |
| Partition.Driver.Apply | backend/platform/testkit/networkchaos/docker.go:385-418 | a prefix of the rules is inserted, all of them exactly on success; anything is inserted only if every rule was absent; with working commands success is exactly absence; a restore is returned exactly when something may be undone |
| Partition.Driver.Restore | backend/platform/testkit/networkchaos/docker.go:420-449 | without an error every rule was deleted once from last to first; with errors the other lines are still untouched and no copy is added |
| Partition.RestoreUndoesApply | backend/platform/testkit/networkchaos/docker.go:385-449 | applying any prefix of the rules to chains that hold none of them and restoring gives exactly the old chains, also when peers share a prefix |
| Partition.RestoreExact | backend/platform/testkit/networkchaos/docker.go:420-449 | a restore leaves exactly the foreign lines in their order if and only if no chain holds more copies of a rule than the restore deletes |
| Partition.RestoreTwice | backend/platform/testkit/networkchaos/docker.go:420-449 | a second restore changes nothing if and only if the first covered every copy |
| Partition.CopiesSurvive | backend/platform/testkit/networkchaos/docker.go:420-449 | chains with a second copy of an applied rule: the restore leaves one, and the next restore still deletes |
| Partition.ForeignSurvives | backend/platform/testkit/networkchaos/docker.go:385-449 | whatever others did in between short of adding copies, restoring removes our lines and keeps theirs in order |
| Partition.RetryCompletes | backend/platform/testkit/networkchaos/docker.go:420-449 | after a restore in which commands failed, a complete one ends where a single complete one would have |
| Partition.PartitionBlocks | backend/platform/testkit/networkchaos/docker.go:401-417 | after a complete apply each rule stands before every line that was there |
| ScenarioTheorems.DeletesOnlyAfterRecovery | backend/e2e/tunnel/podchaos/scenario.go:71-161 | for any answers, the log before a deletion is exactly the complete successful logs of all earlier faults and the good opening of this one |
| ScenarioTheorems.StepOkExact | backend/e2e/tunnel/podchaos/scenario.go:88-161 | a step succeeds exactly when its log is the complete one: steady, good baseline, start marker, deletion of that pod, good recovery, steady, passed marker, collected |
| ScenarioTheorems.RunOkExact | backend/e2e/tunnel/podchaos/scenario.go:71-86 | a run succeeds exactly when its log is the complete logs of all faults in order |
| ScenarioTheorems.RunCounts | backend/e2e/tunnel/podchaos/scenario.go:88-161 | per fault: one end marker exactly when the start marker was written, one collection exactly when the step was begun |
| ScenarioTheorems.AcceptedRunCounts | backend/e2e/tunnel/podchaos/scenario.go:71-161 | the same for the sixteen faults of any accepted execution |
| ScenarioTheorems.EndInStep | backend/e2e/tunnel/podchaos/scenario.go:143-160 | the end marker follows the written start marker and the deletion, says passed exactly on recovery, and only the collection follows it |
| FaultScenario.Scenario.Run | backend/e2e/tunnel/podchaos/scenario.go:71-86 | a refused execution does nothing; otherwise the log grows by the run of its faults up to the first failure, and success is success of all |
| FaultScenario.Scenario.RunStep | backend/e2e/tunnel/podchaos/scenario.go:88-161 | the log grows by exactly the step's events for the answers given, and the result is whether the step succeeded |
| FaultScenario.Scenario.DeleteAndRecover | backend/e2e/tunnel/podchaos/scenario.go:163-222 | the outage's events and diagnostics; success exactly on deletion, a good recovery and a steady probe |
| FaultScenario.ValidatePodSet | backend/e2e/tunnel/podchaos/scenario.go:428-466 | accepts exactly inventories of the desired size, of one deployment, without repeated names or uids, holding the selected pod |
| FaultPlans.ValidateExecution | backend/e2e/tunnel/podchaos/scenario.go:284-326 | accepts exactly the executions with a good run ID, two differently named plans of eight distinct valid steps, label fault IDs, and the second reversing the first |
| FaultPlans.ValidatePlan | backend/e2e/tunnel/podchaos/scenario.go:340-361 | accepts exactly eight pairwise distinct valid steps |
| FaultPlans.IsReverseOrder | backend/e2e/tunnel/podchaos/scenario.go:328-338 | true exactly for the mirrored sequence |
| FaultPlans.IsDNSLabel | backend/e2e/tunnel/podchaos/scenario.go:503-517 | true exactly for 1 to 63 lower-case letters, digits and inner hyphens |
| FaultPlans.Faults | backend/e2e/tunnel/podchaos/types.go:67-83 | succeeds exactly on accepted executions and lists the faults of both plans in order |
| FaultPlans.EachStepTwice | backend/e2e/tunnel/podchaos/types.go:67-83 | of the sixteen faults every DC/component/role combination stands at one position, its mirror image, and nowhere else |
| FaultPlans.DistinctIDs | backend/e2e/tunnel/podchaos/scenario.go:492-501 | the sixteen fault IDs are pairwise distinct, whatever the plans are called |
| FaultPlans.FaultIDInjective | backend/e2e/tunnel/podchaos/scenario.go:492-501 | a fault ID determines plan name, position and step, for all plan names |
| FaultPlans.FaultIDLabel | backend/e2e/tunnel/podchaos/scenario.go:312-320 | for a valid step and plan name the label check of the fault ID only refuses for length |
| FaultPlans.OrderedSteps | backend/e2e/tunnel/podchaos/types.go:130-144 | the nested loops list every combination once, in loop order |
| FaultPlans.DefaultExecution | backend/e2e/tunnel/podchaos/types.go:106-128 | the built-in execution is accepted exactly for acceptable run IDs |
| FrameScanner.ValidateEncodedFrame | backend/api/tunnel/v1/decode.go:89-132 | terminates on every byte string; accepts exactly the strings within the limit that are one header record and one payload record in either order; empty and too large are reported exactly, other refusals as the first bad record decides |
| FrameScanner.ScanExact | backend/api/tunnel/v1/decode.go:97-131 | the record-by-record scan accepts exactly the two-record frames |
| FrameScanner.EncodedAccepted | backend/api/tunnel/v1/decode.go:89-132 | every encoded header and payload within the limit is accepted in either order |
| FrameScanner.SplitUnique | backend/api/tunnel/v1/decode.go:97-131 | a frame splits into its two records in one way only |
| WireFormat.VarintRoundTrip | backend/api/tunnel/v1/decode.go:101-107 | decoding an encoded number gives it and its length back, whatever follows |
| ServiceSelection.Select | infra/dev/local.py:204-225 | unknown targets are reported exactly; otherwise the selection is exactly the services needed from the seeds, and it fails exactly when a needed service is missing from the model |
| ServiceSelection.Close | infra/dev/local.py:213-225 | the worklist terminates and gives the same set in whatever order it is popped |
| ServiceSelection.NeededIsLeastClosed | infra/dev/local.py:213-225 | a set is the needed names if and only if it is the least set that contains the seeds and is closed under declared and bootstrap dependencies |

## Left out

- Codecs, artifact files, text reports, JSON and YAML reading, and all message texts: library plumbing; violations are kept by code only, and the check names of classes and recoveries are constants.
- ValidateScenario's list of problems: validity is one predicate, because the list only adds one branch per field.
- Time: saturating `time.Time` arithmetic, time zones and overflow of offsets are not modelled; instants and offsets are unbounded integers. `Evaluate` and `BuildReport` assume fewer requests than a slice can hold.
- Counters: 64-bit counts in the evaluator are bounded explicitly; the 32-bit applied count of a request and the 64-bit sequence counters do not wrap in the model.
- Runner: the model allows every interleaving of the queue, workers and markers, including ones that the fixed pool sizes rule out; the lifecycle methods `Run` and `WaitSteady` appear as the steps they make on the journal, without their signalling and waits.
- Steady: its precondition, that records and finish events refer to each other while there is no reason, is the reachable-state fact proved by `ReachableLinks`.
- Reconcile: the library sort is taken to be some sort by the same comparison, so duplicate, late and reordered entries that compare equal may come in another order; the lists are described up to that.
- Journal: the mutex and the steady signal are not modelled; each method is one atomic step on the object.
- Failover: modelled as a state machine over values, so update in place of the controller object is not captured; a base backup is atomic, two controllers never run at once, and Redis, KMS, routing, the local read replica and the application restarts, which cannot change who is writable, are left out.
- Clock: receiving from a channel is left to the test code; the laws are about the states between receives.
- Firewall: a failed command is assumed to have no effect, and exit code 1 of a check to mean that the rule is absent; the degradation fault (`tc`), container inspection and topology drivers are left out.
- Pod scenario: timeouts and cancellation appear only as failed calls; the Kubernetes implementation of the controller and the configuration bounds are left out.
- FaultIDInjective: positions below 99, where the two-digit number has two digits; plans have eight steps.
- Frame decoding after the scan: protobuf unmarshalling, unknown-field rejection and the field-by-field validators, each settled by one branch.
- WireFormat: the wire-format functions follow the Protocol Buffers encoding as implemented by the Go library, which is not part of this model; its distinct error codes are one failure.
- Service selection: starting, building and port checks around it.
- Retry backoff, TLS, certificates, sessions, mail, telemetry, connection pools, the frontend and the remaining scripts.
