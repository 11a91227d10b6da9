# A verified model of the factory controller and the specification compiler

The factory is a controller that plans a milestone, hands work packages to coding agents, reviews and
merges their pull requests, and moves on to the next milestone, with everything it must remember in files
that survive its own crashes. Beside it stands a compiler that turns a specification into task contracts.
This project models the parts of both where state, restart and search meet, and proves what they keep:

| File | What it is about |
|---|---|
| `PackageController.dfy` | one work package's record through the controller's ticks: reconciling, claiming and triggering reviews, judging them, CI and review corrections, recovery epochs, merging; as a specification and as a class |
| `PackageRuns.dfy` | what every run of that controller keeps, wherever it crashes |
| `PackageMessages.dfy` | what the counters of a package count, recounted from the log, and when exactly a look sends which message or escalates |
| `PackageLimits.dfy` | when exactly a look triggers or merges, and the runs that show what is not promised |
| `PackageBudgets.dfy` | which configurations bound the review corrections of a package, and runs that renew them without end for the others |
| `MilestoneTransition.dfy` | the stages between a converged milestone and the next: two planners, validation, archive, activation |
| `ConvergenceVerdicts.dfy` | what the convergence verdict decides, in one tick and over all runs |
| `SchemaChecker.dfy` | the recursive JSON Schema checker, its references and its termination |
| `FindingLedger.dfy` | the blocker ledger of a review, frozen and reconciled round after round |
| `PlanDelta.dfy` | loading a milestone, and merging a proposed plan into the running one |
| `Graph.dfy` | dependency graphs, the two cycle searches, readiness |
| `TaskPartition.dfy` | requirements to tasks, acceptance criteria to owners, the task graph |
| `TaskIdentity.dfy` | when exactly tasks share an id, and what the task contract schema makes of it |
| `SpecificationCompiler.dfy` | the whole way from a specification to its filled tasks |
| `EventHistory.dfy` | the event log read backward in blocks |
| `ProviderChoice.dfy` | the weighted choice of an implementation provider |
| `Reducer.dfy` | the pure state machine of the second controller generation |
| `CommandExecutor.dfy` | the executor that stores a command before running it and a receipt after |
| `GapIdentity.dfy`, `ReviewContext.dfy` | canonical keys and digests |
| `Text.dfy` | splitting, joining and searching |

**Crashes.** In `PackageController` and `MilestoneTransition` everything durable or visible outside is an
*effect*: a save, a trigger, a planner call, a merge. A tick is specified as the list of effects it makes
when nothing goes wrong (`TickEffects`, `Tick`), and the class `Controller` in each module updates its
record or metadata in place, branch by branch as the program does, and is proved to make exactly those
effects up to the point where it dies (`RunTick`). An exception that leaves the tick is a death at that
point. The run theorems then hold for every sequence of ticks, with any input, each dying anywhere. A save in
the middle of a package's handling writes this one record into the state as it is on disk, so other
packages' records do not change, and one record is followed.

**Left abstract.** Text extraction, tokenising, keyword tests, regular expressions, JSON parsing and
SHA-256 are function parameters; a digest is assumed injective only where a statement says so. GitHub, the
agent orchestrator, the planners and clocks are inputs. Times are integers in microseconds, scores and JSON
floats are exact rationals or reals, strings are sequences of characters without Unicode rules.

**Proofs.** Automatic induction is switched off for every lemma, so that each proof stands on its own text.

**Where the code and its own words differ,** the model follows the code, and the exact condition is proved:

- The branch for an interrupted fallback planner (`factory/controller/controller.py:2457`) is never reached, because line
  2437 also takes that stage; a fallback claim on disk does not hold the call back. When the fallback is called
  is `MilestoneTransition.FallbackIsCalledExactlyWhenNeeded`, a run that calls it twice is
  `MilestoneTransition.TwoTicksCallTheFallbackTwice`.
- A review dispatch given up after two triggers does not stay given up: reconciling an open pull request rewrites
  the blocked status, and the key is claimed again. So is a key whose finished review is unproven or unreadable. When a
  look triggers is `PackageLimits.LookTriggersExactlyWhen`, when it does after a give-up is
  `PackageLimits.GivenUpDispatchIsTriggeredAgain`; a run that starts fresh and triggers one key without end is
  `PackageLimits.OneKeyIsTriggeredForever`. What holds is two triggers for each saved claim
  (`PackageRuns.KeyIsTriggeredTwicePerClaim`).
- A pull request whose head was rewritten is to be blocked, and is not: the same tick may merge it
  (`PackageLimits.RewrittenHeadIsMerged`).
- A worker is to be told of one conflict once. Where a review is required it is told at every look, since each
  acceptance clears what was last said, and each look spends the budget
  (`PackageMessages.ConflictIsToldAgainExactlyWhen`).
- The budget of review corrections is renewed with every legacy block that is lifted, which has no bound of its own.
  So the corrections of a package are unbounded exactly when corrections and recovery epochs are configured and a
  block can name an old replan, as it can once a replan cycle is configured
  (`PackageBudgets.CorrectionsAreUnboundedExactlyWhen`); the values of `factory/config.json` are of this kind. The
  other configurations keep the promised bound (`PackageBudgets.CorrectionsAreBounded`).
- The reducer's published transition table is left in one case (`Reducer.TableHoldsExactly`). A BASELINE PASS makes an
  item ready to merge, but there only a VERIFY review lets it merge, and no step asks for one
  (`Reducer.BaselinePassWaitsForVerify`).
- A merged plan is checked neither for cycles nor for unknown dependencies, which the loader would refuse
  (`factory/controller/models.py:197-202`). Where they come from is `PlanDelta.EveryCycleIsCarriedOver` and
  `PlanDelta.EveryUnknownIsCarriedOver`, and which inputs leave none unknown is `PlanDelta.DependenciesKnownExactlyWhen`.
- On the keywords it knows, the schema checker departs from JSON Schema 2020-12 in seven ways. `enum` and `const` take
  `true` for 1 (`SchemaChecker.EqualityConfusesOnlyTruths`), `uniqueItems` takes 1 and 1.0 for different items
  (`SchemaChecker.UniqueItemsIsRightExactly`), `integer` refuses 1.0 (`SchemaChecker.TypeIsRightExactly`), `$ref`
  overrides its siblings, the reference `#` to the root is refused, percent-encoded references are not decoded, and
  `items: false` forbids nothing. Where none of them can matter the verdicts are the standard's
  (`SchemaChecker.CheckerMeetsTheStandard`).
- Task ids leave out the owner, so two tasks of one group may share one. When they do, for every specification, is
  `TaskIdentity.DistinctIdsExactlyWhen`. Tasks of different groups never share one, because the contract schema allows
  no hyphen in a group (`TaskIdentity.PlainGroupsAreTold`).

## Model

| member | source | states |
|---|---|---|
| `PackageRuns.TriggersAreBounded` | factory/controller/controller.py:1463-1808 | at every moment of every run with crashes, reviews triggered so far are at most two per review attempt counted on disk |
| `PackageRuns.EveryTriggerIsClaimed` | factory/controller/controller.py:1695-1808 | each trigger directly follows the save of a claim for its key; it is a new attempt, or a retry at least 30 seconds after the attempt last recorded on disk |
| `PackageRuns.BudgetsHold` | factory/controller/controller.py:1924-1936 | epochs, replan cycles, in-epoch CI and review corrections, infrastructure and integration retries never pass their limits; lifetime review and CI corrections are at most the limit times one plus epochs plus legacy reconciliations; what each of these counters counts is `PackageMessages.CountersAreExact` |
| `PackageRuns.RunIsSound` | factory/controller/controller.py:560-700 | every prefix of every run's log keeps the trigger accounting and all budgets at once |
| `PackageRuns.ReconcileIsGood` | factory/controller/controller.py:323-556 | loading, the legacy reset, the status rules and the save keep the claim on disk and all budgets, one more reset counted when a legacy block is lifted |
| `PackageRuns.EscalateFits` | factory/controller/controller.py:1924-2177 | escalation, in its recovery and its milestone form, spends an epoch and a cycle only within the limits and never disturbs a claim |
| `PackageRuns.CiNotPassedFits` | factory/controller/controller.py:1147-1300 | handling a red or waiting CI keeps every budget and the claim |
| `PackageRuns.ReviewRejectedFits` | factory/controller/controller.py:1610-1685 | a rejected review spends a correction only within the epoch's limit, else waits or escalates |
| `PackageRuns.NoRunFits` | factory/controller/controller.py:1687-1808 | without a review run: waiting out the grace period, giving up after two triggers, or a claim that may be saved and triggered |
| `PackageRuns.FinishedRunFits` | factory/controller/controller.py:1423-1686 | an unproven or unreadable review is claimed anew, a proven one is processed and its claim closed |
| `PackageRuns.HandlePrIsGood` | factory/controller/controller.py:1136-1877 | one whole look at a pull request, with its saves, triggers and merge, keeps log, disk and memory in step |
| `PackageRuns.EveryMergeIsApproved` | factory/controller/controller.py:1302-1876 | every merge in every run's log was made by the look standing at that very point of the log: it saw the merged head open and mergeable with CI passed and, where a review is required, a finished, proven review of that head which, while a baseline is frozen, closes every frozen blocker and reports no new one, and otherwise approves and only suggests; the record's ledger is left without an OPEN or REGRESSION blocker |
| `PackageRuns.KeyIsTriggeredTwicePerClaim` | factory/controller/controller.py:1695-1808 | in every run the triggers of a key are at most two for each claim saved for it |
| `PackageRuns.JudgedExactlyWhen` | factory/controller/ao.py:306-422 | the ledger accepts a run exactly on those conditions, said of record and run alone |
| `PackageMessages.CountersAreExact` | factory/controller/controller.py:1147-1877 | at every moment of every run, each of seven counters on disk (review and CI corrections, over life and in the epoch, reruns, merge updates, epochs) is the number of such messages or epochs in the log since its last new start, without those that died unsaved |
| `PackageMessages.MessagesAreConserved` | factory/controller/controller.py:1147-1877 | all that was ever sent, asked for or begun is counted on disk, not yet saved, lost with a tick that died before its save, or dropped by a saved new start: a requeue, an epoch or a legacy reconciliation |
| `PackageMessages.CorrectionsAreConserved` | factory/controller/controller.py:1611-1657 | at every moment, the review corrections ever sent are exactly those counted on disk, those since the last save, and those of ticks that died before their next save |
| `PackageMessages.ReviewedCounts` | factory/controller/controller.py:1302-1808 | a look at the review moves each counter exactly as what it sends tells |
| `PackageMessages.LookAsksForUpdateExactlyWhen` | factory/controller/controller.py:1816-1859 | a look asks for a merge update exactly when it comes to the merge of an unprotected conflicting pull request with a session, the conflict counts as new, and the budget is not used up |
| `PackageMessages.ConflictAtLimitEscalates` | factory/controller/controller.py:1819-1829 | with the budget used up, a new conflict leaves the package blocked or in the next epoch, the latter exactly when recovery is left and the plan is an answer that does not repeat itself |
| `PackageMessages.ConflictIsToldAgainExactlyWhen` | factory/controller/controller.py:1606-1609 | the next look at an unchanged conflict asks again exactly when a review is required and accepted again and budget is left |
| `PackageMessages.LookSendsCiFixExactlyWhen` | factory/controller/controller.py:1216-1277 | a counted CI correction exactly for a new, classified failure at a head without one while rounds are left; an uncounted one for a head that has one |
| `PackageMessages.FailureAtLimitEscalates` | factory/controller/controller.py:1239-1262 | with the rounds used up, such a failure leaves the package blocked or in the next epoch |
| `PackageMessages.LookAsksForRerunExactlyWhen` | factory/controller/controller.py:1158-1214 | a rerun exactly for an infrastructure failure of a known run not just rerun, with retries left and the call going through; without retries the package blocks |
| `PackageMessages.LookCorrectsExactlyWhen` | factory/controller/controller.py:1610-1657 | a review correction exactly for a proven, readable rejection that was not heard while cycles are left |
| `PackageMessages.RejectionIsProcessed` | factory/controller/controller.py:1610-1685 | what such a rejection makes of the record: waiting with the correction noted and authorized, waiting for one authorized before, or a terminal rejection that blocks or begins an epoch |
| `PackageMessages.LedgerAfterReview` | factory/controller/controller.py:1554-1597 | a readable proven review leaves the judged findings and freezes itself as the baseline unless one is frozen; an unreadable one leaves the ledger and is asked for again |
| `PackageMessages.EscalatesExactlyWhen` | factory/controller/controller.py:1923-2108 | escalating on a pull request begins an epoch, with its counters and rejections cleared, exactly when epochs and cycles are left and the answer is a plan that does not repeat itself; otherwise it blocks |
| `PackageMessages.GivingUpBlocks` | factory/controller/controller.py:2110-2177 | giving up without a pull request blocks, begins no epoch, and spends a cycle unless recovery is exhausted or a replan was attempted |
| `PackageLimits.LookTriggersExactlyWhen` | factory/controller/controller.py:1302-1808 | a look triggers a review exactly when the record is unblocked with a session, CI passed and a review is required, and either there is no run and the key may be claimed or its claim is past the grace period with a trigger left, or a finished run is unreadable, or unproven and neither under way nor an approval that names its baseline |
| `PackageLimits.TickTriggersExactlyWhen` | factory/controller/controller.py:560-700 | the same for a whole tick, on the record that reconciling gives |
| `PackageLimits.GivenUpDispatchIsTriggeredAgain` | factory/controller/controller.py:486-492 | a given-up dispatch whose pull request is open without a review run is claimed and triggered again exactly when a session is there, CI passed, a review is required and none was terminally rejected at this head |
| `PackageLimits.NewPackageIsReadyExactlyWhen` | factory/controller/controller.py:530-541 | a package with no work of its own is READY exactly with its issue and all dependencies done, else PLANNED, and a block is left alone |
| `PackageLimits.ExistingWorkDecides` | factory/controller/controller.py:455-529 | ambiguous, merged, running, terminated and orphaned work each decide the status before the issue does |
| `PackageLimits.OpenPrDecides` | factory/controller/controller.py:473-508 | an open pull request is in REVIEW exactly if its dispatch was triggered for its head; for another head the dispatch is stale and the verdict forgotten |
| `PackageLimits.OneKeyIsTriggeredForever` | factory/controller/controller.py:1695-1778 | from a fresh record, for every head, key, digest and session, n ticks half a minute apart trigger the key n - n/3 times |
| `PackageLimits.ThreeTriggersOfOneKey` | factory/controller/controller.py:1695-1778 | four such ticks trigger it three times |
| `PackageLimits.LookMergesExactlyWhen` | factory/controller/controller.py:1811-1876 | a look merges exactly when it approves the head |
| `PackageLimits.TickMergesExactlyWhen` | factory/controller/controller.py:560-700 | the same for a whole tick with one look, on the record that reconciling gives |
| `PackageLimits.RewrittenHeadIsMerged` | factory/controller/controller.py:2703-2723 | a rewritten head is merged in the tick that finds it exactly for at most one session, passed CI, no protected paths, a mergeable state and, where a review is required, a session and a finished, proven review that the ledger on disk accepts |
| `PackageBudgets.CorrectionsAreUnboundedExactlyWhen` | factory/controller/controller.py:406-433 | however contexts are made, some plausible run counts n review corrections for every n exactly when maxReviewCycles and maxEpochs are at least one and either a replan cycle is configured or some quoted text names an old replan |
| `PackageBudgets.CorrectionsAreRenewed` | factory/controller/controller.py:406-433 | for every n and every such configuration, whatever maxCiRounds is, a run without crashes that asks each review for the context its record and head call for, reads only reviews it triggered, and is still in its first epoch has sent and counted n corrections |
| `PackageBudgets.CorrectionsAreBounded` | factory/controller/controller.py:1611-1657 | every other configuration bounds the corrections counted in every run, wherever it crashes, by maxReviewCycles times one plus maxEpochs |
| `PackageController.Controller.RunTick` | factory/controller/controller.py:560-700 | a tick in place makes exactly the specified effects, cut where it dies, and disk is the replay of the log |
| `PackageController.Controller.HandlePullRequest` | factory/controller/controller.py:1136-1877 | the branches of the handler, in place, give the specified record and effects |
| `PackageController.Controller.SaveAndTrigger` | factory/controller/controller.py:1779-1808 | claim saved first, then the trigger, and only then the state in memory |
| `PackageController.Controller.HandleReview` | factory/controller/controller.py:1302-1808 | dropping another key's dispatch, then the run, no-run and finished-run rules |
| `PackageController.Controller.HandleProvenRun` | factory/controller/controller.py:1488-1686 | a proven review is judged by the finding ledger in place and its ledger kept in the record |
| `PackageController.Controller.HandleCi` | factory/controller/controller.py:1147-1300 | infrastructure retries, unknown failures and product corrections with their tokens |
| `PackageController.Controller.EscalateReplan` | factory/controller/controller.py:1904-2177 | exhaustion guard, recovery on the pull request, milestone replan, each block reason |
| `PackageController.Controller.RecoverOnPr` | factory/controller/controller.py:1942-2108 | failed calls, contradictions, the repeated-plan stop, else the next epoch |
| `PackageController.Controller.RejectReview` | factory/controller/controller.py:1610-1685 | correction, waiting, terminal rejection with escalation, or review |
| `PackageController.Controller.ReconcileRecord` | factory/controller/controller.py:323-556 | legacy reset, placement by what is observed, then the save |
| `PackageController.Controller.MergePr` | factory/controller/controller.py:1811-1876 | protected paths, conflicts with their budget, unmergeable states, else the merge |
| `MilestoneTransition.PlannerCallsAreBounded` | factory/controller/controller.py:2396-2463 | at every moment of every run, one entry to CONVERGED has called the primary planner at most once, and the fallback at most once more than the deaths since that left FALLBACK_CLAIMED on disk |
| `MilestoneTransition.OnlyValidPlansAreActivated` | factory/controller/controller.py:2465-2518 | a plan becomes active only if it is valid for the next roadmap id and the milestone it replaces is already archived |
| `MilestoneTransition.CallsAreClaimed` | factory/controller/controller.py:2396-2441 | a planner is called only while its claim is the stage on disk |
| `MilestoneTransition.FallbackIsCalledExactlyWhenNeeded` | factory/controller/controller.py:2436-2463 | a tick that takes up a transition calls the fallback once exactly when no validated plan is on disk and the primary planner is not due, out of budget or gives no accepted plan; else not at all |
| `MilestoneTransition.TwoTicksCallTheFallbackTwice` | factory/controller/controller.py:2436-2463 | for every pair of ticks of which the first dies right after it called the fallback, the second calls it again for the same entry |
| `MilestoneTransition.RestartFinishes` | factory/controller/controller.py:2367-2540 | from every stage CONVERGED to NEXT_VALIDATED with the old milestone still active, the next whole tick installs the plan at hand and archives the old milestone, or, when no answer passes validation, blocks and replaces nothing |
| `MilestoneTransition.RejectedTransitionStays` | factory/controller/controller.py:2193-2336 | after a death between saving TRANSITION_BLOCKED and blocking the factory, a tick at the same head changes nothing and calls no planner |
| `MilestoneTransition.ActivatedMilestoneStarts` | factory/controller/controller.py:2480-2518 | after a death between activating the next milestone and saving its metadata, the next tick saves fresh metadata for it |
| `ConvergenceVerdicts.ConvergenceIsJudgedExactlyWhen` | factory/controller/controller.py:2192-2321 | for every tick from any disk, a convergence is recorded exactly when the tick asks for the verdict, being neither blocked nor converged at this head, and the verdict says converged |
| `ConvergenceVerdicts.RecordIsSaved` | factory/controller/controller.py:2305-2321 | the record is followed by the save of an entry for the active milestone at the head of the verdict, or of the tick |
| `ConvergenceVerdicts.OtherVerdictsKeepTheMilestone` | factory/controller/controller.py:2192-2336 | any other verdict calls no planner and keeps milestone, archive and planner output; the stage stays, or is none after a moved head; gaps and a replan clear the flag, an unusable verdict blocks |
| `ConvergenceVerdicts.NoNextMilestone` | factory/controller/controller.py:2367-2390 | a milestone off the roadmap blocks the factory and the last one stays, both without a planner |
| `ConvergenceVerdicts.EveryConvergenceIsJudged` | factory/controller/controller.py:2300-2321 | every convergence in every run's log was recorded by a tick that asked and was told so |
| `ConvergenceVerdicts.EveryActivationWasJudged` | factory/controller/controller.py:2465-2518 | before every activation stands the record of a convergence of the milestone it replaces, made by a tick whose verdict said so |
| `MilestoneTransition.LegalKeepsInv` | factory/controller/models.py:73-81 | every effect the stage protocol permits keeps the call counts within bounds and the stored plan valid |
| `MilestoneTransition.RunObeys` | factory/controller/controller.py:2193-2518 | every effect of every run is one the protocol permits at its moment |
| `MilestoneTransition.TickObeys` | factory/controller/controller.py:2193-2518 | the same for one tick from any reachable state, and a finished tick leaves no call unanswered |
| `MilestoneTransition.InstallObeys` | factory/controller/controller.py:2465-2518 | archive, activation and the new metadata come in that order and only for the validated plan |
| `MilestoneTransition.Controller.RunTick` | factory/controller/controller.py:560-700 | the tick in place makes exactly the specified effects, cut where it dies |
| `MilestoneTransition.Controller.Validated` | factory/controller/reasoning.py:1037-1067 | a plan passes exactly when schema, milestone checks, target id and requirement ids all hold |
| `MilestoneTransition.Controller.CallPrimary` | factory/controller/controller.py:2396-2427 | budget test, claim, call, and the save of its result |
| `MilestoneTransition.Controller.CallFallback` | factory/controller/controller.py:2436-2454 | claim, call, and the plan or the blocked transition |
| `MilestoneTransition.Controller.InstallNext` | factory/controller/controller.py:2465-2518 | archive if missing, activate, metadata of the next milestone |
| `MilestoneTransition.Controller.ConvergeIfNeeded` | factory/controller/controller.py:2193-2336 | stale evidence, block, recorded convergence or verdict in place; what the verdict decides is `ConvergenceVerdicts.OtherVerdictsKeepTheMilestone` |
| `SchemaChecker.Check` | factory/controller/reasoning.py:1522-1593 | the checker accepts exactly what the recursive meaning of its keywords, as coded, accepts, and ends on every value of a ranked document; and in a schema whose additionalProperties are false an accepted object has no member but its properties |
| `SchemaChecker.CheckerMeetsTheStandard` | factory/controller/reasoning.py:1522-1593 | that meaning is the one of JSON Schema 2020-12, which has a definition of its own for every keyword, for every value without whole numbers written as floats and without truth values that pass for an enum or const number, and every legal document whose references stand alone, begin with `#/` and hold no percent sign, and whose items are not `false` |
| `SchemaChecker.CountMatches` | factory/controller/reasoning.py:1546-1559 | counting passing options tells whether none, one or several accept |
| `SchemaChecker.CheckMembers` | factory/controller/reasoning.py:1583-1590 | every member is checked by its property schema, else forbidden, else by the additional one |
| `SchemaChecker.MemberVerdict` | factory/controller/reasoning.py:1583-1590 | a property decides by its schema; any other member decides nothing, unless additionalProperties is false or a schema |
| `SchemaChecker.RankedExactlyWithoutInPlaceCycle` | factory/controller/reasoning.py:1526-1563 | a well-formed document has a rank exactly when each cycle of references passes through properties, additionalProperties or items |
| `SchemaChecker.MeaningNeedsNoRank` | factory/controller/reasoning.py:1522-1593 | the meaning is the same for every rank and every set of schemas it is shown sound for |
| `SchemaChecker.ReferenceFindsMember` | factory/controller/reasoning.py:1526-1533 | the reference that RFC 6901 writes for a member path resolves to that member, whatever slashes and tildes its names hold |
| `SchemaChecker.UnescapeOfEscape` | factory/controller/reasoning.py:1532 | unescaping a reference token gives the member name back |
| `SchemaChecker.EqualityConfusesOnlyTruths` | factory/controller/reasoning.py:1575-1578 | the equality of enum and const is the standard's exactly where truth values stand in the same places |
| `SchemaChecker.UniqueItemsIsRightExactly` | factory/controller/reasoning.py:1540-1543 | uniqueItems decides as the standard exactly when any two items that are equal by the standard write floats in the same places |
| `SchemaChecker.TextSeparatesOnlyNumbers` | factory/controller/reasoning.py:1541 | two items have one text exactly when the standard holds them equal and floats stand in the same places |
| `SchemaChecker.TypeIsRightExactly` | factory/controller/reasoning.py:1562-1574 | type decides as the standard except for a whole number written as a float where integer is named and number is not |
| `SchemaChecker.EachKeywordDeparts` | factory/controller/reasoning.py:1528-1531 | values and references on which equality, uniqueness, the integer type, the reference `#` and a percent-encoded reference are read differently from the standard |
| `SchemaChecker.PlainReferencesResolveAlike` | factory/controller/reasoning.py:1528-1531 | a reference that begins with `#/` and holds no percent sign finds what the standard says |
| `SchemaChecker.HasDuplicates` | factory/controller/reasoning.py:1540-1543 | duplicates are reported exactly when two items are the same |
| `FindingLedger.RoundsKeep` | factory/controller/findings.py:484-593 | over any closure rounds findings keep order, fingerprint, blocking flag and all identity fields, fingerprints stay distinct, added blockers are regressions or critical non-follow-ups |
| `FindingLedger.RoundKeeps` | factory/controller/findings.py:484-593 | the same for one round, after which no candidate of the review is unknown |
| `FindingLedger.SameReviewAddsNothing` | factory/controller/findings.py:526-593 | a review applied again, after any other reviews, adds no finding |
| `FindingLedger.BaselineIsSound` | factory/controller/findings.py:441-482 | a frozen ledger has distinct fingerprints, holds what the review says and nothing else, and blocks exactly on what is no mere suggestion |
| `FindingLedger.StatusAfterRound` | factory/controller/findings.py:502-525 | a frozen finding takes the status of its disposition; without one it is RESOLVED exactly if a general pass met it open or it was and is not reported again, and OPEN exactly if it is reported again or was open, and is not passed over |
| `FindingLedger.UnknownCandidateIsAdded` | factory/controller/findings.py:547-591 | a late finding that nothing matches stands in the ledger as what it is, and is an open blocker exactly if it is a regression, or critical and no mere suggestion |
| `FindingLedger.NothingOpenExactlyWhen` | factory/controller/findings.py:497-593 | a round leaves nothing open exactly when it closes every frozen blocker and every late finding that would block is known |
| `FindingLedger.AcceptedExactlyWhen` | factory/controller/ao.py:306-422 | a review is accepted exactly when no structured blocker stands and it is such a closure, or a first review that approves and only suggests |
| `FindingLedger.ScoreIsShare` | factory/controller/findings.py:340-357 | the score is the shared part of all tokens: 0 without a shared one, 1 for the same, above the threshold exactly when more than 7 of 20 are shared |
| `FindingLedger.MatchFinding` | factory/controller/findings.py:328-357 | the first exact fingerprint, else the first closest in tokens above the threshold; none exactly when nothing matches |
| `FindingLedger.ReconcileBaseline` | factory/controller/findings.py:441-482 | the loop builds the baseline ledger, its reasons name the open blockers in order |
| `FindingLedger.ReconcileClosure` | factory/controller/findings.py:484-593 | the loops build the closure ledger, its reasons name the open blockers in order; what the round does to a status is `FindingLedger.StatusAfterRound` |
| `FindingLedger.EvaluateReview` | factory/controller/ao.py:306-422 | accepted exactly when no open blocker and no structured blocker stands and approval is stated or implied; an accepted review leaves no OPEN or REGRESSION blocker |
| `FindingLedger.JudgedLedgerIsSound` | factory/controller/ao.py:306-422 | the ledger a review leaves has distinct fingerprints, holds no OPEN or REGRESSION blocker when the review is accepted, and in a closure keeps every frozen finding's identity |
| `PlanDelta.CheckMilestone` | factory/controller/models.py:190-204 | the loader's checks pass exactly for distinct ids, known dependencies and no cycle |
| `PlanDelta.InstallPlanDelta` | factory/controller/reasoning.py:1825-1915 | the loops build the placed proposals followed by the durable packages they are not about |
| `PlanDelta.MergeKeepsIdentities` | factory/controller/reasoning.py:1830-1915 | every durable id is still present, every proposal is there as itself or under the id of the package it is about |
| `PlanDelta.MergeAddsNothingElse` | factory/controller/reasoning.py:1851-1915 | no other id appears |
| `PlanDelta.PlacedOrigins` | factory/controller/reasoning.py:1857-1904 | every placed package is a proposal that nothing running is about, or the last running package of its id, or else of its gap, under its own id with every field the proposal fills and a plan epoch next after both |
| `PlanDelta.DistinctUnlessClash` | factory/controller/reasoning.py:1851-1908 | merged ids are distinct exactly when no proposal is adopted onto an id that a later proposal names |
| `PlanDelta.EveryCycleIsCarriedOver` | factory/controller/reasoning.py:1857-1921 | every cycle of a merge of a sound proposal passes through a package with borrowed dependencies, an adopted proposal or a kept durable package |
| `PlanDelta.EveryUnknownIsCarriedOver` | factory/controller/reasoning.py:1857-1921 | every unknown dependency of it is one of those packages' or names an adopted proposal by its old id |
| `PlanDelta.PlainMergeIsWellFormed` | factory/controller/models.py:190-204 | a merge with none of the three loads again |
| `PlanDelta.DependenciesKnownExactlyWhen` | factory/controller/models.py:196-199 | the merge knows all its dependencies exactly when those of the proposals that get a place, borrowed where empty, and of the kept packages are ids of targets or durable packages |
| `PlanDelta.KeptPackageDangles` | factory/controller/reasoning.py:1910-1915 | a kept durable package whose dependency is neither proposed nor durable makes the merge one the loader refuses |
| `PlanDelta.AdoptedProposalDangles` | factory/controller/reasoning.py:1882-1904 | so does a proposal that depends on an adopted one by its own id |
| `PlanDelta.MergeMayCloseACycle` | factory/controller/reasoning.py:1857-1921 | for every package and one that depends on it, a proposal that turns the dependency round and leaves the other list empty loads, and its merge is cyclic |
| `Graph.AssertAcyclic` | factory/controller/models.py:219-236 | returns normally exactly when the dependencies have no cycle, else names a node on one; ends on every closed graph |
| `Graph.AcyclicityCheck.Visit` | factory/controller/models.py:224-233 | done nodes form a dependency order, nodes being visited a walk; the unvisited nodes shrink |
| `Graph.SomePackageIsReady` | factory/controller/controller.py:534-536 | while an acyclic milestone with known dependencies has an unmerged package, some unmerged package has all its dependencies merged |
| `Graph.ScheduleCompletes` | factory/controller/controller.py:323-327 | with known dependencies and no cycle every partial schedule extends to one of the whole milestone, each package ready in its turn |
| `Graph.UnknownDependencyIsNeverReady` | factory/controller/controller.py:534-536 | a package with a dependency outside the milestone is never ready in it |
| `Graph.AcyclicMeansOrderable` | factory/controller/models.py:219-236 | no cycle exactly when some order lists dependencies first |
| `Graph.FindIssues` | tools/prd-compiler/compiler.ts:85-87 | a cycle is reported exactly when there is one, each reported path ends in one, unknown dependencies exactly for edges that leave the graph |
| `Graph.CycleReporter.Visit` | tools/architecture-verifier/verify.ts:21-22 | the path never repeats, so the search ends, and it reports in order |
| `Graph.LongWalkIsReported` | tools/prd-compiler/compiler.ts:86 | a walk too long for distinct nodes makes the search report |
| `TaskPartition.TasksPartitionTheRequirements` | tools/prd-compiler/compiler.ts:124-126 | every requirement is in exactly one task, none added, one to eight in each |
| `TaskPartition.GroupRequirements` | tools/prd-compiler/compiler.ts:124-125 | the loop groups by key in order of first appearance |
| `TaskIdentity.BucketsAreInOrder` | tools/prd-compiler/compiler.ts:122-124 | the groups stand in the order in which their keys first appear, each with exactly the requirements of its key in their order |
| `TaskPartition.PartitionAcceptanceCriteria` | tools/prd-compiler/hardening.ts:70-102 | succeeds exactly when every criterion has a participant, and then assigns each |
| `TaskPartition.PartitionNeverThrows` | tools/prd-compiler/compiler.ts:79-84 | for every specification with sound references each criterion has a participant |
| `TaskPartition.Distribute` | tools/prd-compiler/compiler.ts:145-156 | the loops give each first task of an id what it owns and a facet per mention, and nothing else, in any order of the tasks |
| `TaskPartition.EachCriterionIsHandedOutOnce` | tools/prd-compiler/compiler.ts:145-156 | a criterion of one task is on that list once and no other; one of several is on none, and each participant has exactly one facet |
| `TaskPartition.SharedIdMisplacesFacets` | tools/prd-compiler/compiler.ts:152-156 | of any two tasks of one id in a list that work on a criterion, the first gets both facets and the second is never found |
| `TaskPartition.TaskGraphIsAcyclic` | tools/prd-compiler/compiler.ts:127-138 | an acyclic group graph yields an acyclic task graph |
| `TaskPartition.DependenciesAreExactly` | tools/prd-compiler/compiler.ts:126-135 | a task depends on exactly the tasks of the groups its group depends on, all of them |
| `TaskPartition.DependOn` | tools/prd-compiler/compiler.ts:135 | the loop over the collected groups gives each of them once |
| `TaskPartition.LevelTellsTheSpread` | tools/prd-compiler/hardening.ts:70-102 | a criterion belongs to the project exactly if tasks of two groups work on it, to a task exactly if one does, and otherwise to the cluster of the group |
| `TaskPartition.SharedIdClosesACycle` | packages/shared-schemas/src/index.ts:35-38 | why ids must tell the group, which these patterns ensure: one id in two groups of an acyclic group graph would make a task that depends on itself |
| `TaskIdentity.DistinctIdsExactlyWhen` | tools/prd-compiler/compiler.ts:124-125 | for every requirement list with hyphen-free groups, all task ids are distinct exactly when no two requirements of different keys clash: one group, and families that spell alike while both are cut into numbered tasks or neither is, or of which the uncut one spells like a numbered task of the other |
| `TaskIdentity.TwoOwnersShareAnIdExactlyWhen` | tools/prd-compiler/compiler.ts:124-125 | in every such list, two keys of one group whose families spell alike share a task id exactly when both have more than eight requirements or neither has |
| `TaskIdentity.PlainGroupsAreTold` | tools/prd-compiler/compiler.ts:125-127 | for every requirement list whose tasks have hyphen-free groups, tasks of one id are in one group, whatever the families, owners and sizes |
| `TaskIdentity.ContractsKeepTheGraphAcyclic` | tools/prd-compiler/compiler.ts:125-138 | for every specification whose contracts parse, an acyclic group graph yields an acyclic task graph |
| `TaskIdentity.GroupPatternIsNeeded` | packages/shared-schemas/src/index.ts:35-38 | any two requirements whose group and family spell alike across the hyphen would make two tasks of one id and a cyclic task graph over an acyclic group graph; one of their contracts does not parse |
| `SpecificationCompiler.ParseContracts` | tools/prd-compiler/compiler.ts:134 | passes exactly when the group and id of every task match the contract patterns |
| `SpecificationCompiler.CompileTasks` | tools/prd-compiler/compiler.ts:116-156 | grouping, cutting, parsing, sorting, partition and distribution together: for sound references they succeed exactly when all contracts parse; the filled tasks hold every requirement once and their ids tell their group; with distinct task ids every criterion stands once on the list of its only task or as one facet in each of its tasks; each task depends on exactly the tasks of the groups its group depends on, without a cycle when the groups have none |
| `SpecificationCompiler.TasksListTheRequirements` | tools/prd-compiler/compiler.ts:124-139 | in whatever order the tasks are put, their requirement lists together are the specification's |
| `EventHistory.History` | factory/controller/store.py:255-289 | for every content, limit and block size the backward scan returns the last `limit` good lines of the whole file in file order |
| `EventHistory.ScanBlock` | factory/controller/store.py:270-281 | one block's lines, last to first, until the limit |
| `EventHistory.StepBack` | factory/controller/store.py:265-269 | moving back a block with the carried front line keeps the lines of the file |
| `EventHistory.ReadAfterAppend` | factory/controller/store.py:230-236 | what is read after an append, also when a crash left an unfinished line |
| `EventHistory.ReadAfterCleanAppend` | factory/controller/store.py:230-236 | a log ending at a line end loses nothing and gains the event last |
| `ProviderChoice.SelectImplementationProvider` | factory/controller/policy.py:156-240 | durable work stays, retries alternate, absence falls back, fresh standard work goes by exact weighted score |
| `ProviderChoice.FreshCounts` | factory/controller/policy.py:211-224 | the loop counts the records of each provider |
| `ProviderChoice.FirstProviderCounts` | factory/controller/policy.py:211-224 | a record counts for the provider of its first spawn for good, whatever comes later |
| `ProviderChoice.UnnotedRecordCounts` | factory/controller/policy.py:213-222 | without that note it counts for the provider last weighed, or its own exactly in its first attempt before a replan |
| `ProviderChoice.WeightedShareIsExact` | factory/controller/policy.py:208-239 | after n fresh choices agy has exactly floor((n·wa + wm)/(wa + wm)), muse the rest |
| `ProviderChoice.ShareStaysWithinOne` | factory/controller/policy.py:226-239 | the count never leaves the exact share by a whole choice |
| `Reducer.AtMostOneMerge` | factory/controller/reducer.py:154-172 | over every run at most one merge is ordered, none once merging was entered |
| `Reducer.MergeIsTheStepIntoMerging` | factory/controller/reducer.py:154-172 | a merge is emitted exactly by the step into MERGING, for the item's own pull request and head |
| `Reducer.MergeSeesEvidence` | factory/controller/reducer.py:154-172 | that step sees an open mergeable pull request, passing classified CI and a well-formed VERIFY PASS review, all of the merged head |
| `Reducer.BadReviewHasNoEffect` | factory/controller/reducer.py:116-132 | a malformed or stale review changes nothing |
| `Reducer.HeadFollowsPr` | factory/controller/reducer.py:72-81 | the item takes the head of the first observation of its pull request, if that names one |
| `Reducer.ReviewDecides` | factory/controller/reducer.py:115-144 | the last review of a waiting item decides: PASS that answers makes it ready, requested changes send that review's findings, all else changes nothing |
| `Reducer.CiDecides` | factory/controller/reducer.py:79-113 | the last CI result of the head decides: a pass asks for the review, VERIFY exactly after a review fix; a product failure is sent once, an infrastructure failure retried, an unproven one ignored |
| `Reducer.OpenedItemDecides` | factory/controller/reducer.py:146-149 | an opened item waits for CI as soon as its pull request is open and no failing CI comes first |
| `Reducer.MergesExactlyOn` | factory/controller/reducer.py:151-172 | an item that is ready merges exactly on that evidence, each the observation that counts |
| `Reducer.BaselinePassWaitsForVerify` | factory/controller/reducer.py:151-172 | an item that is ready stays and asks for nothing while its last review is no VERIFY one |
| `Reducer.OrderDoesNotMatter` | factory/controller/reducer.py:46-81 | with distinct keys the result ignores observation order |
| `Reducer.ConflictingEvidenceDependsOnOrder` | factory/controller/reducer.py:46 | with conflicting CI for one head it does not |
| `Reducer.TableHoldsExactly` | factory/controller/reducer.py:15-32 | a step leaves the published table exactly for an opened or review-fixing item with a proven product failure |
| `CommandExecutor.HandlerRunsAreExact` | factory/controller/executor.py:15-67 | over any calls and crashes, the handler runs of a key are its lost receipts plus one once it has a receipt; receipts have command rows and never change |
| `CommandExecutor.AtMostOneRunMoreThanLostReceipts` | factory/controller/executor.py:15-67 | from an empty store, at most one run more than the crashes between handler and receipt |
| `CommandExecutor.UncrashedCallSettles` | factory/controller/executor.py:15-67 | a call that does not die leaves its key with a receipt, the handler run exactly if there was none, whoever stored the row; only a new command of an unknown work item is refused |
| `CommandExecutor.RetryMakesUpForACrash` | factory/controller/executor.py:15-67 | after a death before the handler the next call ends as if nothing had died |
| `CommandExecutor.ForeignIdNeverSettles` | factory/controller/store.py:41-57 | a stored key under another command id runs the handler on every call |
| `CommandExecutor.Executor.Execute` | factory/controller/executor.py:15-67 | the call in place gives the specified tables; an existing receipt is returned without a run |
| `CommandExecutor.StepKeepsConsistent` | factory/controller/commands.py:44-58 | with ids derived from keys the tables stay consistent |
| `GapIdentity.RawKeyIsTheMeaning` | factory/controller/identity.py:20-34 | two inputs share the text that is hashed exactly when their normalised id sets are equal |
| `GapIdentity.SharedTextMeansSameIds` | factory/controller/identity.py:16-34 | inputs without separators share the text exactly when they name the same ids, blank ones aside, but for order, repeats, letter case and outer spaces |
| `GapIdentity.NormalisesAlikeExactlyWhen` | factory/controller/identity.py:20-27 | two spellings are normalised alike exactly when they differ in letter case and outer spaces only |
| `GapIdentity.GapKeyIsTheMeaning` | factory/controller/identity.py:29-34 | the same for the key itself, unless the digests collide |
| `GapIdentity.SpellingNeverMatters` | factory/controller/identity.py:16-31 | inputs alike but for order, repeats, case and outer spaces, in milestone, capability and all lists, share the text that is hashed or fail alike |
| `GapIdentity.CommaJoinsTwoIds` | factory/controller/identity.py:23-34 | inputs that differ only in that two acceptance ids stand as one with a comma between them mean different gaps and share one key, whatever the digest |
| `GapIdentity.CommaInAnIdCollides` | factory/controller/identity.py:23-34 | "A,B" and "A", "B" are such acceptance ids |
| `GapIdentity.SortedAscends` | factory/controller/identity.py:23-27 | the sorted ids ascend strictly |
| `ReviewContext.BuiltContextValidates` | factory/controller/review_context.py:60-184 | a built context validates for its own key and head, in all modes, exactly when its request is well formed |
| `ReviewContext.AcceptedExactlyWhen` | factory/controller/review_context.py:127-190 | validation accepts exactly the contexts that are complete, without foreign fields, made for this work key and head, readable, and with the digest of what they say |
| `ReviewContext.SharedDigestSharesAuthority` | factory/controller/review_context.py:45-57 | valid contexts with one digest agree on every authority field and on every closure field it covers |
| `ReviewContext.FirstBaselineBindsNoClosureField` | factory/controller/review_context.py:49-54 | a first baseline's digest leaves the closure fields open |
| `ReviewContext.CanonicalAuthority` | factory/controller/review_context.py:45-57 | the loops pick exactly the canonical fields |
| `Text.SplitOfJoin` | factory/controller/reasoning.py:1531 | splitting what was joined from separator-free parts gives the parts |

## Left out

- Git, GitHub, the agent orchestrator, SQLite, files, locks, heartbeats and notifications: durable maps, inputs and crash points stand for them.
- Worker handlers (`_handle_activity`, `_handle_terminated`, `_retry_or_replan`), spawn slots and issue syncing: they appear with what they change in the record, in any order; their own budgets are easy.
- The authority migration of records with `authority_schema_version` 0: for a record that began fresh it only sets the version.
- Recovery prompts, nudges and liveness messages to workers: not counted as effects.
- Texts of blocks and errors: a block keeps its kind and the quoted part, and searches for words in the quoted part are parameters.
- `trigger_review` called a second time without a prompt after a `TypeError`: one call per site.
- The prompts and the contexts a review is triggered with: `ReviewContext` models the contexts on their own, and a finished review enters with the digests it quotes and what was read from its text.
- Several package records in one state file: one record is followed, since a save in mid-tick leaves the others as they are on disk.
- The final audit, the planning bundle, convergence budgets and remediation plans: a convergence verdict is an input of the tick. The roadmap is fixed over a run.
- SchemaChecker.Check: error messages and the errors that are not verdicts (a missing pointer target, an ill-typed keyword) are excluded by the well-formedness of the document, and a numeral written as a string is not a bound.
- SchemaChecker.RankedExactlyWithoutInPlaceCycle: does not say on which values a document with an in-place cycle makes the checker run forever, because keywords checked earlier may reject first.
- SpecificationCompiler.CompileTasks: the sort by id is a parameter that loses and adds nothing, because the order of the tasks decides nothing else that is stated. Dependencies come in the order of the groups, not sorted. Of the task contract schema only the patterns of the group and of the id are modelled.
- SchemaChecker.CheckerMeetsTheStandard: goes one way, since a departure need not change the verdict of a whole schema; the single keywords have exact conditions. A legal document has whole numbers for its bounds and no empty list of types. Of percent-encoding the standard reading decodes the ASCII characters; a reference to an anchor, into an array or to another document has a meaning in neither reading, and keywords the checker does not know are in neither.
- PlanDelta.EveryCycleIsCarriedOver: names what every cycle passes through; whether such a package does close one depends on the whole graph.
- GapIdentity.RawKeyIsTheMeaning: letters are ASCII and spaces are blank, tab, newline and return.
- The upsert of work items and the work id derived from a gap key: single expressions.
- One-off migrations, replay scripts, merge queue, leases, evidence ledger, provider adapters, dashboards and configuration: plumbing, or history.
