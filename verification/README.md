# Recovery agent: a Dafny model and its proofs

The repository is a service that recovers failed recurring payments. A case goes through a state machine
(notice, schedule, execution, outcome), every transition is logged in a hash-chained audit trail, an
independent verifier re-checks the rules over that trail, and executions are guarded by a write-once commit
log that several workers race on and that heals cases after a crash. This project models those parts and
proves what holds of every run, every interleaving, every history and every input.

| file | what it models |
|---|---|
| `Models.dfy` | cases, decisions, audit entries, configuration, the clock |
| `PeakWindows.dfy`, `Slots.dfy` | the slot scheduler: peak-hour avoidance, candidates, salary search, floors |
| `CaseMachine.dfy` | the recovery case as an object, one method per handler, against outcome functions |
| `TrailMonitor.dfy`, `CaseRuns.dfy`, `RunResults.dfy` | walks, replay, runs of a case under any sequence of calls, and what holds of all of them |
| `Verifier.dfy`, `Agreement.dfy` | the verifier's loops against declarative rules, and the agreement of machine and verifier |
| `CommitBackends.dfy` | commit keys and the three backends against one write-once map |
| `Reconciliation.dfy`, `Protocol.dfy`, `AuditAccounting.dfy` | the execution protocol over all interleavings with crashes, and where its audit entries come from |
| `Service.dfy`, `CrashRuns.dfy` | the endpoint and the reconciliation loops in place; a crash, whatever happens afterwards, and a restart |
| `CaseFacts.dfy`, `CaseAnswers.dfy` | what a run leaves on record, what each call must answer and what a run can still do |
| `EndpointRuns.dfy`, `ServedAgreement.dfy` | runs of a case whose executions go through the endpoint, and the verifier's answer on them |
| `AuditChain.dfy`, `Ledger.dfy`, `CaseStore.dfy` | the audit chain, the ingestion ledger and the store's dictionaries |
| `Distress.dfy`, `Metrics.dfy` | the distress cache, and the money totals of the dashboard |

Conventions. Time is an integer number of UTC microseconds; Indian local time is that plus five and a half
hours, modulo a day. The handlers and endpoints are methods that change fields in place; each is proved equal
to a function of the old state, and the theorems are about those functions. The bandit is an arbitrary
suggestion (none, or any instant). The decline classification, the control split of the case id, the distress
answer, the scan order of the commit log and the calendar (day of month of each UTC day) are parameters, and
the hash is an arbitrary function.

## The main theorems

- **Machine and verifier agree.** With a retry cap of at least one and windows that do not end inside one
  another, as shipped, the verifier passes a fair run of the machine if and only if every call did its duty and
  no amount between the two ceilings was ever scheduled (`Agreement.FairRunPassesExactly`), and the same holds
  of the runs through the service, whose executions come from the endpoint alone
  (`ServedAgreement.ServedRunPassesExactly`). The duties are stated on the trail before each call;
  `Agreement.CallBreaksExactly` is the same call by call. In terms of the environment: no orderly run is ever
  failed (`Agreement.OrderlyRunsPass`), where executions wait for their slot, whatever lands on a retry state
  does so off the peak, notices are planned with a bandit or on the real clock and, if told of a previous
  execution, of the last one, and no payment of another amount arrives while an execution awaits its outcome.
  Such runs exist (`Agreement.OrderlyRunRecovers`).
- **Exactly once.** Over all interleavings of any number of workers with stale copies, crashes at any point and
  arbitrary writes of others to the case store: an attempt is approved if and only if it is the first for its key
  (`ExecutionProtocol.ExactlyOnce`), and its winner writes at most one audit entry
  (`AuditAccounting.WinnerWritesAtMostOnce`). If nothing was executed at the start, and the others write as the
  handlers of the machine do (`ExecutionProtocol.HandlersAreAdmissible`), the surplus entries are exactly the
  losers' reconciliations that found another state (`AuditAccounting.SurplusEntriesExactly`) and nothing stands
  as executed without a commit (`ExecutionProtocol.NoExecutionWithoutCommit`).
- **Crashes.** A crash right behind the commit heals to the uncrashed state if the reconciliation follows at once
  (`ExecutionProtocol.CrashHeals`), whatever the order of the scan (`Service.HealAllIsOrderFree`). After anything
  else that happens it gives the case its uncrashed state if and only if that is still RETRY_EXECUTED
  (`CrashRuns.CrashHealsExactly`).
- **Runs of a case.** The trail alone reconstructs the case (`RunResults.TrailReconstructsCase`), the commit
  log holds exactly the attempts 1..e (`RunResults.CommitLogShape`), and a run makes at most three productive
  calls per retry of the budget and one more (`RunResults.RunsAreBounded`). The trail holds the case's own entries
  in order of time, each for a move its rule allows (`CaseFacts.RecordsAreKept`), and the decisions are exactly
  its schedule entries (`CaseFacts.DecisionsAreAudited`). The budget can be spent to the last retry
  (`CaseAnswers.BudgetCanBeSpent`), and a matching payment closes every case not given up
  (`CaseAnswers.PaymentAnswersExactly`). Runs through the service's endpoint
  are mirrored by runs of the machine, with one commit however many executions
  (`EndpointRuns.ServedRunsAreMirrored`, `EndpointRuns.ServedCommits`).
- **Stores.** Two accepted trails with the same last hash are equal or exhibit a collision of the hash
  (`AuditChain.SameHeadSameTrail`), every history of failure webhooks and other updates keeps the ledger balanced
  (`Ledger.EveryHistoryBalances`), the three commit backends answer alike (`CommitBackends.BackendsAgree`), and
  the dashboard's money is conserved (`Metrics.MoneyIsConserved`).

## Where the code is narrower than its intent

The code is modelled as it is. Each of these is proved, with the exact condition where there is one.

- `execute_retry` takes the first pending decision and nothing ever takes a decision off the pending list
  (`app/main.py:540-544`). So the endpoint can win a commit only for the first one; a second retry is refused,
  and its refusal nevertheless moves the case to RETRY_EXECUTED on the strength of the first commit
  (`ExecutionProtocol.EndpointWinsExactly`, `ExecutionProtocol.SecondRetryRidesOnFirst`). It waits for the slot
  of the first retry, not for its own, and breaks the notice rule if and only if it comes before the lead is
  over (`EndpointRuns.SecondRetryIgnoresItsSlot`).
- Reconciliation has no guard on the state or the attempt (`app/main.py:217-232`), whereas the documentation
  (`README.md:308`) speaks of cases whose local state did not advance. The two agree if and only if the case has
  no commit, is executed, or is scheduled with its next attempt committed (`Service.RestartHealsExactly`). A
  restart of a service that lost nothing drags back every executed case that has moved on since
  (`EndpointRuns.RestartDragsBackExactly`); the dashboard can then count a case for the agent and for a human
  (`Metrics.CountedTwiceExactly`, `Metrics.SomeCaseIsCountedTwice`).
- The scans raise on a value that `commit` wrote, which is a bare reference (`app/main.py:251-263`,
  `app/core/commit_backend.py:64-68`). One such value makes the outcome of a restart depend on the scan order if
  and only if there is anything to heal (`Service.OrderMattersExactly`).
- A payment that arrives between a crash behind the commit and the restart is undone: the case it closed is
  opened again in RETRY_EXECUTED, where without the crash it is RECOVERED (`CrashRuns.RestartReopensPaidCase`).
- The winner writes its stale copy of the case back. That is what is meant if and only if the record on file has
  not changed since it was read, but for being executed (`CrashRuns.ApplyOverwritesExactly`); a payment that
  closes the case in between is lost (`CrashRuns.ApplyLosesPayment`).
- Of two racing workers, one is refused and reconciles: the commit gets two audit entries if and only if that
  is before the winner applies (`AuditAccounting.TwoEntriesExactly`), and the verifier takes the pair for two
  retries without spacing (`AuditAccounting.TwoEntriesFailSpacing`).
- A crash between the two writes of `apply_effect` leaves the state without its entry; a later reconciliation
  writes it if and only if the case has left RETRY_EXECUTED by then, and drags the case back
  (`ExecutionProtocol.CrashDefersAuditEntry`).
- A payment of another amount that arrives while an execution awaits its outcome changes nothing in the case,
  but the loop it logs on RETRY_EXECUTED reads as a second execution (`Agreement.MismatchedPaymentFailsCase`).
- The machine uses the ceiling of the category, the verifier the default one (`Agreement.AfaDisagreesExactly`).
- Without a bandit a schedule respects the floor if and only if the scaled target does or only a blackout lies
  between the two (`Slots.FallbackKeepsFloorExactly`); in the shipped demo profile it never does
  (`Slots.DemoClockUndercutsFloor`, `Agreement.DemoClockFailsCase`).
- A retry cap below one is accepted by the loader and exceeded by the first retry
  (`RunResults.RetryCapHoldsExactly`).
- The single pass of peak avoidance needs windows that do not end inside one another
  (`PeakWindows.EscapesExactlyWhenEndsClear`); the shipped windows qualify.
- The salary search steps by whole days and can step over the last day of its window
  (`Slots.SalarySearchMissesExactly`).
- The prefix scan of `reconcile_case` also returns cases whose id continues the given id with a slash
  (`CommitKeys.ScanReturnsExactly`); without slashes in ids the scan is exact
  (`CommitKeys.ScanIsExactWithoutSlashes`).
- `simulate_failure` ingests without looking the payment up first (`app/main.py:420-478`). It keeps the books
  balanced if and only if it is not asked to open a case for a payment on file as a later attempt of another;
  then it leaves a case without any attempt (`Ledger.SimulatedBalancesExactly`). Any other payment on file is
  refused after the handler ran on its case (`Ledger.SimulatedAgain`).
- A new payment is refused for its mandate exactly when it has no mandate note and its own id was used as a
  mandate before (`Ledger.AnsweredExactly`).
- An illegal suggestion of the bandit raises after the case became NOTICE_SENT, and no entry is logged
  (`CaseMachine.RecoveryCase.MarkNoticeSent`); runs assume a bandit that picks a candidate.

## Model

| member | source | states |
|---|---|---|
| Models.ResolveDelay | app/core/clock.py:31-57 | a scaled delay never exceeds the real one, is never negative, and on the real clock is the delay itself |
| Models.ScalesToNearest | app/core/clock.py:45-57 | a scaled delay is the nearest whole number of microseconds, the even one of two |
| PeakWindows.EscapesExactlyWhenEndsClear | app/core/state_machine.py:498-516 | the single pass always ends outside every window if and only if no exposed window ends inside a window |
| PeakWindows.AvoidIsEarliest | app/core/state_machine.py:498-516 | the result is the earliest instant not before the input that lies outside all windows, and avoidance is idempotent |
| PeakWindows.AvoidSkipsOnlyPeak | app/core/state_machine.py:498-516 | for any windows: time moves forward by at most the longest window, over peak instants only, and not at all off the peak |
| PeakWindows.AvoidIsMonotone | app/core/state_machine.py:498-516 | a later instant never gets an earlier slot |
| PeakWindows.ShippedWindowsEndClear | config/npci_rules.yaml:1-26 | the shipped windows satisfy the condition, and the longest fits the scheduling window |
| PeakWindows.ShippedBlackoutInUtc | config/npci_rules.yaml:4-8 | the shipped blackout is from 04:30 to 07:30 and from 11:30 to 16:00 UTC |
| PeakWindows.OverlapDefeatsSinglePass | app/core/state_machine.py:498-516 | two overlapping windows for which the single pass ends in peak |
| Slots.GenerateLegalCandidates | app/core/state_machine.py:479-496 | the loop gathers the candidates of the specification, never none |
| Slots.CandidatesExactly | app/core/state_machine.py:486-496 | the candidates are the slots 0, 12, 24, 48 and 72 scaled hours after the floor that fit, all of them and no other; if none fits, the first slot off the peak |
| Slots.BanditMayPick | app/core/state_machine.py:439-453 | each of them is accepted from the bandit |
| Slots.CandidatesLegal | app/core/state_machine.py:479-496 | every candidate respects the floor and the blackout |
| Slots.CandidatesFitExactly | app/core/state_machine.py:479-496 | all candidates lie within the window if and only if the first slot off the peak does |
| Slots.FirstSalaryWindowDay | app/core/state_machine.py:518-529 | the loop finds what the recursive search finds |
| Slots.SalarySearch | app/core/state_machine.py:518-529 | the result is the first daily step on a salary day, or all steps of the window are none |
| Slots.SalarySearchMissesExactly | app/core/state_machine.py:518-529 | a window with a salary day gets None if and only if its only such day is the last one and the cursor steps over it |
| Slots.ComputeScheduledAt | app/core/state_machine.py:411-477 | the schedule: floors, candidates, membership check, salary bias, peak avoidance; None is the failed assertion |
| Slots.BanditSlotLegality | app/core/state_machine.py:432-443 | any suggestion under any clock: refused unless a candidate, else at or after the floor, off the peak and within the window if that holds the longest blackout |
| Slots.FallbackAimsExactly | app/core/state_machine.py:454-477 | without a bandit the schedule aims at the first daily step on days 1 to 7, for insufficient funds and if there is one, and else at the floor |
| Slots.FallbackSlotLegality | app/core/state_machine.py:454-477 | without a bandit: off the peak under any clock, on the real clock at or after the floor and at most one blackout past the window |
| Slots.FloorIsBothFloors | app/core/state_machine.py:420-433 | being at or after the floor is exactly respecting the notice lead and the listed spacing of the attempt, or the last of the list |
| Slots.ShippedFloor | config/npci_rules.yaml:1-26 | as shipped: one day after the notice, and three or seven after the previous execution |
| Slots.FallbackKeepsFloorExactly | app/core/state_machine.py:454-477 | without a bandit, under any clock, the schedule is at or after the floor if and only if every instant from the scaled target to the floor is in peak |
| Slots.DemoClockUndercutsFloor | app/core/state_machine.py:454-477 | on the shipped demo profile without a bandit the schedule always lies before the floor, for any decline reason |
| CaseMachine.RecoveryCase.AssignBucket | app/models.py:73-86 | the bucket is set once; another one is refused and changes nothing |
| CaseMachine.RecoveryCase.HandleNewFailure | app/core/state_machine.py:153-223 | the new case and its entries: control held, escalated, authentication required or notice pending |
| CaseMachine.RecoveryCase.HandleExistingFailure | app/core/state_machine.py:228-276 | a failure counts a retry only on RETRY_EXECUTED and escalates at the cap or on a business decline |
| CaseMachine.RecoveryCase.HandlePaymentSuccess | app/core/state_machine.py:72-148 | only a matching amount closes a case, and how depends on bucket and state |
| CaseMachine.RecoveryCase.MarkNoticeSent | app/core/state_machine.py:281-322 | both entries and the next decision, or a refusal that changes nothing, or the failed assertion that leaves NOTICE_SENT and no entry |
| CaseMachine.RecoveryCase.AttemptExecution | app/core/state_machine.py:345-368 | executes only a scheduled case the backend approved, else changes nothing |
| CaseMachine.RecoveryCase.ApplyThrottle | app/core/state_machine.py:370-387 | only a scheduled case is throttled |
| CaseMachine.RecoveryCase.ReleaseThrottle | app/core/state_machine.py:389-406 | only a throttled case is released, back to scheduled |
| CaseMachine.RecoveryCase.ResolveEscalation | app/main.py:652-676 | only an escalated case is resolved, with its note |
| CaseFacts.RecordsAreKept | app/core/state_machine.py:60-406 | every run: the record keeps the identity and the deadline its first failure gave it, and the trail holds its own entries alone, in order of time, each cited for a move its rule allows |
| CaseFacts.ServedRecordsAreKept | app/main.py:516-571 | the same of every run through the service |
| CaseFacts.DecisionsAreAudited | app/core/state_machine.py:281-368 | every run: one decision per schedule entry, numbered in order, with the slot the entry carries and the instant of its execution entry |
| CaseAnswers.OpeningAnswersExactly | app/core/state_machine.py:153-223 | control, escalated, authentication or notice: exactly by group, decline and the ceiling listed for the category, or else the default |
| CaseAnswers.ShippedOpening | config/npci_rules.yaml:9-13 | as shipped: up to 15 000 rupees, and 100 000 in three categories |
| CaseAnswers.FailureAnswersExactly | app/core/state_machine.py:228-276 | a failed retry is escalated if and only if the decline is hard or the budget is spent, and else goes on to its next notice; a control observation ends; nothing else changes |
| CaseAnswers.PaymentAnswersExactly | app/core/state_machine.py:72-148 | after any run a payment of the original amount closes the case unless it was given up, as recovered if and only if it was executed, escalated or awaiting authentication; another amount changes nothing |
| CaseAnswers.BudgetCanBeSpent | app/core/state_machine.py:228-368 | under every configuration some run of an admitted case executes it as often as the cap allows, once if the cap is below one |
| CaseAnswers.ThrottleHolds | app/core/state_machine.py:370-406 | a throttled case is neither executed nor scheduled anew before its release, whatever else is called |
| CaseAnswers.ReleaseUndoesThrottle | app/core/state_machine.py:370-406 | releasing a throttled case puts it back as it was |
| CaseAnswers.ClosedNeverExecutes | app/core/state_machine.py:60-406 | a closed or control case never executes or uses a retry again, whatever is called |
| CaseAnswers.DistressEndsRetries | app/main.py:525-538 | the distress gate escalates a scheduled case and ends its retries for good |
| CaseRuns.StepKeepsInv | app/core/state_machine.py:60-406 | every call keeps the invariant tying state, trail, decisions and commit log |
| RunResults.TrailReconstructsCase | app/core/state_machine.py:60-406 | every run: the trail is a walk from RECEIVED to the current state, its RETRY_EVAL entries are the retries used, and it assigns exactly the case's bucket |
| RunResults.CommitLogShape | app/core/state_machine.py:281-368 | every run: committed attempts are 1..e for the e executions of the trail; e is the retries used or one more and within the budget; a scheduled case has exactly its next attempt uncommitted, and a new decision is never on file |
| RunResults.RetryCapHoldsExactly | app/core/state_machine.py:250-276 | every run keeps the cap if and only if the cap is at least one |
| RunResults.RunsAreBounded | app/core/state_machine.py:72-406 | at most 3 * budget + 1 state-changing calls outside the throttle pair, in every run |
| RunResults.ThrottlingIsNeutral | app/core/state_machine.py:370-406 | any number of throttle cycles leaves retries, decisions, log and executions as they were |
| Verifier.CheckNotice | app/core/verifier.py:65-87 | fails if and only if some notice and the next execution are closer than the lead; silent if one notice was served and another is still open |
| Verifier.CheckSpacing | app/core/verifier.py:89-103 | passes if and only if no gap between consecutive executions is below the listed spacing of its number, or the last of the list |
| Verifier.NoticeVerdictExactly | app/core/verifier.py:65-87 | when the notice check fails, is silent or passes, exactly |
| TrailMonitor.SpacingRuleExactly | app/core/verifier.py:89-103 | the rule every other statement uses is that one |
| TrailMonitor.ShippedSpacingRule | config/npci_rules.yaml:18-21 | as shipped: three days before the second execution, seven before every later one |
| Verifier.CheckPeak | app/core/verifier.py:105-129 | reports if and only if the time stamp of some retry entry, or the slot of some schedule entry, lies in a window |
| Verifier.CheckBuckets | app/core/verifier.py:146-155 | passes if and only if the trail does not assign both buckets |
| Verifier.PeakRuleExactly | app/core/verifier.py:105-129 | the blackout rule spelled out, time stamps and slots |
| Verifier.AfaRuleExactly | app/core/verifier.py:131-144 | the amount rule spelled out: the default ceiling alone, and 15 000 rupees without one |
| Verifier.VerifyCaseCompliance | app/core/verifier.py:40-162 | all verdicts pass if and only if the trail complies with the rules stated on it |
| Verifier.ReportIsExact | app/core/verifier.py:40-162 | the report, the silent notice check included, has no failure exactly when the rules hold |
| Verifier.NoRuleBothWays | app/core/verifier.py:40-162 | no rule is reported twice, so none both passed and failed |
| Agreement.OrderlyRunsPass | app/core/verifier.py:40-162 | every orderly run of the machine with an amount the two ceilings agree on passes every check |
| Agreement.OrderlyRunRecovers | app/core/state_machine.py:72-368 | the premise is met: from any instant off the peak, under any sound configuration, some orderly run recovers an admitted case |
| Agreement.CallBreaksExactly | app/core/verifier.py:65-129 | a call breaks the notice, spacing or blackout rule if and only if it neglects its duty |
| Agreement.FairRunPassesExactly | app/core/verifier.py:40-162 | the verifier passes a fair run if and only if every call did its duty and no amount between the two ceilings was ever scheduled |
| Agreement.AfaDisagreesExactly | app/core/verifier.py:131-144 | some run of a case is failed for its amount if and only if it is a treatment case, not declined hard, above the default and within its category's ceiling |
| Agreement.MismatchedPaymentFailsCase | app/core/state_machine.py:91-97 | a payment of another amount too soon after an execution leaves the case unchanged and makes it fail verification |
| Agreement.DemoClockFailsCase | app/core/verifier.py:65-87 | a first retry scheduled on the demo clock without a bandit and executed at its slot breaks the notice rule |
| CommitKeys.KeyIsPath | app/core/commit_backend.py:97-99 | a key is the directory of commits, the case id and the attempt in decimal |
| CommitKeys.KeyInjective | app/core/commit_backend.py:97-99 | rendered keys are injective for all case ids and attempts |
| CommitKeys.ScanReturnsExactly | app/main.py:235-244 | the prefix scan of a case returns another case's commit if and only if that id continues this one with a slash |
| CommitKeys.ScanIsExactWithoutSlashes | app/main.py:235-244 | a commit of a case whose id has no slash is returned by that case's prefix scan and no other |
| CommitBackends.EtcdQuorumBackend.Commit | app/core/commit_backend.py:64-78 | the versioned compare-and-put |
| CommitBackends.PostgresOutboxBackend.Commit | app/core/commit_backend.py:115-144 | staged insert with commit or rollback, under a fault at either step |
| CommitBackends.InMemoryCommitBackend.Commit | app/main.py:60-82 | the set of committed attempts |
| CommitBackends.EtcdRefines | app/core/commit_backend.py:64-78 | the store under rendered keys refines the write-once map, answer and contents |
| CommitBackends.OutboxRefines | app/core/commit_backend.py:115-144 | under any fault nothing stays staged and only an approval changes the rows; without faults it answers as the map |
| CommitBackends.FirstRequestWins | app/core/commit_backend.py:64-78 | in any sequence a request is approved if and only if its key is neither taken nor asked for before |
| CommitBackends.BackendsAgree | app/core/commit_backend.py:64-144 | the three backends give every sequence of requests the same answers |
| Service.RestartHealsExactly | app/main.py:247-264 | a restart does to a case what the documentation intends if and only if the case has no commit, is executed, or is scheduled with its next attempt committed |
| Service.OrderMattersExactly | app/main.py:251-263 | a value written by `commit` ends the scan: met first nothing is healed, met last everything, and the two agree if and only if nothing is stale |
| EndpointRuns.EndpointServes | app/main.py:516-571 | a call of the endpoint on the stores is a step of a served run on the case |
| EndpointRuns.ServedRunsAreMirrored | app/main.py:536-571 | every run through the service has a run of the machine with the same record, moves and decisions |
| EndpointRuns.ServedCommits | app/main.py:536-571 | every run through the service: one commit once anything was executed and never another, executions within the budget |
| ServedAgreement.ServedRunPassesExactly | app/core/verifier.py:40-162 | the verifier passes a run through the service if and only if every call did its duty and no amount between the two ceilings was ever scheduled |
| EndpointRuns.RestartDragsBackExactly | app/main.py:247-264 | after any run through the service, a restart leaves the case alone if and only if nothing was executed or an execution awaits its outcome |
| EndpointRuns.SecondRetryIgnoresItsSlot | app/main.py:540-555 | a second retry executes whenever the endpoint is called, and breaks the notice rule if and only if that is before the lead is over |
| ExecutionProtocol.ExactlyOnce | app/main.py:516-571 | all interleavings: approved if and only if first for its key, every key asked for is in the log and no other, winners as many as log entries |
| ExecutionProtocol.LogNeverChanges | app/core/commit_backend.py:80-95 | an entry once written never changes, whatever follows |
| ExecutionProtocol.NoExecutionWithoutCommit | app/main.py:516-571 | all interleavings: every case in RETRY_EXECUTED and every trail showing an execution has a commit behind it |
| ExecutionProtocol.HandlersAreAdmissible | app/core/state_machine.py:60-406 | storing what any handler left of a record on file is a step the previous row allows between the workers' |
| ExecutionProtocol.OpeningIsAdmissible | app/core/state_machine.py:153-223 | and so is storing a case just opened |
| ExecutionProtocol.CrashHeals | app/main.py:560-569 | crash after the commit, then reconcile: state, log and, but for its time stamp, trail of the uncrashed run; idempotent |
| CrashRuns.HandlersAreCalls | app/core/state_machine.py:60-406 | the handled calls of the next row answer as the calls of the machine's runs do |
| CrashRuns.CrashHealsExactly | app/main.py:247-264 | crash after the commit or not, then any worker steps, crashes, handled calls and openings in either world: the case stays on file, the restart of the crashed world gives it its uncrashed state if and only if that is still RETRY_EXECUTED, and the restart of both agrees |
| CrashRuns.RestartReopensPaidCase | app/main.py:247-264 | a payment between the crash and the restart: RECOVERED without the crash, closed and then RETRY_EXECUTED again with it |
| CrashRuns.ApplyOverwritesExactly | app/main.py:217-221 | the winner's write is the record on file, executed, if and only if its copy differs in the state at most, and what is meant if and only if the record is unchanged but for being executed |
| CrashRuns.ApplyLosesPayment | app/main.py:521-568 | through the endpoint, a payment that closes the case between the winner's read and write is overwritten |
| ExecutionProtocol.CrashDefersAuditEntry | app/main.py:217-232 | crash between the two writes, then anything: reconciliation writes the entry if and only if the case has left RETRY_EXECUTED |
| AuditAccounting.TrailsStayTheirOwn | app/main.py:217-232 | all interleavings: every trail holds entries of its own case alone |
| AuditAccounting.WinnerWritesAtMostOnce | app/main.py:560-571 | all interleavings: entries written by a commit's winner and workers holding its approval are together at most one, and none without the commit |
| AuditAccounting.SurplusEntriesExactly | app/main.py:217-244 | all interleavings: a case's commit entries are its winners', at most one per commit, and one per loser's reconciliation that found another state |
| AuditAccounting.RaceIsReached | app/main.py:536-558 | two workers are both past the due check from any store with the first decision of a scheduled case due |
| AuditAccounting.TwoEntriesExactly | app/main.py:560-571 | through the endpoint, one commit gets two entries if and only if the loser reconciles before the winner applies |
| AuditAccounting.TwoEntriesFailSpacing | app/core/verifier.py:89-103 | such a pair without the spacing between its time stamps breaks the rule |
| ExecutionProtocol.EndpointWinsExactly | app/main.py:536-571 | the endpoint's commit is approved if and only if the first pending decision is not in the log |
| ExecutionProtocol.SecondRetryRidesOnFirst | app/main.py:536-571 | with the first decision committed, the endpoint executes the case without a new commit |
| Service.RecoveryService.ApplyEffect | app/main.py:217-232 | the record and one entry, unless the caller's copy is already there |
| Service.PrefixScanFinds | app/main.py:235-244 | the prefix scan finds something if and only if the case, or an id continuing it with a slash, has a commit |
| Service.RecoveryService.ReconcileCase | app/main.py:235-244 | whatever the scan returned, the case is pulled once if anything before the first unreadable value was found |
| Service.RecoveryService.ReconcileAll | app/main.py:247-264 | the loop heals effect by effect up to the first unreadable value and counts what it healed |
| Service.RecoveryService.ExecuteRetry | app/main.py:516-571 | the endpoint takes the protocol's steps in order and answers ok if and only if a commit was written |
| Service.HealAllIsOrderFree | app/main.py:247-264 | in any scan order: exactly the known cases with a commit end in RETRY_EXECUTED, each healed case gets one entry, and the count is their number |
| Service.HealAllIsIdempotent | app/main.py:247-264 | reconciling again, in any order, changes and counts nothing |
| AuditChain.InterleavedTrailsVerify | app/core/case_store.py:212-227 | any interleaving of appends: each trail holds its case's entries in order, is accepted, and its ids are the positions in the interleaving |
| AuditChain.OwnEntriesGrow | app/core/case_store.py:212-227 | appending entries of one case makes its trail grow by exactly these and changes no other trail |
| AuditChain.LinkExtends | app/core/case_store.py:212-227 | also under a sequence id of the entry's own an append leaves the trail accepted |
| AuditChain.SameHeadSameTrail | app/main.py:829-864 | for any hash, two accepted trails with the same last hash are equal entry for entry and in length, or exhibit a collision |
| CaseStore.InMemoryCaseStore.AppendAudit | app/core/case_store.py:212-227 | appends the next link of its case's chain, under the entry's own sequence id or the next of the counter |
| CaseStore.InMemoryCaseStore.VerifyChain | app/main.py:829-864 | intact if and only if accepted; otherwise names the first entry that does not link or whose hash is not its own |
| CaseStore.InMemoryCaseStore.CreateCase | app/core/case_store.py:70-86 | refused for a known case id or a mandate of another case, else filed under both |
| CaseStore.InMemoryCaseStore.UpdateCase | app/core/case_store.py:94-99 | refused for an unknown case, else overwritten with its mandate |
| CaseStore.InMemoryCaseStore.GetMaxAttemptNumber | app/core/case_store.py:116-121 | the largest recorded attempt of the case, 0 if there is none |
| CaseStore.InMemoryCaseStore.RecordFailure | app/core/case_store.py:129-144 | refused for a taken attempt or payment id, else both maps are extended together |
| CaseStore.InMemoryCaseStore.RecordRetryDecision | app/core/case_store.py:158-165 | one decision per case and attempt |
| CaseStore.InMemoryCaseStore.PaymentFailedWebhook | app/main.py:298-363 | the webhook moves the books as the ledger says, keeps them balanced, and makes the trail of the delivery's case grow by exactly the handler's entries, and no other, only when it accepts |
| CaseStore.InMemoryCaseStore.SimulateFailure | app/main.py:420-478 | the simulation endpoint moves the books as the ledger says, keeps them balanced if and only if the delivery does not stray, and lets the delivery's case's trail alone grow, only when it accepts |
| CaseStore.InMemoryCaseStore.PaymentSucceededWebhook | app/main.py:366-406 | the webhook updates the case of the mandate as the handler says, keeps the books balanced and lets that case's trail alone grow by its entries |
| Ledger.IngestKeepsBalance | app/main.py:316-353 | a delivery keeps attempts without gaps and both indexes inverse to their maps |
| Ledger.SimulatedNewIsIngested | app/main.py:420-478 | for a payment not on file the simulation endpoint does what the webhook does |
| Ledger.SimulatedAgain | app/main.py:420-478 | a payment on file is never accepted: its case is updated all the same, or a stray case is opened, or nothing changes |
| Ledger.SimulatedBalancesExactly | app/main.py:420-478 | the simulation endpoint keeps the books balanced if and only if the delivery does not open a case for a payment on file |
| Ledger.UpdateKeepsBalance | app/core/case_store.py:94-99 | any new contents under a case's id and mandate keep the books balanced |
| Ledger.CallsAreUpdates | app/core/state_machine.py:60-406 | every handler, trigger, resolution and reconciliation keeps a case's id and mandate, so it is such an update |
| Ledger.EveryHistoryBalances | app/main.py:316-353 | every history of failure webhooks and updates: each case has exactly the attempts 1..n, the payment and mandate indexes are inverses |
| Ledger.RetryFailureIsCounted | app/main.py:316-353 | after any history, a case written as executed takes the next failure of its mandate as its next attempt and retry |
| Ledger.AnsweredExactly | app/main.py:309-353 | when a delivery is a duplicate, refused or accepted, exactly; anything but acceptance changes nothing |
| Ledger.AcceptedAddsOne | app/core/case_store.py:129-144 | a new payment id becomes the next attempt of its case, with its amount, under a key that was free, and disturbs no other failure |
| Ledger.AcceptedHandlesOne | app/main.py:322-349 | it opens its case with what it says, or leaves its case to the handler of failures, and changes no other case |
| Ledger.RedeliveryChangesNothing | app/main.py:316-320 | redelivering any earlier payment, after any further history of webhooks and updates and whatever else it says, changes nothing |
| DistressDetection.RecentKeepsExactly | app/core/distress.py:26-29 | pruning keeps every instant at or after the cutoff as often as it was there, and no other |
| DistressDetection.LateQueriesAgree | app/core/distress.py:21-41 | for records in any order, a query at or after all of them sees in the cache exactly what the full history shows |
| DistressDetection.CacheIsWindow | app/core/distress.py:21-29 | recorded in order, the cache is the history from the last record's cutoff on |
| DistressDetection.CountAgreesExactly | app/core/distress.py:38-41 | a query at any time counts what the full history would if and only if no record of its window lies before the last record's window |
| DistressDetection.DistressDetector.RecordFailure | app/core/distress.py:21-29 | appends to that instrument's history and keeps every list the pruned cache of its history |
| DistressDetection.DistressDetector.FailureCount | app/core/distress.py:38-41 | at or after the last record, the count of the full history |
| DistressDetection.DistressDetector.IsDistressed | app/core/distress.py:31-36 | at or after the last record, distressed if and only if the full history reaches the threshold |
| Metrics.RecoveriesAreDisjoint | app/main.py:889-922 | a reached case is counted for at most one of agent, human and control |
| Metrics.PaymentsMatch | app/core/state_machine.py:91-141 | in any run the first payment of the original amount is what the case counts as recovered by payment for, or it came after the case was given up |
| Metrics.MoneyIsConserved | app/main.py:889-922 | over any portfolio: agent, control and natural recoveries are the payments received, but for those after a case was given up, and with the human total and the rest they are the original amounts |
| Metrics.ReportedWithinOriginal | app/main.py:889-922 | the three reported totals never exceed the original amounts |
| Metrics.ServedCaseIsCountedOnce | app/main.py:889-922 | a case run through the service is counted at most once too |
| Metrics.CountedTwiceExactly | app/main.py:889-922 | after any run through the service, a restart and a payment, a case counts for agent and human if and only if it had been executed and marked recovered by a human |
| Metrics.SomeCaseIsCountedTwice | app/main.py:889-922 | such a case is served, and on file, under every configuration that admits a retry |

## Left out

- CommitLogShape: the commit log is that of the decision-carrying calls of the state machine, one writer; the endpoint's choice of the first pending decision is treated in the execution protocol and in the runs through the service.
- FairRunPassesExactly: a run is one of the state machine and the endpoints that follow it; runs through the endpoint, with the entries of `apply_effect`, have their own theorem, and races and restarts are treated in the execution protocol, where they can fail verification.
- CrashHealsExactly: other endpoints act on the record on file as the handlers of the state machine do; a history with the simulation endpoint in it is not among those happenings.
- EveryHistoryBalances: a history holds no call of the simulation endpoint, which SimulatedBalancesExactly treats.
- ServedRunsAreMirrored: executions go through the etcd backend, the only one the endpoint can commit to.
- SecondRetryRidesOnFirst: the refused worker's reconciliation is one step of the protocol, and one loop of reconciliation reads the clock once.
- RestartDragsBackExactly: the log holds effects only, as the service's own writer leaves it; a log with values of `commit` is treated by OrderMattersExactly alone.
- ExecuteRetry: the commit and its compare are atomic; `commit_effect` on the in-memory and outbox backends raises, because it builds a decision without reasoning (`app/models.py:170-171`), and is not modelled.
- PaymentFailedWebhook: a decision returned by the handler is never present and is left out; parsing, signature and malformed payloads come before the model, and the distress record it makes is modelled on its own.
- VerifyCaseCompliance: detail texts are left out, and rule names are an enumeration instead of text matched by substring.
- `mark_retry_executed` (`app/core/state_machine.py:324-343`) bypasses the commit backend and is not called by the service.
- The store keeps records by value; a caller that goes on mutating a stored case object is not captured, other than by the stale copies of the execution protocol.
- Reasoning and explanation texts, timestamps of outcomes, and the case index by first payment id.
- The decline router, the do-not-disturb check, the instrument throttle's gap and configuration parsing: single branches whose results are inputs here.
- SHA-256, HMAC and JSON: the hash is any function and the payload a value.
- The survival curve, the bandit's statistics, the explainer and the decline proposer: floating point, randomness or network.
- etcd's Raft, Postgres and its case store: an atomic conditional put and a unique insert are assumed.
- Recovery rates and counts of the dashboard, beyond the money totals.
- The HTTP layer, pages, cluster status, chaos and load scripts, and the stand-alone chain verifier `verify_chain.py`, whose field list omits `scheduled_at`.
