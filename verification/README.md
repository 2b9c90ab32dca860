# A verified model of the orchestrator's persistent machinery

The repository runs an agent daemon whose whole state lives in a few SQLite tables: a queue of
events, a table of recurring objectives, the reflections written after each run, and skill
candidates that are promoted and demoted by their record. Around it sit a screenshot-driven control
loop, a local operation runner that can be paused, a safety gate, a fallback memory search and a web
proxy that refreshes cookies. This project models those parts in Dafny and proves what they keep over
whole runs.

## How the model is built

**The daemon.** `Schema` holds the rows, `VerificationPolicy`, `EventQueue` and `Scheduler` say what
each transaction does to them, and `Store.CognitiveStore` is the database with the operations that
change it in place; every method is proved equal to the transaction it stands for. `Machine` puts the
same transactions into one state machine: a world is a database, the event the single daemon has
claimed, and a clock that never goes back. A run is any sequence of steps in which the daemon takes
in objectives, claims, completes, fails or crashes, and operators enqueue, approve, reject, edit,
dispatch and run the intake whenever they like. `StepOutcomes` says row by row what each step leaves
behind, and `IntakeRuns` shows that one intake call is a run of single intake steps. The theorems
about runs are in `LiveEvents`, `Escalations`, `OneShot`, `RemediationSpacing`, `DispatchSpacing`,
`PolicyRuns`, `Attempts`, `Dependencies` and `Starvation`; they hold for every run, of any length, from
an empty database or from the creation of the objective they speak about. `FailingRuns` builds runs
from an empty database that show where a property ends.

**The smaller parts** have a module each: `Skills`, `StuckLoop`, `LocalExecution`, `SafetyLimiter`,
`MemorySearch`, `CookieHeader` and `ContentPlan`.

Conventions: numbers that the code clamps are stored raw and read through the same clamps
(`Common.IntOrDefault`, `Common.FloatOrDefault`). A sorted, limited query may answer with any sorted
list (`RowQuery.FirstRows`): ties are left open, as SQL leaves them open. Real arithmetic is exact.
The result of an agent tick, the answer of the autotuner, the clock, new uuids and the planner's
choices are inputs that may be anything; a uuid is only required to be new.

## What turned out otherwise

- A verification reads the cadence clamped to one day and writes it back, so the first one turns a
  weekly objective into a daily one (`VerificationKeepsCadenceExactly`); a longer cadence lasts only
  until the next verification (`LongCadenceIsRecent`). Recovery from a remediation therefore brings back
  exactly the old cadence if and only if it was at most a day (`RemediationRoundTrip`), and a
  remediation can shorten a stored cadence that is longer than the slowdown of a day
  (`StoredCadenceShortenedExactly`). A remediation meets a cadence above a day only when an operator set
  it, or a remediation slowed down to it, after the last other verification.
- A one-shot created in the middle of a remediation that remembers a cadence is dispatched again once
  it recovers (`RememberedCadenceRearms`); one that remembers none is not, unless an operator re-arms it
  (`DispatchedAtMostOnce`).
- An intake that clears an elapsed deferral and then dispatches writes the old policy back, so the
  escalation is `deferred` again, without its hold. A deferral is taken off the row if and only if the
  intake completes a one-shot (`IntakeEndsDeferralExactly`); `DeferralOutlivesDispatch` is a run of the
  daemon alone in which one survives the dispatch.
- Approval looks for the objective only in the event's metadata, verification also in its parent. An
  event linked through its parent alone can be approved and leave the escalation open with nothing
  waiting (`ApprovalClosesExactly`, and the run `ApprovalLeavesOpen`).
- Claim sees the first 50 rows. While no more are claimable it finds an event if and only if some
  candidate is not waiting, over a chain of dependencies, for a failed one (`ClaimMakesProgress`).
  Beyond that it overlooks a ready event if and only if 50 unready ones come first (`MustMissExactly`,
  `MayMissExactly`). With nothing under way an event is starved for ever if and only if it is in a jam:
  among pending events that wait for a failed one or for each other, or that are shut out by 50 such
  (`StarvedExactly`). The rest of a failed plan is one (`FailedChainIsDoomed`); but nothing has to fail:
  fifty events that wait for one of less priority keep it and themselves from ever starting
  (`StarvationIsReached`, `StarvationWithoutFailure`).
- The promotion rule's cap on failures decides nothing: its success rate implies it
  (`FailureCapNeverDecides`).
- The stuck analysis bounds the control loop only while the screen has a signature and does not count
  as ready (`ReadyScreenNeverStops`, `NoSignatureNeverStops`).
- The rate limit counts rows strictly younger than the window, so a window that includes both its ends
  can hold up to twice the maximum, when an approved action lies exactly at its end
  (`ClosedWindowHoldsTwice`, `ClosedWindowReachesTwice`).
- `fail_event` looks at no status (`FailLooksAtNoStatus`). Called after `complete_event` it would revive
  a done event, or take a waiting one away from its open escalation (`LateFailureLeavesOpen`); the
  theorems about runs rest on the daemon not doing so, see below.

## Model

| member | source | states |
|---|---|---|
| LiveEvents.AtMostOneLiveEvent | python_engine/cognitive_daemon.py:4058-4066 | In every state of every run an objective nobody dispatched by hand has at most one pending, processing or waiting event, and it is the objective's last event, through retries, crashes, automatic and operator approvals. |
| LiveEvents.IntakeDecidesExactly | python_engine/cognitive_daemon.py:4179-4300 | In any run the intake dispatches a due objective if and only if no event of it is live, no deferral holds it, no escalation is open, it is not a finished one-shot and it is not paused for a missed deadline. |
| StepOutcomes.GoOutcome | python_engine/cognitive_daemon.py:4302-4361 | A dispatched event is pending under its objective with the effective priority and three attempts; the objective's hold is gone and its next run is exactly one cadence later. |
| StepOutcomes.SkipOutcome | python_engine/cognitive_daemon.py:4058-4300 | An objective passed over gets no event: one with a live event stays untouched, a held one waits for its hold, one that awaits the operator for the cooldown, a finished one-shot is completed, and one past its deadline paused. |
| StepOutcomes.TurnIsDecision | python_engine/cognitive_daemon.py:4179-4300 | Which of these happens is decided by the last event, the hold, the escalation, the cadence and the deadline, in this order. |
| StepOutcomes.ManualDispatchOutcome | python_engine/cognitive_daemon.py:3908-3943 | A dispatch by hand looks at niche and status only and touches nothing but its objective and event. |
| StepOutcomes.ManualDispatchRow | python_engine/cognitive_daemon.py:3944-3994 | After it the objective is active, due one cadence later, without a hold, and a pause with an open escalation is over. |
| DispatchSpacing.DispatchesApart | python_engine/cognitive_daemon.py:4335-4335 | Two intake dispatches of a recurring objective are at least its cadence apart, over any run in which neither an operator nor a recovery brings its next run forward. |
| Escalations.OpenMeansWaiting | python_engine/cognitive_daemon.py:3408-3425 | Whenever an escalation is open, its event is waiting for input and names the objective, or an operator opened it and no verification has reopened it since. |
| Escalations.OpenIsNeverDispatched | python_engine/cognitive_daemon.py:4236-4264 | No intake step dispatches an objective whose escalation is open. |
| Escalations.ApprovalClosesExactly | python_engine/cognitive_daemon.py:4432-4466 | Approving the event of an open escalation closes it if and only if the event's metadata names the objective; otherwise it stays open with nothing waiting. |
| FailingRuns.ApprovalLeavesOpen | python_engine/cognitive_daemon.py:4432-4466 | A run from an empty database that ends that way: an event enqueued with the objective as its parent alone escalates and is approved, the escalation stays open, nothing waits, and no operator opened it. |
| Escalations.IntakeEndsDeferralExactly | python_engine/cognitive_daemon.py:4185-4273 | An intake step ends a deferral if and only if the objective is a one-shot whose event is over and whose hold has elapsed; one that dispatches leaves it deferred without a hold. |
| FailingRuns.DeferralOutlivesDispatch | python_engine/cognitive_daemon.py:4335-4350 | A run of the daemon alone in which three misses lead to a remediation, its deferral elapses, and the dispatch that follows leaves the row deferred. |
| OneShot.DispatchedAtMostOnce | python_engine/cognitive_daemon.py:4266-4273 | From the creation of a one-shot objective that remembers no cadence, over any run in which nobody dispatches it by hand, enqueues in its name or gives it a cadence, no two intake steps dispatch it and its cadence stays 0, through approvals, rejections, pausing and resuming. |
| FailingRuns.RememberedCadenceRearms | python_engine/cognitive_daemon.py:3436-3458 | The condition is needed: a one-shot created in a remediation that remembers a cadence, neither escalated nor held, is dispatched twice in a run of the daemon alone. |
| VerificationPolicy.ObjectiveReflectionTrend | python_engine/cognitive_daemon.py:3147-3205 | The loop over the newest reflections computes count, pass rate, confidence change and direction of the trend. |
| VerificationPolicy.DownNeedsTwo | python_engine/cognitive_daemon.py:3189-3198 | A downward trend takes at least two reflections. |
| Schema.DefaultSettings | python_engine/cognitive_daemon.py:3234-3331 | The numbers an objective without settings is run with. |
| Schema.SettingRanges | python_engine/cognitive_daemon.py:3234-3331 | Every setting stays in its range, and one within it is used as it is. |
| VerificationPolicy.ApplyVerificationPolicy | python_engine/cognitive_daemon.py:3208-3521 | Editing the policy field by field has the effect of the case-by-case specification of fail streak, remediation, escalation, recovery, cadence and next run. |
| VerificationPolicy.AdvanceRecovery | python_engine/cognitive_daemon.py:3426-3464 | The recovery block resolves after enough passes, releases the remediation's hold and closes an open escalation when configured. |
| VerificationPolicy.VerificationKeepsCadenceExactly | python_engine/cognitive_daemon.py:3249-3249 | A verification that neither remediates nor recovers keeps the cadence if and only if it is at most a day, and cuts it to a day otherwise. |
| StepOutcomes.RemediatesExactly | python_engine/cognitive_daemon.py:3357-3384 | A verification remediates if and only if that is enabled, the run failed, the failures in a row are enough, and the newest reflections are enough, pass rarely enough and fall in confidence by more than 0.08 and the configured drop. |
| StepOutcomes.EscalatesExactly | python_engine/cognitive_daemon.py:3406-3425 | It escalates if and only if it waits for input or fails often enough in a row, that is configured, and neither a remediation nor a running deferral comes first. |
| StepOutcomes.StatusOutcome | python_engine/cognitive_daemon.py:3414-3425 | An escalation that waits for the operator pauses an active objective if configured; one that goes on by itself leaves it active; without an escalation the status stays. |
| StepOutcomes.EscalationOutcome | python_engine/cognitive_daemon.py:3406-3425 | It opens the escalation and names the event, or closes it again and drops the hold when the event goes on by itself. |
| StepOutcomes.RemedyOutcome | python_engine/cognitive_daemon.py:3385-3403 | A remediation defers and holds the objective for its retry window, moves its next run behind that, remembers its cadence and slows it down. |
| StepOutcomes.MissOutcome | python_engine/cognitive_daemon.py:3357-3425 | Any other failure changes nothing but the counters, and keeps the next run behind a running deferral. |
| StepOutcomes.RecoveryOutcome | python_engine/cognitive_daemon.py:3436-3458 | The pass that ends a remediation closes the escalation, drops the remediation's hold, restores the remembered cadence and makes the objective due after it, if not earlier. |
| StepOutcomes.PassOutcome | python_engine/cognitive_daemon.py:3426-3480 | Any other pass advances a recovery and releases its hold and deferral, or closes an open escalation if configured, and changes nothing else. |
| StepOutcomes.CounterOutcome | python_engine/cognitive_daemon.py:3332-3356 | The failures in a row and, during a remediation, the passes in a row. |
| StepOutcomes.TrendIsNewest | python_engine/cognitive_daemon.py:3147-3172 | The trend is read from the newest reflections of the objective, newest first, and none newer is left out. |
| PolicyRuns.LongCadenceIsRecent | python_engine/cognitive_daemon.py:3489-3496 | In any run a cadence above a day was set by an operator or a remediation with no verification since. |
| RemediationSpacing.RemediationsApart | python_engine/cognitive_daemon.py:3374-3403 | Two automatic remediations of one objective with no operator step between are at least the first one's retry window, hence a minute, apart. |
| RemediationSpacing.QuietAlong | python_engine/cognitive_daemon.py:4019-4029 | From a remediation until its window ends the objective is not due and has nothing pending or processing, over any run. |
| PolicyRuns.FailStreakIsTrailingFailures | python_engine/cognitive_daemon.py:3234-3243 | Over every run in which no operator writes the policy anew, the stored fail streak is the length of the trailing block of failed verifications, through pausing, resuming, approvals and other edits. |
| PolicyRuns.FailStreakEscalatesExactly | python_engine/cognitive_daemon.py:3408-3425 | In such a run a verification escalates for the streak if and only if the run ends in at least the configured number of failures and neither waiting, a remediation nor a running deferral takes precedence. |
| PolicyRuns.NoEscalationWhileDeferred | python_engine/cognitive_daemon.py:3332-3341 | While a deferral runs no verification opens an escalation. |
| PolicyRuns.RemediationRoundTrip | python_engine/cognitive_daemon.py:3426-3464 | After a remediation and any number of failures, pauses and resumptions, enough clean passes in a row end it and restore the cadence, even one an operator changed in between, exactly if and only if the old one was at most a day. |
| PolicyRuns.SlowedNotShortened | python_engine/cognitive_daemon.py:3400-3403 | A remediation never shortens the cadence it reads. |
| PolicyRuns.StoredCadenceShortenedExactly | python_engine/cognitive_daemon.py:3246-3246 | It shortens the stored cadence only when that exceeds the slowdown of a day. |
| Attempts.ClaimsAreBounded | python_engine/cognitive_daemon.py:4616-4648 | In every run an event's attempts are its claims, at most its budget plus its crash requeues, approvals and automatic approvals. |
| Attempts.AutosPerStretch | python_engine/cognitive_daemon.py:2375-2416 | In any stretch of any run in which no operator approves it, an event is approved automatically at most 20 times. |
| Attempts.WorkIsBounded | python_engine/cognitive_daemon.py:2092-2099 | Without effective crash requeues and approvals a whole run claims at most 30 times the number of events. |
| Attempts.RetryWaits | python_engine/cognitive_daemon.py:4616-4648 | A failure is retried if and only if its class and attempts allow it; the event then becomes claimable exactly when a positive delay of at most 300 seconds is over. |
| Attempts.RetriedIsLeftAlone | python_engine/cognitive_daemon.py:2194-2273 | Over any run a retried event stays as the failure left it, unclaimed, until its delay has passed. |
| StepOutcomes.RetryInSeconds | python_engine/cognitive_daemon.py:4616-4633 | A first rate-limited attempt waits 10 seconds, a first transient one 2, an unknown failure 3 for each attempt. |
| StepOutcomes.RetryDoubles | python_engine/cognitive_daemon.py:4616-4633 | Each further attempt doubles the wait, up to 300 seconds for a rate limit and 120 for a transient failure. |
| StepOutcomes.FailOutcome | python_engine/cognitive_daemon.py:4634-4660 | A failure touches only its event, and of it only the status and the time it is available. |
| EventQueue.FailLooksAtNoStatus | python_engine/cognitive_daemon.py:4574-4648 | A failure reported for an event already done takes it back into the queue or marks it failed. |
| Escalations.LateFailureLeavesOpen | python_engine/cognitive_daemon.py:4574-4648 | A failure reported after an escalating completion leaves the escalation open with nothing waiting. |
| EventQueue.RetryDelay | python_engine/cognitive_daemon.py:4616-4633 | Every delay granted is positive and at most 300 seconds, and is granted only below the attempt limit. |
| EventQueue.ClaimTakesLeast | python_engine/cognitive_daemon.py:2194-2245 | Claim takes a ready event that is least by priority and age among the ready ones in its window, and one whenever some row there is ready. |
| StepOutcomes.ClaimOutcome | python_engine/cognitive_daemon.py:2194-2273 | Of at most 50 pending rows of the niche whose time has come claim takes the first with no unfinished dependency and marks it processing, with one more attempt, from now; if all are blocked nothing changes. |
| StepOutcomes.EnqueueOutcome | python_engine/cognitive_daemon.py:2112-2152 | The new row is pending and available now, as asked, with its priority and attempt budget within bounds; nothing else changes. |
| StepOutcomes.RequeueOutcome | python_engine/cognitive_daemon.py:2160-2191 | Exactly the processing rows of the niche that started longer ago than allowed, or all of them, are pending again, attempts unchanged. |
| StepOutcomes.CompletionOutcome | python_engine/cognitive_daemon.py:2366-2466 | The completed event waits exactly when an operator is needed or the tick asks for input, is pending again when it goes on by itself, with that counted, and is done otherwise; only it and its objective change. |
| StepOutcomes.AutoApprovedExactly | python_engine/cognitive_daemon.py:2375-2398 | An escalated event goes on by itself if and only if it is of low risk, neither event nor objective switch that off, and its count is below the limit. |
| StepOutcomes.ReflectionOutcome | python_engine/cognitive_daemon.py:516-560 | The run is reflected on under its objective and keeps the time of its first reflection. |
| StepOutcomes.ApprovalOutcome | python_engine/cognitive_daemon.py:4424-4470 | An approved event is pending with a clean count, the objective its metadata names is active with a resolved escalation, and nothing else changes. |
| StepOutcomes.RejectionOutcome | python_engine/cognitive_daemon.py:4490-4530 | A rejected event has failed with a clean count, its objective is paused with an open escalation, and nothing else changes. |
| StepOutcomes.ResolveRefused | python_engine/cognitive_daemon.py:4401-4410 | An event that does not wait for input can be neither approved nor rejected. |
| StepOutcomes.CreateOutcome | python_engine/cognitive_daemon.py:3524-3585 | The new objective is active, due at the given time or now, with the given settings. |
| StepOutcomes.ChangeOutcome | python_engine/cognitive_daemon.py:3654-3751 | Given values replace stored ones, the rest stays; resuming makes the objective due now unless a next run is given. |
| StepOutcomes.ChangePolicyOutcome | python_engine/cognitive_daemon.py:3701-3727 | Resuming drops the hold and closes an open escalation unless the update brings one; pausing marks a policy without escalation. |
| Dependencies.OrderedAlong | python_engine/cognitive_daemon.py:2216-2262 | In every reachable state a claimed event has only finished dependencies in its niche, dependencies point to earlier rows, and every step leaves finished and failed events as they are. |
| Dependencies.PlanIsChain | python_engine/cognitive_daemon.py:5233-5251 | A stored plan is a chain in which every step depends on the one before, none has started, and no other event changed. |
| Dependencies.PlanRunsInOrder | python_engine/cognitive_daemon.py:5017-5047 | Over the rest of any run a step of a stored plan starts only if all earlier ones are done, and never after an earlier one failed. |
| Dependencies.PlanIsChainInRuns | python_engine/cognitive_daemon.py:5233-5251 | A plan whose steps are enqueued one by one in the course of a run, whatever happens in between, is a chain as far as it is enqueued. |
| Dependencies.EnqueuedPlanRunsInOrder | python_engine/cognitive_daemon.py:5233-5251 | In any such run a step that has started finds all earlier ones done, and none starts after an earlier one failed, even if that was before it was enqueued. |
| Starvation.ClaimMakesProgress | python_engine/cognitive_daemon.py:2199-2245 | With at most 50 candidates and nothing in the niche processing, waiting or backing off, claim returns an event if and only if some candidate does not wait, directly or over pending events, for a failed one. |
| Starvation.FailedChainIsDoomed | python_engine/cognitive_daemon.py:5233-5251 | Once a step of a plan has failed, all later ones are pending and doomed. |
| Starvation.MustMissExactly | python_engine/cognitive_daemon.py:2199-2249 | Claim misses a ready event whatever the order of ties if and only if at least 50 unready candidates come strictly before every ready one. |
| Starvation.MayMissExactly | python_engine/cognitive_daemon.py:2199-2249 | It can miss one if and only if at least 50 unready candidates come before or together with every ready one. |
| Starvation.StarvedExactly | python_engine/cognitive_daemon.py:2194-2273 | With nothing processing, waiting or backing off, a candidate stays pending in every continuation, by daemon and operators, if and only if it is in a jam; otherwise the daemon alone can go on until it is done. |
| Starvation.StarvesForever | python_engine/cognitive_daemon.py:2207-2207 | From any state on, the events of a jam stay pending and unchanged over every run. |
| Starvation.DoomedJam | python_engine/cognitive_daemon.py:2233-2243 | The events that wait for a failure are a jam, together with whatever lies behind 50 claimable ones of them. |
| FailingRuns.StarvationIsReached | python_engine/cognitive_daemon.py:2199-2245 | A run from an empty database that ends with a claimable event without dependencies that never starts, behind events that wait for a failed one. |
| FailingRuns.StarvationWithoutFailure | python_engine/cognitive_daemon.py:2199-2245 | A run of nothing but enqueues after which no stored event ever starts, although one is ready. |
| IntakeRuns.IntakeIsARun | python_engine/cognitive_daemon.py:3997-4379 | One intake call over the due rows is a run of single intake steps, each on an untouched row with a fresh uuid. |
| RowQuery.Select | python_engine/cognitive_daemon.py:2200-2211 | Repeated selection answers a sorted, limited query: distinct candidates in order, all of them when they fit, none left out that belongs before one taken. |
| Store.CognitiveStore.EnqueueEvent | python_engine/cognitive_daemon.py:2070-2157 | Adds one pending row with clamped priority and attempt budget. |
| Store.CognitiveStore.EnqueuePlan | python_engine/cognitive_daemon.py:5233-5251 | The loop over planned events stores the plan that `PlanIsChain` is about. |
| Store.CognitiveStore.RequeueStaleProcessing | python_engine/cognitive_daemon.py:2160-2191 | Returns stale processing rows to pending, touches no other row and counts the rows changed. |
| Store.CognitiveStore.CountUnresolved | python_engine/cognitive_daemon.py:2233-2243 | The count is zero if and only if every dependency that exists in the niche is done. |
| Store.CognitiveStore.PickReady | python_engine/cognitive_daemon.py:2216-2249 | The candidate loop picks the first row without unfinished dependencies. |
| Store.CognitiveStore.ClaimNextEvent | python_engine/cognitive_daemon.py:2194-2273 | Claims the first ready row of an answer of the 50-row query, or changes nothing. |
| Store.CognitiveStore.CompleteEvent | python_engine/cognitive_daemon.py:2276-2581 | Verifies against the trend of an answer of the reflection query and settles event, objective and reflection in one transaction, automatic approval included. |
| Store.CognitiveStore.FailEvent | python_engine/cognitive_daemon.py:4574-4688 | Retries with the granted delay or fails the event, and reports which. |
| Store.CognitiveStore.ResolveEventApproval | python_engine/cognitive_daemon.py:4382-4541 | Approves or rejects a waiting event and its objective's escalation; refuses any other event without a change. |
| Store.CognitiveStore.CreateObjective | python_engine/cognitive_daemon.py:3524-3585 | Stores an active objective, or refuses a negative cadence. |
| Store.CognitiveStore.UpdateObjective | python_engine/cognitive_daemon.py:3654-3751 | Applies the given fields and the pause and resume rules of the policy, or refuses. |
| Store.CognitiveStore.DispatchObjectiveNow | python_engine/cognitive_daemon.py:3891-3994 | Dispatches on request exactly when the objective is of the niche and active, or paused and resumed, whatever is in flight or held. |
| Store.CognitiveStore.IngestDueObjectives | python_engine/cognitive_daemon.py:3997-4379 | Reads the first 64 due rows by stored priority and serves them by effective priority, then next run, then age: nothing left over is more urgent than what was served. It stops only when the dispatch limit is reached, and adds exactly the events it reports. |
| IntakeRuns.ServesByUrgency | python_engine/cognitive_daemon.py:4017-4045 | The same of the queries alone: which rows are read, and in which order they are served. |
| Scheduler.UrgencyExactly | python_engine/cognitive_daemon.py:2855-2893 | The effective priority gains one step for every full aging window overdue, none before the objective is due, up to the maximum, 15 more near the deadline, and is 1 from the deadline on. |
| Scheduler.UrgencyOnlyGrows | python_engine/cognitive_daemon.py:2855-2893 | As time passes an unserved objective never becomes less urgent. |
| Scheduler.DeadlineExactly | python_engine/cognitive_daemon.py:2839-2852 | A positive deadline counts as it is, else a service time counts from the creation. |
| Skills.SkillTable.Upsert | python_engine/cognitive_daemon.py:755-920 | Updates counters, mean and promotion of one skill in place. |
| Skills.SkillTable.Decay | python_engine/cognitive_daemon.py:1285-1383 | Demotes exactly the stale or weak promoted rows among those the query returned. |
| Skills.CountersAreTheHistory | python_engine/cognitive_daemon.py:821-832 | Over every history successes plus failures are the total and the mean times the total is the sum of all observed confidences. |
| Skills.FirstOutcome | python_engine/cognitive_daemon.py:789-820 | A first outcome is counted and never promotes. |
| Skills.PromotedIsGood | python_engine/cognitive_daemon.py:838-861 | After every history a promoted skill has at least 3 outcomes, a success rate of at least 0.45 and a mean confidence of at least 0.36, of 0.40 from the sixth outcome on. |
| Skills.PromotionExactly | python_engine/cognitive_daemon.py:838-861 | A new outcome promotes a skill if and only if it has 3 outcomes, 67% passes, a mean of 0.6 and failures of no more than one or a third, and demotes one if and only if from the sixth outcome on it is below 45% or 0.40. |
| Skills.FailureCapNeverDecides | python_engine/cognitive_daemon.py:621-631 | The cap on failures in the promotion rule follows from the success rate it asks for. |
| Skills.DecayExactly | python_engine/cognitive_daemon.py:1315-1358 | A decay pass keeps a promoted skill if and only if it is younger than the maximal age and, with enough outcomes, meets the floor and a mean of 0.45. |
| Skills.DecayLooksAtOldest | python_engine/cognitive_daemon.py:1300-1312 | A pass looks at the 500 least recently used rows. |
| Skills.DemotedStaysDown | python_engine/cognitive_daemon.py:621-631 | A skill demoted for regression after n outcomes is not promoted again within n/2 further outcomes, whatever they are and whatever decay passes come in between. |
| Skills.HysteresisIsTight | python_engine/cognitive_daemon.py:838-861 | A history in which a skill is promoted by its third outcome, demoted for regression by its sixth, and promoted again after four more: one past the bound. |
| StuckLoop.AnalyzeStuckState | scripts/autonomous_computer_control_loop.py:559-720 | The analysis built on the five streak loops decides as the specification over the history does. |
| StuckLoop.StopsForTargetsExactly | scripts/autonomous_computer_control_loop.py:571-597 | The loop is stopped for missed targets if and only if the last four entries all missed. |
| StuckLoop.StopsForLoadingExactly | scripts/autonomous_computer_control_loop.py:599-634 | For loading if and only if the last two entries loaded the current screen, both were rechecks of it, and it is not ready. |
| StuckLoop.StopsForRepeatsExactly | scripts/autonomous_computer_control_loop.py:636-676 | For repeated actions if and only if four equal ones were made, the screen has not changed and a recovery came to nothing. |
| StuckLoop.StopsForStallExactly | scripts/autonomous_computer_control_loop.py:678-720 | For a stall if and only if five entries show the screen, none of the patterns applies and a recheck came to nothing. |
| StuckLoop.RecoversExactly | scripts/autonomous_computer_control_loop.py:599-720 | And when it recovers by itself instead. |
| StuckLoop.StreaksMean | scripts/autonomous_computer_control_loop.py:490-556 | Every streak counts the entries of its kind at the end of the history. |
| StuckLoop.RepeatsMeans | scripts/autonomous_computer_control_loop.py:527-545 | Repeated actions are counted behind the recoveries at the very end. |
| StuckLoop.ChangedScreenIsNotStuck | scripts/autonomous_computer_control_loop.py:559-720 | A screen that has just changed is neither recovered from nor stopped, unless four targets in a row were missed. |
| StuckLoop.RepeatedActionStreak | scripts/autonomous_computer_control_loop.py:527-545 | The backward loop counts equal planner actions on the current screen, skipping recoveries at the very end only. |
| StuckLoop.RunLoop | scripts/autonomous_computer_control_loop.py:1591-1757 | The decision loop computes history, status and number of decisions, at most 20 of them. |
| StuckLoop.LoopReplays | scripts/autonomous_computer_control_loop.py:1591-1757 | Every decision but the last leaves the entry of its recovery or of the planner's action and goes on; the last ends the loop for the reason its status names, or the turns are used up. |
| StuckLoop.FrozenScreenStops | scripts/autonomous_computer_control_loop.py:559-720 | Once five entries show a screen that never changes and is never ready, at most seven more decisions are made, whatever the planner does. |
| StuckLoop.SevenIsReached | scripts/autonomous_computer_control_loop.py:559-720 | A planner that gets seven. |
| StuckLoop.FrozenRunNeverExhaustsSteps | scripts/autonomous_computer_control_loop.py:1591-1640 | A loop that starts on a frozen screen stops by itself within 12 decisions, before its 20 steps are used up. |
| StuckLoop.ReadyScreenNeverStops | scripts/autonomous_computer_control_loop.py:599-617 | From the first turn on, on a screen that counts as ready a planner that goes on waiting is never stopped. |
| StuckLoop.NoSignatureNeverStops | scripts/autonomous_computer_control_loop.py:564-566 | Without a signature the loop never stops by itself. |
| LocalExecution.RunSegment | scripts/orion_local_worker_execution.py:2328-2606 | The operation loop of one segment ends in the specified world, rows and ending; its actions and errors are the visited operations by outcome, and together as many as the rows. |
| LocalExecution.SegmentVisits | scripts/orion_local_worker_execution.py:2287-2326 | A segment visits consecutive operations once each from its start up to the index it saves, or to the end. |
| LocalExecution.RowsAreTheCalls | scripts/orion_local_worker_execution.py:2467-2606 | Every operation of an uninterrupted run meets the world its predecessors left, its row says whether it failed, and the run stops at the first failure unless failures are tolerated. |
| LocalExecution.PauseResumePreservesMeaning | scripts/orion_local_worker_execution.py:2270-2345 | However often and wherever a run is paused at operation boundaries and resumed, it ends in the world, rows and ending of the run that was never paused, every operation visited once and in order. |
| LocalExecution.ResumedEnds | scripts/orion_local_worker_execution.py:323-348 | A run whose last segment is asked for no pause is over. |
| LocalExecution.ResumeIndex | scripts/orion_local_worker_execution.py:342-348 | The saved index is kept when valid and clamped to the operations otherwise. |
| LocalExecution.ResumesFromNewest | scripts/orion_local_worker_execution.py:323-348 | A run goes on at the index saved by its own checkpoint, else by its result's, else by its metadata's, else from the start. |
| SafetyLimiter.SafetyGuard.CheckAction | python_engine/agent_identity.py:356-385 | Approves and logs, refuses under the emergency stop, or refuses with a ticket when the window is full. |
| SafetyLimiter.SafetyGuard.CheckRateLimit | python_engine/agent_identity.py:387-406 | Allows if and only if fewer than the maximum were approved since the cutoff. |
| SafetyLimiter.CheckExactly | python_engine/agent_identity.py:356-423 | A check is refused under the stop, else when the approved actions inside the window have reached the maximum, 100 an hour by default; otherwise it is logged as approved with the time of logging, and nothing else changes. |
| SafetyLimiter.NoWindowOverflows | python_engine/agent_identity.py:387-423 | Over every sequence of checks, stops and releases no half-open window of the limit's length, placed anywhere in time, holds more approved actions of a niche and type than the maximum. |
| SafetyLimiter.ClosedWindowHoldsTwice | python_engine/agent_identity.py:393-401 | A window with both its ends holds at most twice the maximum, and more than the maximum only with an approved action exactly at its end. |
| SafetyLimiter.ClosedWindowReachesTwice | python_engine/agent_identity.py:393-401 | Twice the maximum is reached, for every limit. |
| SafetyLimiter.NothingApprovedWhileStopped | python_engine/agent_identity.py:447-478 | From an emergency stop until its release the log does not grow. |
| MemorySearch.CosineSimilarity | python_engine/memory_manager.py:159-171 | The sums computed by loops give the cosine score, 0 for empty, unequal or zero vectors. |
| MemorySearch.CauchySchwarz | python_engine/memory_manager.py:159-171 | The square of the product of two vectors is at most the product of their squares, at any length. |
| MemorySearch.CosineIsBounded | python_engine/memory_manager.py:159-171 | Every score lies between -1 and 1. |
| MemorySearch.SelfScore | python_engine/memory_manager.py:159-171 | A vector that is not zero scores 1 against itself. |
| MemorySearch.ScoreIsCosine | python_engine/memory_manager.py:159-171 | The law of cosines holds for the score: it is the cosine of the angle between the vectors. |
| MemorySearch.DotUnit | python_engine/memory_manager.py:165-165 | The product with a unit vector is the component there, so no component is skipped. |
| MemorySearch.NoScore | python_engine/memory_manager.py:160-170 | Empty, unequal and zero vectors score 0. |
| MemorySearch.Search | python_engine/memory_manager.py:173-224 | Answers with a descending arrangement of all scored rows, cut after k. |
| MemorySearch.AnswerIsTop | python_engine/memory_manager.py:208-224 | The answer has k rows or all, in descending order of score and time, and no row left out ranks above one in it. |
| MemorySearch.AnswerInFull | python_engine/memory_manager.py:203-224 | In plain terms: higher scores first, equal ones by the newer time, every hit a stored row with its cosine score, and only by time without a query. |
| MemorySearch.NegativeLimit | python_engine/memory_manager.py:206-224 | A negative limit leaves out so many at the end. |
| MemorySearch.MemoryStore.Upsert | python_engine/memory_manager.py:149-157 | Replaces the row of an id or adds it; every other row stays. |
| CookieHeader.UpsertCookieHeader | frontend/proxy.ts:83-97 | The loop that fills the map and the printing write the specified header. |
| CookieHeader.SetCookieWellFormed | frontend/proxy.ts:71-81 | Every name and value taken from a Set-Cookie header survives printing and parsing. |
| CookieHeader.SentIsReceived | frontend/proxy.ts:71-81 | The name and the value are those of the text as sent, whatever white space surrounds them and whatever attributes follow. |
| CookieHeader.NothingReceived | frontend/proxy.ts:71-81 | A text without a name before an equals sign in its first part yields no cookie. |
| CookieHeader.PrintedText | frontend/proxy.ts:94-96 | A printed header is the pairs `name=value`, separated by a semicolon and a blank. |
| CookieHeader.ParsePrinted | frontend/proxy.ts:83-97 | Parsing a printed cookie map gives it back: names, values and order. |
| CookieHeader.UpsertRoundTrip | frontend/proxy.ts:83-97 | For every header and Set-Cookie the new header parses to the old cookies with that one updated in place or appended. |
| CookieHeader.RefreshCookieHeader | frontend/proxy.ts:177-184 | The fold over all Set-Cookie headers, skipping those without a cookie. |
| CookieHeader.LastWriterWins | frontend/proxy.ts:177-184 | After all Set-Cookie headers every name has its last writer's value, all others keep theirs, and the cookies that were there keep their places. |
| CookieHeader.SentValuesArrive | frontend/proxy.ts:177-184 | The new Cookie header parses to exactly the values sent last; every other name keeps its value. |
| ContentPlan.ApplyVariation | scripts/orion_local_worker_content.py:44-145 | The first seven items come out with topics, calls to action and headlines pairwise different up to case and blanks, and whatever text was already new is kept. |
| ContentPlan.KeyOfWords | scripts/orion_local_worker_content.py:6-7 | The key of a text is its words in lower case with single blanks between: white space and case do not matter, and nothing else is lost. |
| ContentPlan.FirstFree | scripts/orion_local_worker_content.py:78-82 | The bump loop ends after at most one more round than there are used keys, at the first number whose text is unused. |
| ContentPlan.NumberedDistinct | scripts/orion_local_worker_content.py:6-7 | Texts that differ in the appended number differ in their keys, so no bump is wasted. |
| ContentPlan.FirstFreeAppended | scripts/orion_local_worker_content.py:121-127 | The headline loop, which lengthens what it made before, ends with an unused key too. |
| ContentPlan.VaryTopic | scripts/orion_local_worker_content.py:68-83 | The item's own topic, else a seed under an angle, else that with the first number that makes it unused. |
| ContentPlan.VaryCta | scripts/orion_local_worker_content.py:85-107 | The item's own call to action, else one of the cycle, and the numbered default only when the whole cycle is used up. |
| ContentPlan.CtaCycle | scripts/orion_local_worker_content.py:27-42 | The cycle is never empty, starts with the default and has no two calls to action with one key. |

## Left out

- Dependencies.OrderedAlong: takes `fail_event` as called only for an event that was not completed. In `run_daemon_loop` a status write that raises after `complete_event` has committed leads to `fail_event` on the same event (`python_engine/cognitive_daemon.py:4822-4850`); that step is not part of the state machine, so no theorem about runs covers it, and with it a done event could go back to the queue.
- Escalations.OpenMeansWaiting: the same step, after an escalating completion, would leave the escalation open with nothing waiting and no operator involved (`LateFailureLeavesOpen`); it is not part of the runs the theorem speaks about.
- Attempts.ClaimsAreBounded: an automatic approval is counted as such and not as an attempt saved; a second daemon on the same database is not modelled.
- Store.CognitiveStore.FailEvent: takes the failure class as an argument; sorting error texts into classes by their words is not modelled.
- Store.CognitiveStore.CompleteEvent: takes the verdict on the objective's contract as part of the tick; the single checks on status, action, flags, duration and confidence only feed that verdict.
- Store.CognitiveStore.IngestDueObjectives: one objective's intake is one step, with one clock reading; an operator's change between its reads and writes, which the code would overwrite, is not modelled.
- Store.CognitiveStore.EnqueueEvent: refusals of empty texts and wrong argument types happen before the database is touched and are not modelled; neither is the priority derived from an event's text.
- MemorySearch.Search: the square root is an argument with its defining property; rounding of the reported score is not modelled.
- LocalExecution.PauseResumePreservesMeaning: pauses fall on operation boundaries and nobody changes the world in between; pauses inside a screenshot or computer-control operation and browser checkpoints are not modelled, nor are hard interrupts.
- SafetyLimiter.SafetyGuard.CheckAction: calls come one after the other; ticket ids and signatures are not modelled.
- IntakeRuns.ServesByUrgency: objectives equal in effective priority, next run and creation time may be served in any order; the code keeps the order in which it read them.
- The autotuner's own rules: its answer is any set of constraints.
- Digests, risk flags, lessons, memory lines, skill replay and dispatch preferences: text that the state machines do not branch on.
- The daemon's status row, process ids, signals, polling and command line.
- The split of a `/orion run` text into plan steps, and of a combined Set-Cookie header, by regular expressions.
- ContentPlan.ApplyVariation: day, channel, format and status of an item are not modelled (days can repeat by design); letters beyond ASCII are not folded and blanks beyond Latin-1 not recognised.
- `normalize_content_plan_items`, which only fills in defaults (`scripts/orion_local_worker_content.py`).
- LanceDB, embeddings, signing, the control plane, the front end beyond the cookie refresh, and the certification and audit scripts.
