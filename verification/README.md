# A verified model of the reading backend and its content pipeline

The repository serves a daily session of code-reading exercises, keeps streaks and statistics, sends
reminder and recap mail, and generates new exercises with language models behind gates. This project
models the parts of it that are protocols, ledgers, searches or codecs, and proves what they promise on
every input, every run and every interleaving. `dafny verify dfyconfig.toml` checks all of it.

Code that works by changing things step by step is modelled in that form: classes whose methods update
fields, loops with invariants, each method proved equal to a specification function; the theorems are
about those functions. Code that several processes run at once is a transition system whose runs are
arbitrary sequences of events, with a crash possible between any two.

| module | what it models |
|---|---|
| `EmailDeliveries`, `SendOnce`, `SendOnceProgress`, `EmailDispatch` | the send-once mail ledger: the snapshot of a message, any number of sweep workers with a provider that forgets, and one sweep under interference |
| `PythonAst`, `Dedup`, `DedupCollisions`, `DedupVisitors` | the AST normal form used for deduplication, as a function and as the two visitors, and the programs it is sound for |
| `Streak`, `StreakOutcomes`, `StreakLedger`, `StreakRepair`, `StreakCounterfactual`, `StreakService` | the streak ledger: extend, reset, freeze, accrue, outage fill, clamp, repair |
| `Attempts`, `AttemptOutcomes`, `Recount`, `AttemptService`, `SubmitProtocol`, `SubmitReplay` | a submission with everything derived from it, the retry job, and concurrent submissions behind a cache, a reservation and a lock |
| `Sampler`, `SamplerGuarantees`, `SamplerOrder`, `SessionBuild` | the four-stage session sampler, and the first fetch of a day |
| `Generation`, `GenerationLaws`, `GenerationStories`, `GenerationRun` | the generate, repair and best-of-N loop over an arbitrary oracle |
| `EmailVerification`, `EmailOutcomes`, `EmailService` | email capture and verification |
| `WeeklyPeriods`, `Partitions` | ISO-week period keys, and monthly partition maintenance |
| `TokenBucket`, `AnswerKey`, `Base64Url`, `Unsubscribe` | the rate limiter, the answer-key shuffle, unpadded base64url and the unsubscribe token |
| `Basics`, `DecimalText` | optional values and decimal text |

## Findings

Where the code and what is said of it differ, the model follows the code, shows the case and proves when
the promise does hold.

- A retry refreshes `claimed_at`, so the retry window slides: three attempts can span almost two windows,
  and a provider memory of 24 hours does not exclude a second mail. `SendOnce.AtMostOneMailExactlyWhen`
  gives the retention that does; `SendOnce.ShippedSettings` instantiates it.
- `visit_arg` does not visit annotations, so the normal form of two equivalent programs is the same exactly
  when the renaming changes no name inside an annotation (`Dedup.EquivalentProgramsCollide`).
- A free name spelled like a canonical one can make different programs collide, but only where it stands in
  the place that name could have: `DedupCollisions.SoundExactlyWhenTame` gives the exact condition.
- After a backward time zone clamp a submission on a date that recurs is refused by the unique index and
  the request fails (`Streak.ClampBlocksSubmission`); `Streak.RefusedExactlyWhen` says exactly when, and
  with dates that do not decrease it never is (`Streak.ForwardRuns`).
- A repair does not always give the streak the unbroken run would have: the two runs earn freezes on different
  days, so one can bridge a later gap and the other not (`StreakCounterfactual.FreezesDiverge`).
  `StreakCounterfactual.RepairIsCounterfactual` gives the exact condition.
- When a day begins with an empty persisted row, the healing delete of one request can remove the row
  another has just committed, and two answers for the day disagree. Agreement holds exactly when the day
  does not begin so (`SessionBuild.AgreementExactlyWhen`).
- A request may hold a `daily_sessions` row loaded before it got the lock. `SubmitProtocol` lets that copy
  be arbitrarily old, and the serialization theorem shows that it does no harm.
- `ensure_next_month_attempts_partition` names next month's partition exactly when at most 72 months were
  missing (`Partitions.MaintenanceIsSafe`).

## Model

| member | source | states |
|---|---|---|
| EmailDeliveries.MessageFromPayload | backend/app/email/dispatch.py:72-94 | message to payload to message is the identity on everything but the idempotency key, which is never stored |
| EmailDeliveries.IdempotencyKeyInjective | backend/app/email/dispatch.py:61-69 | two ledger rows never share a provider key |
| SendOnce.OneSender | backend/app/email/deliveries.py:133-189 | over every interleaving of any number of workers with crashes anywhere, at most one worker holds a live claim on a (user, kind, period) |
| SendOnce.FrequencyCeiling | backend/app/email/dispatch.py:139-258 | for every period in every run: no more provider calls than claims, no more claims than the maximum, consecutive claims less than a window apart, and all calls carry one message under one key |
| SendOnce.SettledForever | backend/app/email/deliveries.py:192-258 | sent, skipped and abandoned-claimed are absorbing: no event ever claims such a period or calls the provider for it again |
| SendOnce.PayloadForever | backend/app/email/deliveries.py:261-309 | a stored payload is never overwritten |
| SendOnceProgress.SentMeansDelivered | backend/app/email/deliveries.py:192-258 | in every run a row is sent only if a mail of its period went out |
| SendOnceProgress.ClaimedExactlyWhen | backend/app/email/deliveries.py:163-189 | in every run a claim is admitted exactly when the period was never claimed, or its last session failed, with claims left and the last less than a window ago |
| SendOnceProgress.NeverConflicts | backend/app/email/dispatch.py:61-94 | in every run the provider never sees a key again with another body |
| SendOnceProgress.SessionSettles | backend/app/email/dispatch.py:139-258 | a claimable period whose session nobody interrupts makes one call with the stored message, or the one rendered now, and ends sent exactly when the provider had the key or took the mail and said so, else failed |
| SendOnce.AtMostOneMailExactlyWhen | backend/app/email/deliveries.py:163-189 | every run with prompt calls delivers at most one mail per period if and only if there is no second attempt or the provider remembers a key longer than (max - 1)(window - 1) plus the claim-to-call delay |
| SendOnce.ShippedSettings | backend/app/config.py:132-133 | with the shipped settings a 24 h provider memory can deliver twice, a 48 h one (plus the delay) cannot |
| EmailDispatch.Mailroom.RunSweep | backend/app/email/dispatch.py:97-261 | a sweep among other workers is a run of the transition system; what the worker did to the ledger falls into one part per candidate, each telling exactly the outcome reported, so `sent` is the number of rows it turned to sent, `skipped` of those it closed, `notClaimed` of its claims refused; attempts stay within the cap, and what is reported sent, skipped or abandoned is so in the ledger |
| EmailDispatch.Mailroom.Process | backend/app/email/dispatch.py:139-258 | one candidate: the outcome is accepted, nothing to send or failed exactly when this worker's record turned the row to sent, skipped or failed; not claimed exactly when the row was not claimable at the claim; unhandled when it was claimed, is still, and nobody holds it |
| EmailDispatch.SweepResult.Add | backend/app/email/dispatch.py:49-55 | each outcome moves exactly one counter |
| Dedup.EquivalentProgramsCollide | pipeline/dedup.py:66-127 | programs equal up to a bijection of bound names, literals within a kind and leading docstrings have one normal form if and only if no name inside an argument annotation changes |
| Dedup.NormalFormIsCanonical | pipeline/dedup.py:24-127 | for tame programs (no bound name in an argument annotation, and no free `_idi` where at least i bound names have been visited, of more than i in all) equal normal forms mean exactly: one program up to such a bijection |
| DedupCollisions.SoundExactlyWhenTame | pipeline/dedup.py:66-127 | soundness, exactly: a program is tame if and only if its annotations bind nothing and every tame program with its normal form is equivalent to it |
| DedupCollisions.Rival | pipeline/dedup.py:71-92 | every program whose annotations bind nothing has a tame one with its normal form that is equivalent only if the program was tame itself |
| DedupCollisions.FreeCanonicalNameCollides | pipeline/dedup.py:71-79 | the least instance: `x += x` and `x += _id0` collide and are not equivalent |
| Dedup.IdNameInjective | pipeline/dedup.py:71-74 | canonical names are distinct |
| Dedup.StripCommutes | pipeline/dedup.py:55-63 | stripping a docstring after the visit is visiting the stripped body |
| DedupVisitors.NameCollector.Visit | pipeline/dedup.py:24-52 | the collector gathers exactly the bound names |
| DedupVisitors.NormalizingTransformer.CanonicalName | pipeline/dedup.py:71-74 | names are numbered in the order of their first visit and keep their number |
| DedupVisitors.NormalizingTransformer.Visit | pipeline/dedup.py:66-118 | the transformer computes the normal form's visit, name map included |
| DedupVisitors.NormalizeAst | pipeline/dedup.py:121-127 | collecting and then transforming yields the normal form |
| DedupVisitors.IsDuplicate | pipeline/dedup.py:130-135 | a candidate is refused exactly when the digest of its normal form is in the pool |
| DedupVisitors.InPoolMeansEquivalent | pipeline/dedup.py:130-135 | with a digest that does not collide, a hash is in the pool exactly when some pool program is the candidate up to renaming, literals and docstrings |
| Streak.MissedDates | backend/app/streak/service.py:60-63 | the missed dates are exactly the days strictly between, in ascending order |
| Streak.MultipleIsModulo | backend/app/streak/service.py:142-144 | the milestone test of the ledger model is divisibility |
| Streak.CoverKeeps | backend/app/streak/service.py:84-127 | a covered gap costs one freeze per uncovered missed day, at most the cap in all, leaves every missed day with a row, and changes nothing but balance and ledger |
| StreakOutcomes.CoveredExactlyWhen | backend/app/streak/service.py:84-127 | a gap is covered exactly when there are days strictly between and those without a freeze_used row are no more than the balance and the cap; each costs one freeze |
| StreakOutcomes.SubmitComesTo | backend/app/attempts/service.py:210-265 | a submission does nothing on an active day, is refused on a day that has its transition, and else extends by one exactly when today is the first day, the next, or behind a gap that can be paid for, with its price and the milestone's freeze; otherwise it resets to one and leaves the balance |
| StreakOutcomes.OutageComesTo | backend/app/streak/service.py:170-203 | an outage fill writes a free row exactly for an active user's date without one |
| StreakOutcomes.GrantComesTo | backend/app/streak/service.py:211-258 | the grant is made exactly when none was and the balance is below it, and then the balance is it |
| StreakOutcomes.ReconcileComesTo | backend/app/jobs/streak_recon.py:36-76 | the last active date becomes the earlier of itself and the new local date, with a row exactly when it moves |
| Streak.LedgerSafety | backend/app/streak/service.py:84-258 | in every run on any dates: the streak never exceeds the record, the balance is in bounds and is what the rows add up to, and no date is frozen twice or has two transitions |
| StreakLedger.LedgerTellsAll | backend/app/streak/service.py:130-258 | after any run on any dates every row starts from the streak the row before it left, the streak is the one the last row left and the longest the highest any left; a freeze is earned directly after an extension to a milestone with room in the balance, and only then; the initial grant is made once |
| Streak.ForwardRuns | backend/app/attempts/service.py:225-265 | with dates that do not decrease no submission is refused, last_active is the last transition's date, and every day an extension skipped has a freeze_used row |
| Streak.RefusedExactlyWhen | backend/alembic/versions/0007_streak_event_unique.py:35-38 | after any run on any dates the index refuses a submission if and only if its day is not the last active one and an earlier submission of the run came on that day when it was not |
| Streak.RefusalStepsBack | backend/app/jobs/streak_recon.py:55-76 | a refusal takes a step back: the last active date is later than the day, or a clamp or a submission of the run took it back over the day |
| Streak.ClampBlocksSubmission | backend/app/jobs/streak_recon.py:55-76 | the least such run: after a backward clamp a submission on the day that recurs is refused by the unique index |
| StreakRepair.MarkerMatches | backend/app/streak/service.py:43-47 | a note holds the anchor of reset j if and only if it is the note of a repair of j: anchors of distinct ids never contain one another |
| StreakRepair.LatestResetIsLast | backend/app/streak/service.py:294-300 | on an ordered ledger the reset the query picks is the last one written, if it is in the window |
| StreakRepair.LatestTransitionIsLast | backend/app/streak/service.py:305-312 | the run the query picks is that of the last transition |
| StreakCounterfactual.RepairIsCounterfactual | backend/app/streak/service.py:392-464 | after a reset and whatever submissions, outage fills and grants follow, a repair inside the window is accepted, restores the value lost at the last reset plus the run since, and gives the streak of the run in which the reset had been an extension if and only if the last reset but one of the run as it went is the last reset of that other run |
| StreakCounterfactual.RepairWhenKept | backend/app/streak/service.py:392-464 | if no later submission resets the run as it went, the repair gives the value lost plus that run, and the record with it; if one of the two runs is never reset, the repair gives the unbroken streak if and only if neither is |
| StreakCounterfactual.FreezesDiverge | backend/app/streak/service.py:130-167 | with the shipped settings: the unbroken run earns on the day of the reset the freeze that bridges a later day, stands at eleven, and the repair restores two |
| StreakCounterfactual.RepairAfterDailySubmissions | backend/app/streak/service.py:273-286 | for every k, a reset, a submission on each of the next k days and a repair inside the window give (value lost) + 1 + k, and the record that goes with it |
| StreakRepair.EachResetRepairedOnce | backend/app/streak/service.py:313-322 | in every run on any dates each reset is repaired at most once |
| StreakOutcomes.RepairNeedsWindow | backend/app/streak/service.py:336-358 | without a reset inside the window every repair is refused |
| StreakOutcomes.RepairedIsRefused | backend/app/streak/service.py:313-322 | while a reset is the last, a repair of it already made refuses another |
| StreakService.UserStats.UncoveredDays | backend/app/streak/service.py:66-102 | the loop finds exactly the missed days without a freeze_used row |
| StreakService.UserStats.TryCoverGap | backend/app/streak/service.py:84-127 | all or nothing: the gap is paid for in full, or nothing is written or spent |
| StreakService.UserStats.AccrueFreezeIfEarned | backend/app/streak/service.py:130-167 | a freeze is granted exactly at a milestone below the cap |
| StreakService.UserStats.UpdateStreak | backend/app/attempts/service.py:210-265 | the transition equals its specification; a refusal by the index rolls everything back, freezes included |
| StreakService.UserStats.OutageFreeze | backend/app/streak/service.py:170-203 | one free row for an active user and an uncovered date, else nothing |
| StreakService.UserStats.GrantInitialFreezes | backend/app/streak/service.py:211-258 | the one-time grant raises the balance once and never lowers it |
| StreakService.UserStats.ReconcileForTimezoneChange | backend/app/jobs/streak_recon.py:36-76 | the clamp moves last_active back and writes its row, or does nothing |
| StreakService.UserStats.RepairStreak | backend/app/streak/service.py:392-464 | a repair restores what the ledger says, or refuses and changes nothing |
| Attempts.MasteryMoves | backend/app/attempts/service.py:155-169 | with half-even rounding to 0.001: mastery stays at most 0.999, a right answer raises it until there, a skip lowers it no more than a wrong answer |
| Attempts.RightAnswersSaturate | backend/app/attempts/service.py:167-169 | enough right answers bring any mastery to exactly 0.999 |
| AttemptOutcomes.MasteryFollows | backend/app/attempts/service.py:151-169 | mastery becomes 0.7 m + 0.3 after a right answer, 0.7 m after a wrong one, 0.85 m after a skip, to the nearest thousandth with ties to even |
| Recount.DerivedStateIsRecount | backend/app/attempts/service.py:128-265 | after any submissions, skips, pending grades and retry ticks, all counters, per type and per concept, are the counts over the attempts table, and mastery is at most 0.999 |
| Recount.TouchAllCounts | backend/app/attempts/service.py:142-183 | a verdict moves each concept's counters by how often the exercise lists it, and creates exactly the rows it needs |
| Recount.TallyUpdate | backend/app/jobs/grading_retry.py:97-113 | a row that changes moves each count by the difference of its weights |
| Recount.PendingSettles | backend/app/jobs/grading_retry.py:72-95 | a pending attempt is settled after three answers of the retry job at most, and a settled one never changes |
| AttemptOutcomes.RetryComesTo | backend/app/jobs/grading_retry.py:72-113 | one answer of the retry job grades the row, fails it, or counts a timeout of which the third fails it; settled rows stay |
| Recount.ReviewIntervals | backend/app/attempts/service.py:155-179 | a concept listed once comes up again after 1 day when skipped, 2 when wrong, 21 when right and the attempts table already holds a right answer to it, else 7 |
| AttemptService.AttemptStore.UpdateConceptState | backend/app/attempts/service.py:128-183 | the loop over concepts equals its specification |
| AttemptService.AttemptStore.UpdateCorrectnessStats | backend/app/attempts/service.py:186-207 | total_correct and the per-type counts move by this verdict |
| AttemptService.AttemptStore.RemainingCount | backend/app/attempts/service.py:268-284 | the number of slots whose exercise is not attempted today |
| AttemptService.AttemptStore.StoreAttempt | backend/app/attempts/service.py:527-580 | the transaction's whole effect and answer; a refused index leaves nothing |
| AttemptService.AttemptStore.ResolvePending | backend/app/jobs/grading_retry.py:49-116 | a tick equals its specification, and every row it handled is counted once |
| AttemptService.AttemptStore.ResolveOne | backend/app/jobs/grading_retry.py:72-113 | one row resolves, fails or counts its timeout, and no other row changes |
| SubmitProtocol.ConcurrentSubmitsSerialize | backend/app/attempts/service.py:311-384 | concurrent submissions of a day, whatever the cache forgets and whoever dies, are a sequential run in commit order: one row per exercise, total_attempts grows by the rows, one transition at most, completed_at set exactly when every slot is attempted |
| SubmitProtocol.EveryAnswerIsJustified | backend/app/core/idempotency.py:34-118 | a fresh answer is its own only commit, a replay repeats a committed answer with the same key and body, a conflict has a commit with another body, already_attempted has its row, and the index refused nothing |
| SubmitReplay.StoredIsReplayed | backend/app/attempts/service.py:311-367 | after any run, a call that looks up or polls a key under which a response was stored, and neither replaced nor expired since, is done: with that committed response when its body is the same, with a conflict when not; with nothing stored it goes on |
| SubmitReplay.CacheHolds | backend/app/core/idempotency.py:34-70 | the cache holds exactly the last response stored under a key that has not expired |
| SubmitReplay.RacingRetryWaits | backend/app/core/idempotency.py:72-118 | while no reservation of the key expires, a retry that misses the cache during the original's work waits |
| SubmitReplay.UndisturbedCallIsServed | backend/app/attempts/service.py:311-384 | wherever a run has come to, a call that nobody disturbs is given the answer of a submission on its own, stored, with its reservation released |
| SubmitReplay.AcceptedExactlyWhen | backend/app/attempts/service.py:395-482 | a submission is accepted exactly when its slot is in the session and known, the answer has the right shape, and the exercise is not attempted today |
| SubmitReplay.AnswerTellsWhatIsSo | backend/app/attempts/service.py:559-612 | the row, streak, remaining count and first completion an accepted call is told are those of the database |
| SubmitProtocol.CommitKeeps | backend/app/attempts/service.py:463-580 | a commit computed from older reads, and perhaps an older session row, is the next step of the sequential run |
| SubmitProtocol.EffectSound | backend/app/attempts/service.py:470-580 | under the lock a submission of an unattempted exercise is always accepted and keeps the day's records in step |
| SubmitProtocol.DayStartsInStep | backend/alembic/versions/0007_streak_event_unique.py:35-38 | the serialization theorem's hypothesis on the ledger holds on every later day of a run whose dates do not decrease |
| Sampler.PickIsPreferred | backend/app/sessions/sampler.py:121-162 | sorting, filtering twice and taking the head is one search: an unseen candidate before a seen one, then the smaller key, then pool order |
| Sampler.BossIsPreferred | backend/app/sessions/sampler.py:205-217 | the boss is the hardest preferred candidate at or above the target inside its window, failing that the hardest inside the window |
| Sampler.SomeWeakest | backend/app/sessions/sampler.py:183-190 | while in-band candidates are left there is a weakest concept to go on with |
| Sampler.BuildSessionSlots | backend/app/sessions/sampler.py:128-254 | the slots returned are those of a selection the four stages allow |
| Sampler.FillDueConcepts | backend/app/sessions/sampler.py:164-176 | the first stage equals its specification |
| Sampler.FillCurriculum | backend/app/sessions/sampler.py:178-198 | every step takes the best candidate of a weakest concept, until four are selected or none is left |
| Sampler.ChooseBoss | backend/app/sessions/sampler.py:200-224 | the boss stage equals its specification |
| Sampler.PadToFloor | backend/app/sessions/sampler.py:226-238 | the pad equals its specification |
| SamplerGuarantees.SamplerGuarantees | backend/app/sessions/sampler.py:128-254 | for every pool: distinct ids, numbered slots, at most one boss and last, between min(3, exercises) and 5 slots, out of band only when the band is used up and at most three slots, boss outside its window only when short and nothing fits, and the first four servable due concepts represented |
| SamplerGuarantees.DueRepresented | backend/app/sessions/sampler.py:164-176 | a due concept with an in-band exercise is represented if the slots could not fill up before its turn |
| SamplerOrder.SlotsServe | backend/app/sessions/sampler.py:128-254 | slot by slot, on difficulties and masteries alone: due concepts in their order, each by its in-band exercise nearest to the level; then concepts none on offer is known less well than, stopping short of four only when the band is used up; pads nearest to the level; the boss the hardest hard-enough one in its window, else the hardest in it, else, when short, nearest to the cap; an unseen exercise always before a recent one |
| SessionBuild.AgreementExactlyWhen | backend/app/sessions/service.py:264-293 | over every schedule of fetches, deaths and flushes all non-empty answers of the day equal the one persisted row, with one insert at most, if and only if the day does not begin with an empty row |
| SessionBuild.HealingBreaksAgreement | backend/app/sessions/service.py:283-293 | the schedule in which a healing delete removes a row another request has committed |
| SessionBuild.UndisturbedFetch | backend/app/sessions/service.py:171-293 | a fetch that nobody disturbs answers from the cache, else a non-empty row, else what it samples, which is persisted, in place of an empty row too, and cached exactly when there is something |
| SessionBuild.EmptyBuildLeavesNothing | backend/app/sessions/service.py:171-182 | over every schedule of a day on which nothing can be sampled: no row is inserted, no key cached that does not show a row the day began with, and a day that began without one answers empty throughout |
| Generation.SandboxRepairableIff | pipeline/repair.py:105-128 | a sandbox rejection may be repaired exactly when something failed and all that failed is repairable |
| GenerationLaws.BatchKeeps | pipeline/orchestrator.py:1008-1122 | over a whole batch: repairs attempted are repairs succeeded plus failed, in total and per check; calls within the budget of each spec; every published candidate passed all gates as published; published hashes pairwise distinct and new to the pool |
| GenerationLaws.NewBatch | pipeline/orchestrator.py:1070-1103 | a batch that starts from a fetched pool satisfies all of that |
| GenerationLaws.SpecPublishesBest | pipeline/orchestrator.py:878-941 | a spec's calls are exactly what it charged, within its maximum; of exactly the survivors those calls came to, all of which passed the gates, it publishes the first of maximal score, and pool, coverage and counters grow by it; another is pursued only while those before leave something to wish for, calls are left over only when none does, and without a survivor the whole budget is spent, the spec is given up and nothing is published |
| GenerationStories.SpecLosesNothing | pipeline/orchestrator.py:638-644 | every draft of every lineage of a spec is judged fairly by the gates and the pool; each one that passes all gates and is new to the pool is among the survivors collected, which are exactly those of the lineages; the receipts are exactly the rejections, a dedup one only for a hash in the pool |
| GenerationStories.LineageTold | pipeline/orchestrator.py:679-762 | a lineage goes on exactly as long as its draft is refused, a repair may be asked for (enabled, repairable, a new check, rounds and calls left) and one comes back; it ends with the draft that was not refused, or with none |
| GenerationLaws.LineageRepairs | pipeline/orchestrator.py:679-762 | no lineage repairs a fundamental rejection, one check twice, or more often than rounds and checks allow, and each repair is an attempt counted |
| GenerationLaws.BestIsFirstMaximum | pipeline/orchestrator.py:931 | no survivor scores higher, no earlier one as high |
| GenerationRun.Orchestrator.RunLineage | pipeline/orchestrator.py:679-762 | the loop with its rounds, triggered checks and open repair equals the specified lineage |
| GenerationRun.Orchestrator.CollectSurvivors | pipeline/orchestrator.py:903-926 | the generation loop equals its specification |
| GenerationRun.Orchestrator.PublishSurvivor | pipeline/orchestrator.py:931-940 | the best survivor is published, counted and added to the pool |
| GenerationRun.Orchestrator.ResolveSpec | pipeline/orchestrator.py:878-941 | one spec equals its specification, coverage included |
| GenerationRun.Orchestrator.RunBatch | pipeline/orchestrator.py:1077-1114 | the batch loop equals its specification |
| EmailVerification.EmailSafety | backend/app/email/service.py:142-376 | in every sequential run: at most one outstanding token per user and it is for the pending address; an address is set exactly when verified and was carried by a consumed token of that user; addresses unique across live accounts |
| EmailVerification.VerifyPromotesPending | backend/app/email/service.py:274-351 | a verification that succeeds is by an outstanding, unexpired token of the account that asked, promotes its pending address, and touches no other account |
| EmailOutcomes.VerifyAcceptedExactlyWhen | backend/app/email/service.py:274-351 | in every run a link is accepted exactly when the account is active, the token its own, outstanding and unexpired, and no other account holds the address; and what that leaves |
| EmailOutcomes.RequestAcceptedExactlyWhen | backend/app/email/service.py:213-248 | a request is accepted exactly when the account is active, the address not its own already, and throttle, mail and digest go well; then the new token is the only one outstanding |
| EmailOutcomes.ResendAcceptedExactlyWhen | backend/app/email/service.py:251-271 | a resend is accepted exactly when an address is pending and all goes well, and is for that address |
| EmailOutcomes.AddressCanBeProved | backend/app/email/service.py:213-351 | an active account that asks for a free address and uses the link in time comes to hold it |
| EmailVerification.DeleteIsFinal | backend/app/email/service.py:354-376 | no token issued before a delete can ever put an address back |
| EmailVerification.PromoteUnique | backend/alembic/versions/0009_user_email.py:47-53 | a promotion the partial unique index allows keeps verified addresses unique |
| EmailService.AccountStore.InvalidateOutstanding | backend/app/email/service.py:142-158 | exactly the user's outstanding tokens are stamped |
| EmailService.AccountStore.IssueAndSend | backend/app/email/service.py:161-203 | a new token and a pending address, or, if the send fails, nothing |
| EmailService.AccountStore.RequestEmail | backend/app/email/service.py:213-248 | request equals its specification, refusals in the source's order |
| EmailService.AccountStore.ResendVerification | backend/app/email/service.py:251-271 | resend equals its specification |
| EmailService.AccountStore.VerifyEmail | backend/app/email/service.py:274-351 | verification equals its specification; a uniqueness conflict undoes the whole transaction |
| EmailService.AccountStore.DeleteEmail | backend/app/email/service.py:354-376 | all three fields cleared and all outstanding tokens dead together |
| WeeklyPeriods.IsoWeekIs | backend/app/email/deliveries.py:321-329 | a date lies in the ISO year it is given and its week counts from that year's first Monday |
| WeeklyPeriods.Week53Check | backend/app/jobs/weekly_email.py:93-94 | the range check for a week 53 passes exactly for years that have one |
| WeeklyPeriods.Jan1Closed | backend/app/email/deliveries.py:321-329 | the closed form for the first day of a year agrees with adding up the years |
| WeeklyPeriods.KeyRoundTrip | backend/app/jobs/weekly_email.py:90-95 | parsing a date's key back gives the Monday of its week, for every date |
| WeeklyPeriods.KeyNamesTheWeek | backend/app/email/deliveries.py:321-329 | keys are equal exactly for dates of one week |
| WeeklyPeriods.ReportedWeeksTile | backend/app/email/recap.py:72-81 | the recap of a date's key reports a day exactly when the day is in the week before |
| WeeklyPeriods.EveryDayReportedOnce | backend/app/email/recap.py:72-81 | a day is reported under exactly one key |
| WeeklyPeriods.OneSendDatePerKey | backend/app/jobs/weekly_email.py:71-85 | with one send weekday there is one send date per key |
| Partitions.StartNext | backend/app/jobs/partitions.py:51-61 | a month's partition ends on the day the next begins |
| Partitions.MaintenanceIsSafe | backend/app/jobs/partitions.py:161-198 | no attempt lost or duplicated, ranges distinct and rows in their own partition, no default row inside an attached range; the months afterwards are those before and the missing ones in order through next month, or the first 72 of them, and the last of these is named, which is next month exactly when at most 72 were missing |
| Partitions.RangesDisjoint | backend/app/jobs/partitions.py:99-158 | partitions of distinct months hold disjoint days |
| Partitions.AttemptsTable.CreatePartitionForMonth | backend/app/jobs/partitions.py:99-158 | direct creation and draining come to the same specified table |
| Partitions.AttemptsTable.EnsureNextMonth | backend/app/jobs/partitions.py:161-198 | the job equals its specification, name included |
| TokenBucket.Bucket.Check | backend/app/core/ratelimit.py:26-77 | the script's new key and answer equal their specification |
| TokenBucket.BurstBound | backend/app/core/ratelimit.py:26-53 | from any state, calls allowed within T seconds number at most limit + T limit / window |
| TokenBucket.FullAfterRest | backend/app/core/ratelimit.py:26-53 | a new caller, and one who rested for a window, can make exactly `limit` calls at once |
| TokenBucket.PacedCallerPasses | backend/app/core/ratelimit.py:36-46 | a caller who lets a token come back between calls is never refused again |
| TokenBucket.RemainingIsTrue | backend/app/core/ratelimit.py:47-77 | `remaining` is the number of further calls that would pass at that moment |
| TokenBucket.RefillInRange | backend/app/core/ratelimit.py:36-46 | tokens stay between 0 and the limit |
| TokenBucket.ExpiryUnobservable | backend/app/core/ratelimit.py:51 | no caller can tell an expiring key from one that never expires |
| TokenBucket.RetryAfterIsExact | backend/app/core/ratelimit.py:40-49 | after a refusal an idle caller is let through once retry_after is over, and not before |
| AnswerKey.AnswerKeySurvives | pipeline/publish.py:122-183 | for every permutation: ids dealt out one to one among themselves, the correct id shows the captured output, every distractor keeps text and misconception |
| AnswerKey.NotesFollow | pipeline/publish.py:186-192 | the notes name exactly the new distractors and each stands by the choice it was written for |
| AnswerKey.Reassign | pipeline/publish.py:155-183 | the shuffle is a permutation in place, and choices, key and remap are those of the shuffled entries |
| AnswerKey.RemapWhyWrong | pipeline/publish.py:186-192 | every note's id is remapped in place, nothing else changes |
| Base64Url.RoundTrip | backend/app/auth/tokens.py:27-33 | unpadded base64url decodes to the original for every byte string and never contains a dot |
| Base64Url.UnpaddedIs | backend/app/email/unsubscribe.py:51-52 | stripping the padding leaves exactly the letters |
| Unsubscribe.TokenRoundTrip | backend/app/email/unsubscribe.py:67-113 | a minted token parses to its user and kind under every later list of secrets that still holds the minting one, if the library reads ASCII and str(uuid) back |
| Unsubscribe.AcceptedExactlyWhen | backend/app/email/unsubscribe.py:75-113 | a token is accepted, for a user and kind, exactly when it is two parts joined by a dot, the first naming them and the second its digest under a configured secret |
| Unsubscribe.UuidRoundTrip | backend/app/email/unsubscribe.py:71-102 | a user id's text holds no colon and reads back by its digits alone |
| Unsubscribe.PlainLibraryOk | backend/app/email/unsubscribe.py:99-102 | reading ASCII and dashed digits is enough for the round trip |
| Unsubscribe.VerifyMac | backend/app/email/unsubscribe.py:93-96 | the loop over secrets finds a match exactly when there is one |
| Unsubscribe.ParseToken | backend/app/email/unsubscribe.py:75-113 | parsing equals its specification, for any UTF-8 decoder and uuid reader |

## Left out

- The language models, prompts, sandbox and its difference of lines, the mail provider's HTTP, OAuth and error reporting: oracles or parameters.
- SQL and ORM mechanics: tables are maps and sequences, a transaction's commit is one step, an advisory lock a mutex.
- Hashing and HMAC: any function (the deduplication digest is assumed not to collide only in `InPoolMeansEquivalent`).
- Real time zones: local dates are inputs, as day numbers.
- Floating point: difficulties, masteries in the sampler and tokens are reals.
- EmailDispatch.Mailroom.RunSweep: pacing between sends, `last_error` texts and log lines are not modelled; eligibility and message templates are inputs.
- SendOnce.FrequencyCeiling: claim stamps follow the order of the claims; a database stamps a claim with the start of its transaction, so two claims that overlap may carry stamps slightly out of order.
- SendOnce.AtMostOneMailExactlyWhen: a provider that remembers longer than promised is allowed to; when it forgets early is not.
- Dedup.NormalFormIsCanonical: parsing, and unparsing of a tree to text, are not modelled; the hash is taken of the tree. Names in `global`, `nonlocal`, `except ... as` and imports are part of a node's tag, as the visitors do not rewrite them.
- DedupVisitors.NormalizingTransformer.Visit: nodes are rebuilt, not rewritten in place; no tree shares a node.
- StreakCounterfactual.RepairIsCounterfactual: between the reset and the repair dates do not step back, so no time zone clamp applies, and no other repair is made.
- StreakRepair.EachResetRepairedOnce: note texts other than the anchors are assumed to hold no square brackets, as those the code writes.
- Recount.DerivedStateIsRecount: an exercise version is taken to keep its type and concepts; percentile statistics, the projection to ratios and time taken are not modelled.
- SubmitProtocol.ConcurrentSubmitsSerialize: one user and one local day; the session of the day exists and is not purged; the retry job and repairs run at other times; the rate limit in front is `TokenBucket`.
- AttemptService.AttemptStore.ResolvePending: the rows a tick selects are an argument, as the query does not order them.
- SessionBuild.AgreementExactlyWhen: purges after an exercise is pulled are not part of the runs; the sampled list is an input.
- GenerationLaws.BatchKeeps: the derived predict_the_fix exercises, token usage, costs and the choice of a spec are not modelled; a generation call is one call even when its answer is asked for again as JSON.
- EmailVerification.EmailSafety: requests run one after the other, and the send throttle is an input.
- Partitions.MaintenanceIsSafe: a table of a month's name that is not attached is taken not to exist.
- AnswerKey.AnswerKeySurvives: ids are numbers in the order of the letters they stand for.
- UTF-8 decoding and `uuid.UUID` are library calls: parameters of the token parser, asked only to read ASCII and str(uuid) back.
- Refresh-token families, entitlements, disputes, reviews, invites, admin metrics, quality and rubric scores, gate regular expressions, address syntax, settings, scripts and the frontend: no hard state.
