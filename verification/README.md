# MacQuiz: a verified model

A Dafny model of the quiz and attempt lifecycle of MacQuiz and of five self-contained protocols beside it,
with proofs of what they promise over whole runs. The server is Go over PostgreSQL; the browser client is
TypeScript. `dafny verify dfyconfig.toml` checks everything.

## What is modelled

**The lifecycle** is one transition system over the tables: quizzes with their versions, audience and
statistics, attempts with their answers, the append-only event log, the audit rows and one clock.

- `Schema` holds the tables and the queries the transactions share. A row's id is its index, since
  attempts and quizzes of the model are never deleted.
- `Transactions` gives each transaction as a function of the state it finds. Row locks make each one an
  atomic step.
- `Store` is the services and the worker as they run: one object whose methods read, check and write the
  tables statement by statement, loops included. Every method's contract is the transaction it implements,
  on the whole database.
- `Runs` interleaves any transactions of anybody, the worker's statements and the clock, from an empty
  database; a worker pass is one such run.
- `StudentEffects`, `TeacherEffects` and `WorkerEffects` say, transaction by transaction and in terms of the
  tables alone, what is answered and exactly when, which rows and events are written, and that everything
  else stays.
- `EventLog`, `RowInvariant` and `RowsKept` prove that every attempt row agrees with the fold of its
  events, whatever the run. `Windows` proves deadlines, open attempts and numbering quiz by quiz, `Slots` the
  attempt limit. `RowMoves` shows that rows only make nine guarded moves, from which `Answers`, `Punctual`,
  `Moderation` and `ReviewRuns` follow. `Rescheduling`, `TwoOpen`, `LateAnswers` and `LatePublish` are about
  publishes that find attempts.
- `Reachable` states the results for every reachable state. `SweepFixpoint`, `GradingOrder`, `LazyStatus`,
  `RollupFrozen` and `Closing` are about the worker pass, the derived status, the frozen statistics and the
  end of a quiz.

**Grading and statistics**: `Json`, `Grading`, `Validation`, `Review`, `Statistics`, `Averages`, `Rollup`,
`Integrity`. **Sessions**: `Sessions` is the refresh-token table, `Tabs` the browser's tabs, cookie jar and
Web Lock in front of it, `TabsUnguarded` what happens without its conditions.
**Throttles**: `RateLimit` and `Coalescer`. **Order**: `QuestionOrder` and `AuditPages`. **Gateway**: `Gateway`.

## Where the promise fails

Each of these is a property that the code does not have everywhere, with the exact condition.

- *Publishing after the start.* `Publish` gates on the stored status, `Start` opens on the clock. Between
  the start of a window and the sweep that stores it, a quiz can be rescheduled under the students taking
  it. Each promise then has its own condition, on the attempts that a successful publish finds on the quiz:
  - No deadline is ever shortened and no passed one moved: exactly when the new window harms no running
    attempt (`Rescheduling.DeadlinesSafeIff`, `Windows.Harmless`).
  - No student ever has two unexpired attempts: exactly when the new window overlaps no two running attempts
    and can revive none beside a new one (`TwoOpen.OneOpenFromIff`, `TwoOpen.CanMakeTwo`).
  - No answer is ever past its deadline and grace: exactly when the new window covers every running attempt,
    the answers it holds and those it can still take (`LateAnswers.NeverLateFromIff`,
    `LateAnswers.BudgetCovers`).
  - No attempt is ever left running on a draft, or without its student assigned: exactly when none is
    running (`Rescheduling.NeverStrandedIff`).
  - Every running attempt is on a quiz that has opened, with its deadline the budget clamped to the window:
    kept by the publish itself exactly when none is running (`Windows.PublishKeepsIff`).
  - No student ever has more attempts than the limit and their readmissions: exactly when every student on
    the quiz still fits a limit of one (`Slots.SlotsKeptIff`).

  But for the clamp, each statement is about everything that can follow the publish, later publishes of the
  quiz meeting the same condition. Over whole runs each promise holds when every publish of the quiz that
  succeeds meets its condition: `Punctual.ExpiredStaysExpired`, `TwoOpen.OneOpenAlways`,
  `LateAnswers.AlwaysInTime`, `Punctual.AlwaysAssigned`, `Reachable.DeadlinesAreClamped`, `Slots.SlotsAlways`.
  A window that harms no running attempt meets the second and third conditions too
  (`TwoOpen.HarmlessIsOneCareful`, `LateAnswers.HarmlessIsLateCareful`). `LatePublish` reaches, by careful runs,
  publishes that break each promise. Nothing about logs, rosters, audit rows, scores, numbering, window shapes,
  derived statuses or what is recorded of an attempt while it ran needs an assumption.
- *Readmission after grading.* The design lets a teacher readmit a kicked student. The gate is
  `status = 'kicked'`, and grading, which a kick itself enqueues, moves the status to graded: from then on
  readmission is refused (`Moderation.ReadmitGrantsIff`, `Moderation.ReadmitRefusedAfterPass`).
- *Cleared answers.* A cleared answer keeps a row without a response, and the result page fails to decode
  it (`Review.GradedAttemptReviewableIff`).
- *The disconnected flag.* Each socket's latch starts clear, so a student who comes back on a new socket
  stays flagged (`Gateway.HeartbeatLeavesAwayIff`).
- *Repeated keys.* `sameKeySet` is set equality only for keys without repetition
  (`Grading.KeyComparisonIsSetEqualityIff`); validation guarantees that.
- *Stored against derived status.* `Archive`, `Publish` and, for an emptied audience, `SetAssignments`
  answer differently before and after a sweep, exactly as the `LazyStatus` lemmas say.
- *Tabs.* Reuse detection stays quiet under the lock as long as no reply is lost whose cookie the jar is
  waiting for; any other reply can be lost (`Tabs.LossKeepsInvIff`, `Tabs.OnlyCookiesAreMissed`). After such a
  loss, the next refresh revokes the family exactly when the thirty seconds of grace are over
  (`TabsUnguarded.LossRevokesIff`), and so does the second of two tabs that skip the lock
  (`TabsUnguarded.SkippedLocksRevokeIff`).

## Model

| member | source | states |
|---|---|---|
| Reachable.RosterIsFoldOfLog | server/internal/quiz/live.go:55-212 | In every reachable state each roster row read from the tables equals the fold of the append-only events of the student's highest-numbered attempt: roster state with the permanent kick and the disconnected flag, answered count, current question, violation count, per-type tallies; a student without attempts shows as not started. |
| Reachable.LifecycleIsRecordedOnce | server/internal/attempt/service.go:533-573 | For any interleaving of submit, both sweeps, ladder, kick and grading: one started event first, exactly one submitted or kicked event (of the row's own kind) iff the attempt has left in progress, exactly one graded event iff it is graded, and nothing else of the lifecycle after the terminal event; no events about attempts that do not exist. |
| Reachable.LadderAndScoreBounds | server/internal/attempt/service.go:870-888 | Under auto-submit at m the count never passes m and a running attempt is strictly below it; a score exists iff the attempt is graded and lies between 0 and the maximum of the pinned version. |
| Reachable.LadderFiresAtTheThreshold | server/internal/attempt/service.go:870-880 | In every reachable state a report ends an attempt under auto-submit exactly when it is the counted report that brings the tally to the threshold. |
| Reachable.CountIsTheEvidence | server/internal/attempt/service.go:822-846 | The violation count is the number of logged reports whose type the pinned policy counts, and no report of a disabled guardrail is ever logged. |
| Reachable.AuditMatchesMarks | server/internal/attempt/service.go:606-614 | Kick, readmit and override audit rows: exactly one per attempt bearing the mark, none for any other, and equal totals, in every reachable state. |
| TwoOpen.OneOpenAlways | server/internal/attempt/service.go:226-241 | On every run whose successful publishes of the quiz can give nobody two: no student of the quiz ever has two unexpired attempts, and every attempt on it has started by now. |
| Reachable.OneOpenAtATime | server/internal/attempt/service.go:226-241 | The same, pair by pair: two unexpired in-progress attempts of a student on the quiz are one and the same. |
| TwoOpen.HarmlessIsOneCareful | server/internal/quiz/lifecycle.go:111-113 | Runs whose publishes harm no running attempt are among these. |
| Reachable.DeadlinesAreClamped | server/internal/attempt/service.go:255-262 | On every run whose publishes of the quiz find none running: every running attempt is on a quiz that has opened, and while that is scheduled or live its deadline is min(start + duration, window end). |
| Slots.SlotsAlways | server/internal/attempt/service.go:242-255 | On every run whose publishes of the quiz find no student beyond the smallest limit: attempts at most max_attempts plus readmissions, for every student. |
| Slots.SlotsKeptIff | server/internal/quiz/lifecycle.go:111-113 | After a publish, the slot bound holds through every careful run exactly when every student on the quiz still fits a limit of one. |
| Slots.LoweredLimitBreaksBound | server/internal/quiz/lifecycle.go:323-380 | Otherwise cancelling the publish and lowering the limit leaves a draft with more attempts than it allows. |
| Slots.StartKeeps | server/internal/attempt/service.go:242-255 | A start takes a slot only where one is left. |
| Reachable.NumbersAreOneToCount | server/internal/attempt/service.go:246-262 | Attempt numbers of a student on a quiz are exactly 1 to the count, none twice. |
| Reachable.NumberedAlways | server/internal/attempt/service.go:246-262 | Attempt numbering is dense in every reachable state, with no assumption on the run. |
| Reachable.LatestIsHighest | server/internal/quiz/live.go:92-97 | The attempt the roster joins is the one with the highest number, which is the attempt count. |
| Answers.AnswersAlwaysOk | server/internal/attempt/grade.go:121-197 | In every reachable state: only questions of the pinned version are answered, the cursor is the place of an answered question, marks exist only on responses of graded attempts, and a graded attempt's score is the score of the responses on record unless overridden to zero. |
| Answers.ScoreSurvivesMarking | server/internal/attempt/grade.go:174-180 | Marking the answers does not change the score they would be given again. |
| Punctual.AlwaysRecorded | server/internal/attempt/service.go:1048-1069 | In every reachable state: every answer was saved after the start, by now and before the submission, the submission fits the status, and a manual submission came by the deadline and its five-second grace. |
| LateAnswers.AlwaysInTime | server/internal/attempt/service.go:1048-1069 | On every run whose successful publishes of the quiz cover every running attempt: every answer was also saved by the deadline and grace as they now stand. |
| LateAnswers.HarmlessIsLateCareful | server/internal/quiz/lifecycle.go:111-113 | Runs whose publishes harm no running attempt are among these. |
| Punctual.AlwaysAssigned | server/internal/quiz/lifecycle.go:655-690 | On every run whose publishes of the quiz find none running: every attempt in progress belongs to a student assigned to it. |
| Punctual.ExpiredStaysExpired | server/internal/quiz/lifecycle.go:442-449 | Between any two states of a run whose publishes of the quiz harm no running attempt, no deadline moves earlier and the deadline of an expired attempt does not move at all. |
| Punctual.AssigningStrandsNobody | server/internal/quiz/lifecycle.go:655-690 | Replacing the audience never leaves an in-progress attempt without an assigned student, where attempts run only on opened quizzes. |
| RowMoves.ApplyMoves | server/internal/attempt/service.go:485-768 | Whatever transaction runs, in whatever state, attempt rows move only by nine guarded moves and at most one row is started. |
| RowMoves.VersionsAreWriteOnce | server/internal/quiz/lifecycle.go:141-162 | No run ever rewrites a published version, so what an attempt pinned is fixed for good. |
| Moderation.FirstTerminationStands | server/internal/attempt/service.go:636-657 | Along every run a row never returns to in progress, and from its terminal transition on its kind, time, responses, violations and deadline are fixed; a graded score changes only to an override's zero. |
| Moderation.ReadmitGrantsIff | server/internal/attempt/service.go:670-712 | A readmission grants its student one slot, and nobody else anything, exactly when the attempt is kicked, ungraded and not yet readmitted. |
| Moderation.ReadmitTwiceIsOnce | server/internal/attempt/service.go:690-707 | A repeated readmission changes nothing. |
| Moderation.ReadmitOpensOneSlot | server/internal/attempt/service.go:242-255 | A student refused by the attempt limit starts after a readmission, and the limit is exhausted again by that start. |
| Moderation.ReadmitRefusedAfterPass | docs/06-attempt-lifecycle.md:93 | Against the documented promise: after any worker pass every readmission is refused, because grading replaces the status the gate reads. |
| Moderation.GradedKickCannotBeReadmitted | server/internal/attempt/service.go:681-685 | The same attempt, before and after grading: readmittable, then refused as never kicked, while its kind still says kicked. |
| Runs.PassIsARun | server/internal/worker/worker.go:134-181 | A worker pass is a run of its individual transactions, so every run property holds through a pass and through one that stops half way. |
| Runs.RowsHoldAlways | server/internal/attempt/events.go:189-200 | The row invariant (agreement with the log, shape, ladder, evidence, score, audit marks) holds of every attempt in every reachable state. |
| Runs.WindowsHoldOnCarefulRuns | server/internal/quiz/lifecycle.go:442-449 | The window invariant of a quiz, at each of three strengths, holds in every state of a run whose successful publishes of that quiz find what that strength assumes. |
| Runs.ShapesAlways | server/internal/quiz/lifecycle.go:1031-1046 | In every reachable state a scheduled or live quiz has a window that ends after it starts, and a live one has reached its start. |
| Windows.PublishKeepsIff | server/internal/quiz/lifecycle.go:100-221 | A successful publish keeps the invariant exactly when the attempts it finds are as assumed: harmed by the new window in no case, none running, or none at all. The promises themselves are in Rescheduling, TwoOpen and Slots. |
| Windows.UpcomingIsEmpty | server/internal/quiz/lifecycle.go:318-321 | A draft, or a scheduled quiz before its start, has no attempts where publishes find none, and none running where they find none running. |
| Windows.ExtendOnlyHelpsOpenAttempts | server/internal/quiz/lifecycle.go:442-449 | An extension never moves a deadline earlier, never touches an expired attempt, and changes nothing of a row but its deadline. |
| Windows.StartKeeps | server/internal/attempt/service.go:226-271 | Starting keeps one open attempt and puts the new one inside the window. |
| Windows.ExtendKeeps | server/internal/quiz/lifecycle.go:400-469 | Extending keeps one open attempt and clamps every running deadline to the new window. |
| Windows.CancelKeeps | server/internal/quiz/lifecycle.go:323-380 | Cancelling keeps the window invariant at each strength. |
| Rescheduling.DeadlinesSafeIff | server/internal/quiz/lifecycle.go:111-113 | After a publish, no later deadline of the quiz is shortened, and no passed one moved, between any two states of any careful run, exactly when the new window harms no running attempt. |
| Rescheduling.ExtensionHurts | server/internal/quiz/lifecycle.go:442-449 | Otherwise there is a time and an extension at which a deadline moves earlier, or moves after it has passed. |
| LateAnswers.NeverLateFromIff | server/internal/quiz/lifecycle.go:111-113 | After a publish, no careful run leaves an answer past its deadline and grace exactly when, for every running attempt, the new budget and grace cover every answer it holds, and its deadline is within the budget, or the new window ends by then, or its grace is over. |
| LateAnswers.HeldAnswerGoesLate | server/internal/quiz/lifecycle.go:442-449 | An answer already past the new budget and grace is late after waiting for the start and extending. |
| LateAnswers.NewAnswerGoesLate | server/internal/attempt/service.go:1048-1069 | Where the old deadline still lets an attempt save past the new budget, such an answer is late after an extension. |
| Rescheduling.NeverStrandedIff | server/internal/quiz/lifecycle.go:111-113 | After a publish, no careful run leaves an attempt running on a draft, and none leaves one without its student assigned, exactly when the publish finds none running. |
| Rescheduling.CancelStrands | server/internal/quiz/lifecycle.go:323-380 | With one running, cancelling at once leaves it running on a draft. |
| Rescheduling.RemovalStrands | server/internal/quiz/lifecycle.go:655-690 | With one running, replacing the audience is not refused and leaves it running without its student assigned. |
| TwoOpen.OneOpenFromIff | server/internal/quiz/lifecycle.go:111-113 | After a publish, no run whose later publishes meet the same condition gives a student two unexpired attempts exactly when no two running attempts of one student both have budget past the new start, and none that expires inside the new window with budget left belongs to a student who can still be given a slot. |
| TwoOpen.RunningTakesASlot | server/internal/attempt/service.go:242-255 | A running attempt takes a slot that is neither spent nor granted again. |
| TwoOpen.ExtensionRevivesAtMostOne | server/internal/quiz/lifecycle.go:442-449 | Where neither can happen, an extension leaves at most one of two running attempts unexpired. |
| LatePublish.LatePublishRevivesAnExpiredAttempt | server/internal/quiz/lifecycle.go:111-113 | A concrete run in which a publish after the start leads to two unexpired attempts of one student and moves a passed deadline from 160 s to 410 s. |
| LatePublish.LatePublishBreaksPromises | server/internal/quiz/lifecycle.go:111-113 | A state that careful publishes reach, and a publish in it after which the deadline, draft, audience and one-open-attempt promises each fail on some careful run. |
| LatePublish.LatePublishBreaksSlotBound | server/internal/quiz/lifecycle.go:111-113 | A state that slot-careful publishes reach, and a publish in it after which a cancel and a lower limit leave two attempts where one is allowed. |
| LatePublish.LatePublishLeavesALateAnswer | server/internal/quiz/lifecycle.go:111-113 | A careful run, a publish after it and an extension: an answer of 150 s ends up against a deadline of 140 s. |
| SweepFixpoint.PassReachesFixpoint | server/internal/worker/worker.go:134-181 | From every reachable state one pass reaches a state with nothing due, everything on a closed quiz graded, released and rolled up; a second pass at that moment changes no row and appends no event; a pass is idle iff the state is settled. |
| SweepFixpoint.PassKinds | server/internal/attempt/scheduler.go:60-81 | A pass writes auto exactly on attempts past deadline and grace and forced only on attempts inside them on a quiz effectively closed, and grades each on its pinned version in the same pass. |
| SweepFixpoint.PassedAttempts | server/internal/worker/worker.go:134-160 | Every attempt row after a pass, as a function of the row before it and the swept quizzes. |
| GradingOrder.GradingOrderDoesNotMatter | server/internal/attempt/grade.go:54-87 | Grading any list that holds every ungraded attempt, in any order and with repetitions, gives the same rows and the same per-attempt streams as the pass. |
| LazyStatus.DerivedIsSweptIff | server/internal/quiz/lifecycle.go:1031-1046 | The derived status is the one the sweep stores, except exactly for a scheduled quiz past its start without an end. |
| LazyStatus.DerivedIsSweptOnRuns | server/internal/quiz/lifecycle.go:1031-1046 | No run reaches that exception: in every reachable state the derived status of every quiz is the one the sweep stores. |
| LazyStatus.EarlierSweepIsInvisible | server/internal/quiz/scheduler.go:58-79 | A sweep at an earlier time never changes the status derived, or swept, at a later one. |
| LazyStatus.DerivedOnlyAdvances | server/internal/quiz/lifecycle.go:1031-1046 | The derived status never goes back as time passes. |
| LazyStatus.StartCannotTell | server/internal/attempt/service.go:213-224 | Start gives the same answer with and without a sweep just before, and the same tables after the next. |
| LazyStatus.ExtendCannotTell | server/internal/quiz/lifecycle.go:420-434 | So does Extend. |
| LazyStatus.ReleaseCannotTell | server/internal/quiz/results.go:48-68 | So does ReleaseResults. |
| LazyStatus.CancelCannotTellIff | server/internal/quiz/lifecycle.go:351-360 | Cancel cannot tell, except exactly for a window that has ended before it starts. |
| LazyStatus.CancelCannotTellOnRuns | server/internal/quiz/lifecycle.go:351-360 | No run reaches such a window, so in every reachable state Cancel cannot tell. |
| LazyStatus.ArchiveCanTellIff | server/internal/quiz/lifecycle.go:507-520 | Archive answers differently exactly between the end of the window and the sweep. |
| LazyStatus.PublishCanTellIff | server/internal/quiz/lifecycle.go:111-113 | Publish answers differently exactly when a sweep of a stored schedule is due. |
| LazyStatus.AssignCanTellOnRuns | server/internal/quiz/lifecycle.go:623-628 | In every reachable state SetAssignments answers differently exactly when it empties the audience of a quiz that is stored scheduled and effectively live. |
| RollupFrozen.StatsAreFinal | server/internal/analytics/rollup.go:54-75 | A quiz_stats row of any reachable state survives every later run. Its inputs differ at most in the scores of attempts on the quiz overridden since, and not at all exactly when none has been. |
| RollupFrozen.RecomputingGivesTheSameRow | server/internal/analytics/rollup.go:60-64 | Every stored row was written by one rollup of the run, and recomputing it in any later state gives the same row unless an attempt on the quiz has been overridden since that rollup. |
| RollupFrozen.SinceRollup | server/internal/analytics/rollup.go:54-75 | The stored row is the computation on the state of its rollup, and today's inputs are those inputs but for the zeroed scores. |
| RollupFrozen.StepFreezes | server/internal/analytics/rollup.go:67-75 | Every transaction leaves a finished quiz finished, its statistics row and its inputs alone, but for the score of an attempt it overrides. |
| RollupFrozen.TerminalAbsorbs | server/internal/quiz/lifecycle.go:564-571 | No transaction takes a quiz out of closed or archived. |
| RollupFrozen.StatsOnlyWhenFinishedAlways | server/internal/analytics/rollup.go:67-75 | A quiz_stats row exists only on a closed or archived quiz whose attempts are all graded. |
| RollupFrozen.OverrideOnlyZeroesOneScore | server/internal/attempt/service.go:725-768 | An override changes one input: the score of a graded, kicked attempt. |
| EventLog.ReplayTallies | server/internal/quiz/live.go:104-119 | Folding the violation events one by one gives the grouped counts and duration sums of the roster join. |
| EventLog.DurationSumIsNullable | server/internal/quiz/live.go:104-119 | The duration of a type is absent iff no report of it carries one, and else the sum of those that do. |
| EventLog.ReplayConnection | server/internal/quiz/live.go:98-103 | Folding the connection events gives the newest of them. |
| EventLog.UnbrokenStreamGrammar | server/internal/attempt/events.go:189-200 | The order and counts of lifecycle events in a stream the fold accepts. |
| StudentEffects.StartAnswers | server/internal/attempt/service.go:202-255 | To an assigned student in the window: an attempt is resumed, with nothing written, iff it is the newest of theirs in progress with an unexpired deadline; one begins iff there is none and the rows they have are fewer than the limit plus those readmitted; the attempt limit, the closed window and the missing quiz are each answered in exactly their case. |
| StudentEffects.StartBegins | server/internal/attempt/service.go:242-284 | The one new row: its student's, at the version published last, with the budget or the window's end as its deadline, whichever is sooner, nothing else in it, and one started event; every other row, stream and table is as it was. |
| StudentEffects.SubmitManualEffect | server/internal/attempt/service.go:485-573 | The owner of an attempt in progress, by its deadline and grace: the row becomes submitted, by its student, now, with the same answers, and its stream grows by one submitted event; in every other case nothing is written, and the refusal is named. |
| StudentEffects.SaveAnswers | server/internal/attempt/service.go:401-434 | An autosave is accepted iff the attempt is the caller's, in progress, in its grace, and its pinned version asks the question; otherwise nothing is written, and the refusal is named. |
| StudentEffects.SaveAnswerEffect | server/internal/attempt/service.go:432-478 | The response on record is the one just sent, none for a null; every other answer stays; the cursor is the place of the question; and the progress event carries the new answered count, which moved by what the save did to its own question. |
| StudentEffects.ReportViolationEffect | server/internal/attempt/service.go:795-980 | Which setting decides: fullscreen and focus reports by their own, the clipboard by its flag, which only ever warns, an unknown type by none. A warning is logged and not counted, a counted report raises the tally by one, and the one that reaches the threshold under auto-submit also ends the attempt. |
| TeacherEffects.KickEffect | server/internal/attempt/service.go:586-657 | An attempt in progress is ended with the moderator's name, one kicked event and one audit row; any other is left alone. |
| TeacherEffects.ReadmitEffect | server/internal/attempt/service.go:670-712 | A kicked attempt is marked once, with one audit row and no event. |
| TeacherEffects.OverrideScoreEffect | server/internal/attempt/service.go:725-768 | The score of a graded, kicked attempt becomes zero, once, with one audit row and no event. |
| TeacherEffects.LogConnectivityEffect | server/internal/attempt/service.go:336-395 | The gateway's three connection events go to the attempt's stream, and nothing else is written. |
| TeacherEffects.PublishEffect | server/internal/quiz/lifecycle.go:100-221 | A draft or stored schedule is scheduled in the given window, and one version is appended: the draft question by question, with its own points and penalty where it has them and the quiz's where not, and the guardrails given. |
| TeacherEffects.CancelEffect | server/internal/quiz/lifecycle.go:323-380 | A stored schedule before its start is a draft without a window again. |
| TeacherEffects.ForceCloseEffect | server/internal/quiz/lifecycle.go:234-297 | A scheduled or live quiz is closed and ends now. |
| TeacherEffects.ExtendEffect | server/internal/quiz/lifecycle.go:400-469 | The end of a quiz that reads as live moves later, and the deadline of every attempt running on it becomes the student's own time or the new end, whichever is sooner; nothing else moves. |
| TeacherEffects.ArchiveEffect | server/internal/quiz/lifecycle.go:491-538 | A stored closed quiz, and no other, is archived. |
| TeacherEffects.SetAssignmentsEffect | server/internal/quiz/lifecycle.go:557-690 | The audience is replaced unless the quiz is over, the new one is empty on a stored schedule, or it leaves out a student whose attempt is running on a live quiz. |
| TeacherEffects.ReleaseResultsEffect | server/internal/quiz/results.go:30-75 | A quiz that reads as over is stamped once and stored as closed unless archived. |
| TeacherEffects.EditDraftEffect | server/internal/quiz/service.go:311-372 | The questions, marks and limit of a draft, and of nothing else, are replaced. |
| TeacherEffects.CreateQuizEffect | server/internal/quiz/service.go:209-230 | An active teacher gets an empty draft with one attempt per student. |
| WorkerEffects.SweepQuizzesEffect | server/internal/quiz/scheduler.go:58-79 | After the sweep a quiz past its end is stored as closed and one inside its window as live, and only stored statuses have moved. |
| WorkerEffects.SweepSubmitEffect | server/internal/attempt/scheduler.go:60-146 | Attempts in progress past deadline and grace, or on a quiz stored as over, are submitted with the statement's kind and one event each, and no others. |
| WorkerEffects.GradeOneEffect | server/internal/attempt/grade.go:97-209 | A submitted or kicked attempt is graded on its pinned version: the points of what is right less the penalties of what is wrong, never below zero, responses as they were, one graded event. |
| WorkerEffects.ReleaseDueEffect | server/internal/quiz/results.go:86-102 | Automatic results are released exactly when the quiz is stored as over and every attempt on it is graded or kicked. |
| WorkerEffects.RollupOneEffect | server/internal/analytics/rollup.go:110-206 | A quiz stored as over, without statistics and fully graded, gets one row that summarizes the attempts on it, and the rollup touches nothing else. |
| Store.Database.Start | server/internal/attempt/service.go:176-291 | The start transaction, statement by statement: visibility, window, resume, slot count, insertion, event. |
| Store.Database.FindOpenAttempt | server/internal/attempt/service.go:226-236 | The newest unexpired attempt in progress, if any. |
| Store.Database.CountAttempts | server/internal/attempt/service.go:246-255 | Attempts used, highest number and slots granted, in one scan. |
| Store.Database.SaveAnswer | server/internal/attempt/service.go:401-480 | The autosave transaction: write gate, snapshot membership, upsert, cursor, progress event. |
| Store.Database.Submit | server/internal/attempt/service.go:533-573 | The termination funnel: refusals, idempotent no-ops, the deadline for manual submits only, one event per flip. |
| Store.Database.SubmitManual | server/internal/attempt/service.go:485-518 | The manual submission through the funnel. |
| Store.Database.ReportViolation | server/internal/attempt/service.go:795-931 | Policy, counting, evidence before the submission it triggers, and the ladder. |
| Store.Database.Kick | server/internal/attempt/service.go:586-625 | The kick with its event and audit row, or nothing when the attempt is already terminal. |
| Store.Database.Readmit | server/internal/attempt/service.go:670-712 | The readmission marker and its audit row. |
| Store.Database.OverrideScore | server/internal/attempt/service.go:725-768 | The override's gates, zero score and audit row. |
| Store.Database.Publish | server/internal/quiz/lifecycle.go:100-221 | The publish transaction with the request rules before it: snapshot with resolved marks, version, window. |
| Store.Database.BuildSnapshot | server/internal/quiz/lifecycle.go:148-168 | Every question with its own points and penalty, or the quiz defaults. |
| Store.Database.Cancel | server/internal/quiz/lifecycle.go:323-380 | Cancel and its idempotent and refused cases. |
| Store.Database.ForceClose | server/internal/quiz/lifecycle.go:234-297 | Force-close and its idempotent and refused cases. |
| Store.Database.Extend | server/internal/quiz/lifecycle.go:400-469 | Extend on the derived status, the window and every running deadline. |
| Store.Database.RecomputeDeadlines | server/internal/quiz/lifecycle.go:442-449 | The set-based deadline update, row by row. |
| Store.Database.Archive | server/internal/quiz/lifecycle.go:491-538 | Archive on the stored status. |
| Store.Database.SetAssignments | server/internal/quiz/lifecycle.go:557-759 | Replacement of the audience with its three refusals. |
| Store.Database.CountBlocked | server/internal/quiz/lifecycle.go:677-686 | Counts in-progress attempts of removed students, non-zero iff there is one. |
| Store.Database.ReleaseResults | server/internal/quiz/results.go:30-75 | The explicit release on the derived status. |
| Store.Database.LiveRoster | server/internal/quiz/live.go:55-212 | One row per assigned student, as the tables give it. |
| Store.Database.SweepDueQuizzes | server/internal/quiz/scheduler.go:58-79 | The two ordered statements, close before open, equal to one derivation per quiz. |
| Store.Database.SweepSubmit | server/internal/attempt/scheduler.go:112-146 | One set-based termination and one event per row it took, appended after all rows are drained. |
| Store.Database.SweepDueAttempts | server/internal/attempt/scheduler.go:49-94 | Auto before forced. |
| Store.Database.GradeOne | server/internal/attempt/grade.go:97-209 | One attempt graded against its pinned version, with its event, or nothing. |
| Store.Database.GradeSubmitted | server/internal/attempt/grade.go:54-87 | Every ungraded attempt, one transaction each. |
| Store.Database.ReleaseDueResults | server/internal/quiz/results.go:86-102 | The automatic release and its grading guard. |
| Store.Database.RollupOne | server/internal/analytics/rollup.go:110-206 | The score summary of a finished quiz, written once. |
| Store.Database.RollupDue | server/internal/analytics/rollup.go:67-103 | Every due rollup. |
| Store.Database.SweepDue | server/internal/worker/worker.go:134-181 | The five sweeps in their fixed order. |
| Store.Database.AppendEvent | server/internal/attempt/events.go:189-200 | The log grows at its end and is never rewritten. |
| Grading.SameKeySet | server/internal/attempt/grade.go:256-273 | For a distinct non-empty key, true iff the selected and wanted sets are equal; in general exactly what the two passes decide. |
| Grading.KeyComparisonIsSetEqualityIff | server/internal/attempt/grade.go:256-273 | The comparison is set equality on every response iff the key repeats nothing. |
| Grading.RepeatedKeyAcceptsWrongSet | server/internal/attempt/grade.go:256-273 | With a repeated key a response with one key too many is accepted. |
| Grading.GradeAnswers | server/internal/attempt/grade.go:149-180 | The grading loop computes the specified score, floored at zero, and marks exactly the answered rows. |
| Grading.ScoreIsEarnedLessForfeited | server/internal/attempt/grade.go:149-180 | The score is the points of the questions answered right, less the penalties of those answered wrong, each its own sum, and never below zero. |
| Grading.ShortIsRightIff | server/internal/attempt/grade.go:279-303 | A short answer is right exactly when it matches an accepted text or number. |
| Grading.ScoreWithinBounds | server/internal/attempt/grade.go:176-184 | Any answers score between zero and the sum of points. |
| Grading.AllCorrectEarnsEverything | server/internal/attempt/grade.go:149-180 | All questions answered correctly score exactly the sum of points. |
| Grading.ClearingIsNeverAnswering | server/internal/attempt/grade.go:152-158 | Clearing an answer scores like never having answered. |
| Grading.ClearingWrongNeverLowers | server/internal/attempt/grade.go:158-166 | Clearing a wrong answer never lowers the score. |
| Validation.Validate | server/internal/quiz/validate.go:62-139 | The rejected fields are exactly the broken ones; the marks and the topic are the normalized ones, the topic trimmed and never blank. |
| Validation.ValidateOptions | server/internal/quiz/validate.go:143-166 | Two to eight options with distinct, non-blank keys and texts, and the set of their keys. |
| Validation.ValidateChoiceCorrect | server/internal/quiz/validate.go:171-193 | A single key among the options, or a distinct non-empty list of them. |
| Validation.AcceptedKeyGrades | server/internal/attempt/grade.go:215-245 | A question that passes validation grades every restatement of its key correct, and for choice and true/false types nothing else. |
| Validation.AcceptedSetCanScoreFull | server/internal/quiz/validate.go:62-139 | A set of accepted questions can be answered for exactly the sum of its points. |
| Review.AssembleResultQuestions | server/internal/attempt/results.go:93-106 | The result page question by question, failing iff some question's row fails. |
| Review.MarkedRow | server/internal/attempt/grade.go:158-174 | On distinct question ids a right answer is marked correct with the points, and a wrong one incorrect with minus the penalty. |
| Review.ReviewAddsUpToScore | server/internal/attempt/results.go:114-151 | Where every answered row carries the award its question gives it, the awarded points on a page, floored at zero, are the score. |
| ReviewRuns.PageAddsUpToTheRow | server/internal/attempt/results.go:93-151 | In every reachable state, the page of a graded attempt adds up to the score on its row; only an overridden row says zero where the page still says what the answers earned. |
| ReviewRuns.PageShowsTheMarks | server/internal/attempt/results.go:114-151 | In every reachable state the page of a graded attempt shows, question by question, the points of a right answer, minus the penalty of a wrong one, and zero without one. |
| ReviewRuns.SavingNullClears | server/internal/attempt/service.go:432-446 | Saving a null makes the attempt score as if the question had never been answered, and no less than before if the answer was wrong. |
| ReviewRuns.KeysOkAlways | server/internal/quiz/lifecycle.go:141-162 | Question ids are distinct in every draft and in every published version of every reachable state, and no version is without a question. |
| Review.GradedAttemptReviewableIff | server/internal/attempt/results.go:114-151 | A graded attempt has a result page iff no question of it was left cleared. |
| Review.ClearedAnswerBlocksReview | server/internal/attempt/results.go:61-89 | The smallest failing case, and the same attempt never answered, which has a page. |
| Statistics.Pearson | server/internal/analytics/rollup.go:361-386 | Nil exactly for fewer than two points or a constant series; otherwise the co-moments, with cov squared at most vx times vy. |
| Statistics.CauchySchwarz | server/internal/analytics/rollup.go:361-386 | cov squared is at most vx times vy for all equal-length series. |
| Statistics.CorrelationInUnitInterval | server/internal/analytics/rollup.go:361-386 | With the root of vx times vy the quotient lies in [-1, 1]. |
| Statistics.PerfectCorrelationIffCollinear | server/internal/analytics/rollup.go:361-386 | The bound is attained iff the series are collinear. |
| Averages.MeanMedian | server/internal/analytics/rollup.go:228-247 | None without scores, else the arithmetic mean and the median. |
| Averages.MedianIsOrderFree | server/internal/analytics/rollup.go:236-245 | The median is the middle of any ascending arrangement of the scores: its middle element, or halfway between the two in the middle. |
| Averages.AveragesWithinRange | server/internal/analytics/rollup.go:228-247 | Mean and median lie between any bounds on the scores. |
| Rollup.BestIsHighestPerStudent | server/internal/analytics/rollup.go:111-127 | The rollup counts exactly the students with a graded score, each once, by their highest score. |
| Rollup.ParticipationIsAShare | server/internal/analytics/rollup.go:144-162 | While the audience holds every taker, participation is between 0 and 1, and 1 only if everybody has taken the quiz. |
| Rollup.BucketIndexIff | server/internal/analytics/rollup.go:211-223 | A score below the maximum m goes into bucket k exactly when k m <= 10 score < (k + 1) m, one at or above it into the last, and every score into the first when there is no positive maximum. |
| Rollup.ComputeSummarizes | server/internal/analytics/rollup.go:111-206 | Every field of the row: one highest score per student, their sum over their number, their median, the count of each bucket, the share of the audience that took the quiz, the number of kicked attempts and the sum of the violations. |
| Rollup.ScoredAgainstPinned | server/internal/analytics/rollup.go:111-140 | A score is measured against the points of the version its attempt pinned. |
| Rollup.KickedAreCounted | server/internal/analytics/rollup.go:410-438 | The kicked attempts are those whose kind says so, each once. |
| Rollup.FillBuckets | server/internal/analytics/rollup.go:128-142 | The in-place bucket counters are the histogram, and their total is the number of scores. |
| Rollup.HistogramConservesRows | server/internal/analytics/rollup.go:211-223 | Every counted score falls in exactly one bucket. |
| Rollup.QuizPercentile | server/internal/attempt/results.go:238-271 | The percentile read from a stored distribution, with its null cases. |
| Rollup.PercentileIsShareBelow | server/internal/attempt/results.go:238-271 | On the distribution of some scores the percentile is the share of them in lower buckets, with half of those in its own. |
| Rollup.PercentileBoundedAndMonotone | server/internal/attempt/results.go:238-271 | A percentile is between 0 and 100, and a higher score never has a lower one. |
| Integrity.IntegritySummary | server/internal/analytics/rollup.go:410-459 | Totals over every attempt, one line, in student order, for exactly the flagged or kicked students, and the number of students with a violation. |
| Integrity.ReportAddsUp | server/internal/analytics/rollup.go:410-459 | The per-student lines add up to the total although unflagged students have none. |
| Sessions.Table.Refresh | server/internal/authusers/service.go:144-220 | Rotation with its race, reuse, expiry and account branches. |
| Sessions.Table.Login | server/internal/authusers/service.go:99-138 | A verified, active login opens a fresh family. |
| Sessions.Table.Logout | server/internal/authusers/service.go:224-234 | Revokes the family of a known token, nothing for an unknown one. |
| Sessions.Table.ChangePassword | server/internal/authusers/service.go:239-280 | A verified change revokes every session of the user. |
| Sessions.OneHeadPerFamily | server/internal/authusers/service.go:144-220 | In every reachable state each family has exactly one unused token, its newest, and one revocation time or none. |
| Sessions.RotatesIffLiveHead | server/internal/authusers/service.go:168-213 | A refresh yields a token iff the presented one is the unexpired head of a live family of an active account. |
| Sessions.ReplayWithinGraceOrRevokes | server/internal/authusers/service.go:168-183 | A used token replayed within 30 s changes nothing; later it revokes its whole family, head included, and no other. |
| Sessions.RefreshEffect | server/internal/authusers/service.go:144-220 | An unknown or revoked token is refused; a used one is a race within thirty seconds, with nothing written, and later revokes its family; an unused one of an active account is, until it expires, stamped and succeeded by a token of the same user and family with fourteen days of its own. |
| Sessions.LoginOpensAFamily | server/internal/authusers/service.go:99-138 | A login adds one unused session in a family of its own, whose token can be exchanged exactly until it expires. |
| Sessions.LogoutEndsTheFamily | server/internal/authusers/service.go:224-234 | In every reachable state: logging out with any token of a family revokes the whole family and no other, after which none of its tokens is ever accepted again, whatever follows; an unknown token changes nothing. |
| Sessions.PasswordChangeEndsEverySession | server/internal/authusers/service.go:239-280 | In every reachable state: a password change revokes every family of the user and nobody else's, and none of those tokens is ever accepted again. |
| Sessions.RevokedNeverYields | server/internal/authusers/service.go:171-183 | A revoked family never grows and never yields a token again, along every run. |
| Tabs.ReuseDetectionNeverFires | web/src/api/client.ts:19-57 | Any number of tabs under the lock, no reply lost whose cookie the jar awaits: the token presented is its family's unused head, the answer is never a race, and serving it revokes nothing. |
| Tabs.LossKeepsInvIff | web/src/api/client.ts:30-36 | Losing a reply keeps the jar invariant exactly when the jar was not waiting for its cookie. |
| Tabs.OnlyCookiesAreMissed | web/src/api/client.ts:30-36 | A reply without a cookie can always be lost. |
| Tabs.OneFlightAtATime | web/src/api/client.ts:40-57 | At most one tab is between the lock and the reply. |
| TabsUnguarded.LossRevokesIff | web/src/api/client.ts:30-36 | From any state the guarded tabs reach: losing a reply and refreshing after a while revokes a session exactly when the jar was waiting for the cookie in it and the grace is over, and then the whole family; within the grace nothing is written. |
| TabsUnguarded.SkippedLocksRevokeIff | web/src/api/client.ts:42-47 | Two tabs that refresh a live head without the lock revoke a session exactly when the second request comes after the grace, and then the whole family. |
| TabsUnguarded.LostReplyRevokes | web/src/api/client.ts:30-36 | A guarded run, one lost reply and a refresh half a minute later: the family is revoked. |
| TabsUnguarded.SkippedLockRevokes | web/src/api/client.ts:42-47 | A guarded run and two tabs that skip the lock: the family is revoked though no reply is lost. |
| RateLimit.Limiter.Allow | server/internal/ratelimit/ratelimit.go:28-54 | The decision and the pruned map after it. |
| RateLimit.CompactInPlace | server/internal/ratelimit/ratelimit.go:32-38 | Filtering an array over itself leaves exactly the recent hits, in order, at its front. |
| RateLimit.DecidesLikeFullHistory | server/internal/ratelimit/ratelimit.go:28-54 | After any calls, pruning and cleanup included, the next decision is that of a history that keeps everything. |
| RateLimit.AtMostLimitPerWindow | server/internal/ratelimit/ratelimit.go:28-54 | No half-open window holds more than limit accepted hits of a key. |
| RateLimit.RetryAfterIsLeast | server/internal/ratelimit/ratelimit.go:39-42 | On every refusal the reported wait is positive and a retry alone is accepted iff it waits at least that long. |
| Coalescer.ProgressCoalescer.Admit | server/internal/attempt/coalesce.go:96-116 | The throttle decision, the counter and the memory sweep. |
| Coalescer.ProgressCoalescer.Publish | server/internal/attempt/coalesce.go:68-82 | Progress is throttled, everything else passes. |
| Coalescer.DecidesLikeFullRecord | server/internal/attempt/coalesce.go:96-116 | After any publishes the swept map decides as the record of every relay would. |
| Coalescer.SweepingChangesNothing | server/internal/attempt/coalesce.go:105-114 | The relays are those of a throttle that never sweeps. |
| Coalescer.RelaysAreAWindowApart | server/internal/attempt/coalesce.go:96-116 | Two progress relays of one attempt are at least a window apart. |
| Coalescer.DroppedOnlyAfterARelay | server/internal/attempt/coalesce.go:68-82 | Only a progress is ever dropped, and only within a window of one that was relayed. |
| QuestionOrder.PositionsStayDense | server/internal/quiz/service.go:687-716 | Under any adds, imports, deletes and reorders the positions are a permutation of 1 to n. |
| QuestionOrder.AcceptsIffPermutation | server/internal/quiz/service.go:752-768 | The reorder test accepts a list iff it is a permutation of the existing ids. |
| QuestionOrder.RanksNumber | server/internal/quiz/service.go:701-705 | Numbering by rank numbers any increasing listing from one, whatever the gaps. |
| QuestionOrder.Questions.AddQuestion | server/internal/quiz/service.go:425-454 | A new question goes last; the table makes the edit of the run model. |
| QuestionOrder.Questions.CommitImport | server/internal/quiz/service.go:593-611 | Imported questions go last, in file order; the table makes the edit of the run model. |
| QuestionOrder.Questions.DeleteQuestion | server/internal/quiz/service.go:687-716 | The rest keep their order and close the gap; the table makes the edit of the run model. |
| QuestionOrder.Questions.ReorderQuestions | server/internal/quiz/service.go:722-798 | Accepted iff a permutation; otherwise nothing changes; the table makes the edit of the run model. |
| AuditPages.List | server/internal/audit/audit.go:185-264 | A page: the newest matching ids below the cursor, up to the clamped size, and a cursor iff the page is full. |
| AuditPages.PageSize | server/internal/audit/audit.go:186-192 | Fifty without a limit, and never more than two hundred. |
| AuditPages.NewestIsTheTop | server/internal/audit/audit.go:218-227 | A page is strictly descending, holds only selected rows, and everything it leaves out is older. |
| AuditPages.FieldsNarrow | server/internal/audit/audit.go:194-210 | A filter field narrows the rows to those that carry its value; without any field every row is listed. |
| AuditPages.RangesSplit | server/internal/audit/audit.go:211-217 | The time range is half open: cut in two, it shows each of its rows in exactly one part. |
| AuditPages.WalkVisitsEveryRowOnce | server/internal/audit/audit.go:165-172 | Following the cursor from the newest page terminates and visits every matching row of the first call exactly once, in strictly descending order, under arbitrary concurrent appends. |
| Gateway.Gateway.ReplaceActiveAttempt | server/internal/realtime/gateway.go:549-563 | The new socket takes the entry and the old one, if any, is sent the replaced close and reported once. |
| Gateway.Gateway.ClearActiveAttempt | server/internal/realtime/gateway.go:568-574 | A teardown removes the entry only if it is still its own. |
| Gateway.RegistryHoldsTheNewestLiveSocket | server/internal/realtime/gateway.go:549-574 | In any interleaving the entry of an attempt is its newest socket, present exactly while that socket is live. |
| Gateway.ReplacedCloseIsSentOnce | server/internal/realtime/gateway.go:549-563 | A socket is sent the replaced close at most once, only after a newer one registered, and always when it is displaced before its teardown. |
| Gateway.DisplacementIsExact | server/internal/realtime/gateway.go:549-574 | A connect closes exactly the socket it finds; a teardown closes nothing and evicts nobody else. |
| Gateway.PumpLoop.Heartbeat | server/internal/realtime/gateway.go:615-630 | A heartbeat resets the timer and, when latched, reports the reconnect. |
| Gateway.PumpLoop.TimerFires | server/internal/realtime/gateway.go:631-635 | The one-shot timer latches and reports the disconnect. |
| Gateway.CallbacksAlternate | server/internal/realtime/gateway.go:593-636 | Callbacks of one pump alternate starting with a disconnect, none before the timeout. |
| Gateway.SilenceIsReportedOnce | server/internal/realtime/gateway.go:593-636 | A disconnect is reported exactly by the first timer that fires twenty-five seconds or more after the last heartbeat, with the time of that heartbeat, and the return exactly by the next heartbeat. |
| Gateway.HeartbeatLeavesAwayIff | server/internal/realtime/gateway.go:626-630 | A heartbeat leaves the student shown as away iff they were and another socket's pump reported it. |
| Gateway.ComingBackOnANewSocketIsNotShown | server/internal/realtime/gateway.go:593-601 | A student who returns on a new socket stays shown as away however long it goes on beating. |
| Gateway.BeatingStudentShownAway | docs/05-realtime-events.md:59 | The two-socket case, against the documented reconnect. |
| Closing.ClosedTakesNoAttempts | server/internal/attempt/service.go:213-224 | From the moment a quiz is closed, along every run, it stays closed, refuses every start and gains no attempt. |
| Closing.ForceCloseIsCarriedThrough | server/internal/quiz/lifecycle.go:224-233 | One pass after a force-close every attempt on the quiz is graded, automatic results are released and the statistics exist. |
| Closing.ReleaseIsPermanent | server/internal/quiz/results.go:30-75 | In every reachable state released results belong to a closed or archived quiz, and no later run takes a release back or moves it. |
| Closing.CancelUndoesPublish | server/internal/quiz/lifecycle.go:299-311 | Cancelling a published draft before its start restores it but for the version written and the duration and policy chosen. |
| RowsKept.StartKeeps | server/internal/attempt/service.go:176-291 | The row invariant is kept by Start. |
| RowsKept.SaveAnswerKeeps | server/internal/attempt/service.go:401-480 | And by an autosave. |
| RowsKept.SubmitManualKeeps | server/internal/attempt/service.go:485-518 | And by a manual submission. |
| RowsKept.ReportViolationKeeps | server/internal/attempt/service.go:795-931 | And by a violation report, ladder included. |
| RowsKept.KickKeeps | server/internal/attempt/service.go:586-625 | And by a kick. |
| RowsKept.ReadmitKeeps | server/internal/attempt/service.go:670-712 | And by a readmission. |
| RowsKept.OverrideScoreKeeps | server/internal/attempt/service.go:725-768 | And by an override. |
| RowsKept.LogConnectivityKeeps | server/internal/attempt/service.go:336-395 | And by the gateway's connectivity events. |
| RowsKept.GradeOneKeeps | server/internal/attempt/grade.go:97-209 | And by grading. |
| RowsKept.PublishKeeps | server/internal/quiz/lifecycle.go:100-221 | And by publishing, which resolves the marks of the new version to fair ones. |
| RowsKept.ExtendKeeps | server/internal/quiz/lifecycle.go:400-469 | And by extending. |
| RowsKept.QuizStatusKeeps | server/internal/quiz/lifecycle.go:234-538 | And by force-closing, cancelling, archiving, releasing and assigning. |
| RowsKept.SweepSubmitKeeps | server/internal/attempt/scheduler.go:112-146 | And by a set-based termination, which ends each due attempt once and logs it once. |
| RowsKept.SweepQuizzesKeeps | server/internal/quiz/scheduler.go:58-79 | And by the quiz sweep. |
| RowsKept.ReleaseDueResultsKeeps | server/internal/quiz/results.go:86-102 | And by the automatic release. |
| RowsKept.RollupOneKeeps | server/internal/analytics/rollup.go:110-206 | And by a rollup. |
| Windows.SettlingKeeps | server/internal/attempt/service.go:533-573 | The window invariant is kept by every transaction that only settles attempts. |
| Windows.EndingKeeps | server/internal/quiz/lifecycle.go:234-297 | And by closing, archiving and releasing. |
| Windows.SweepQuizzesKeeps | server/internal/quiz/scheduler.go:58-79 | And by the quiz sweep. |
| EventLog.AgreementShowsOnRoster | server/internal/quiz/live.go:242-261 | A row that agrees with its stream shows on the roster exactly what the stream folds to. |
| RowInvariant.GradedRowOk | server/internal/attempt/grade.go:182-199 | Grading turns an ended row into a graded one that still agrees with its stream, with a score in bounds. |
| RowInvariant.AutoSubmittedRowOk | server/internal/attempt/service.go:842-880 | The report that fires the ladder leaves the row and its two events in agreement. |
| RowInvariant.KickedRowOk | server/internal/attempt/service.go:636-657 | A kick leaves row, event and audit row in agreement. |
| SweepFixpoint.PassSettlesEverything | server/internal/worker/worker.go:134-160 | A pass settles every state in which the row invariant holds. |
| SweepFixpoint.SettledPassIsIdle | server/internal/worker/worker.go:134-160 | In a settled state a pass changes nothing at all. |
| GradingOrder.GradeListExactly | server/internal/attempt/grade.go:54-87 | What grading a list of attempts does to every row and every stream. |
| Punctual.DeadlinesOnlyMoveLater | server/internal/quiz/lifecycle.go:388-399 | Under the window invariant of its quiz, no transaction moves a deadline earlier, or the deadline of an expired attempt at all. |
| Store.Database.OwnedForUpdate | server/internal/attempt/service.go:1029-1042 | The caller's own row, or not found. |
| Store.Database.ModeratableForUpdate | server/internal/attempt/service.go:1007-1025 | A row the caller may moderate, or not found. |
| Store.Database.EditableForUpdate | server/internal/quiz/lifecycle.go:1051-1064 | A quiz the caller may edit, or not found. |
| Store.Database.FindOrdinal | server/internal/attempt/service.go:422-434 | The 1-based place of a question in the pinned version. |
| Store.Database.AllGraded | server/internal/quiz/results.go:92-95 | The grading guards of the release and of the rollup. |
| Store.Database.WriteAudit | server/internal/audit/audit.go:119-135 | An audit row is appended. |
| Grading.Marked | server/internal/attempt/grade.go:169-174 | Grading keeps every answer row and its response. |
| Grading.SelectsKeysIsSetEquality | server/internal/attempt/grade.go:256-273 | For a distinct non-empty key the comparison is set equality. |
| Validation.ValidateAccepted | server/internal/quiz/validate.go:121-133 | A short answer needs a non-empty list of accepted texts. |
| Validation.ValidateBody | server/internal/quiz/validate.go:65-70 | The body rule, reported on its own field. |
| Validation.ValidateTopic | server/internal/quiz/validate.go:72-81 | The topic rule; the topic kept is the trimmed one, and none when blank or too long. |
| Validation.ValidatePoints | server/internal/quiz/validate.go:85-94 | The points rule and the normalized points. |
| Validation.ValidatePenalty | server/internal/quiz/validate.go:95-104 | The penalty rule and the normalized penalty. |
| Validation.ValidateKey | server/internal/quiz/validate.go:106-137 | The options and key rules of each question type. |
| Statistics.Means | server/internal/analytics/rollup.go:366-372 | The two means. |
| Statistics.Moments | server/internal/analytics/rollup.go:373-379 | The three co-moments about given centres. |
| Statistics.NoSpreadIffConstant | server/internal/analytics/rollup.go:380-382 | A series has no spread exactly when it is constant. |
| Integrity.Report | server/internal/analytics/rollup.go:440-457 | The lines of the flagged and kicked students, sorted, and how many are flagged. |
| Integrity.LinesCarryTheTotal | server/internal/analytics/rollup.go:424-438 | Lines holding every student with violations carry the whole total. |
| Sessions.Table.RevokeFamily | server/internal/authusers/service.go:171-175 | Every unrevoked row of the family is stamped, no other. |
| Sessions.Table.RevokeUser | server/internal/authusers/service.go:266-270 | Every unrevoked row of the user is stamped, no other. |
| Sessions.FamiliesOkAlways | server/internal/authusers/service.go:144-220 | In every reachable state a family is one user's chain, in which a token is used iff it has a successor. |
| Sessions.RotateKeeps | server/internal/authusers/service.go:198-210 | A rotation keeps that. |
| Tabs.InvAlways | web/src/api/client.ts:19-57 | The invariant behind it: the jar holds an unused token, or one whose successor is on its way back. |
| RateLimit.RefinesAlways | server/internal/ratelimit/ratelimit.go:28-54 | In every reachable state each pruned slice and its full history agree on what is recent. |
| RateLimit.Limiter.DropAbandoned | server/internal/ratelimit/ratelimit.go:45-52 | The cleanup deletes exactly the keys without a hit in the window. |
| Coalescer.ProgressCoalescer.Sweep | server/internal/attempt/coalesce.go:107-113 | The memory sweep keeps exactly the entries inside their window. |
| QuestionOrder.Questions.MaxPosition | server/internal/quiz/service.go:594-597 | The highest position, or zero, which is the number of questions. |
| QuestionOrder.Questions.Matches | server/internal/quiz/service.go:752-762 | The length, membership and repetition tests. |
| QuestionOrder.DeleteLists | server/internal/quiz/service.go:701-705 | Deleting and ranking lists the remaining questions in their order. |
| AuditPages.WalkDescends | server/internal/audit/audit.go:165-172 | A walk is strictly descending and stays below its cursor. |
| AuditPages.WalkFinds | server/internal/audit/audit.go:165-172 | A walk finds every matching row that was there when it began. |

## Left out

- Store.Database.GradeSubmitted: visits attempts in table order where the source orders by submission time; `GradingOrder.GradingOrderDoesNotMatter` shows that rows and per-attempt streams do not depend on it.
- Store.Database.RollupOne: item analysis, per-student rollups and the list of flagged students are not part of the statistics row; when two attempts of a student tie for the best score, the model takes the earlier one where SQL leaves the choice open; the reads are one atomic step where the source takes several.
- Store.Database.SetAssignments: takes the audience after group expansion and the check that ids are students, and does not model the notifications.
- Store.Database.Publish: does not model the jobs it enqueues, the backup request or the diff in its audit row.
- Statistics.Pearson: returns the three co-moments instead of their quotient by a square root; `Statistics.CorrelationInUnitInterval` relates the quotient to them for any value of the root.
- RateLimit.Limiter.Allow: slices of different keys are values, so a backing array shared between keys is not modelled; a limit below one, which would read the first of no hits, is excluded.
- Store.Database.LiveRoster: the deadline, score and profile columns of a row and the check on who may read it are not modelled; an extension and an override append no attempt event, so a fold could not give the first two.
- Review.AssembleResultQuestions: only the decoding of responses can fail; bodies, options and keys were valid JSON when the snapshot was written.
- Review.GradedAttemptReviewableIff: the same, so other decode failures are left open.
- Sessions.Table.ChangePassword: the new hash and the audit row are not modelled.
- QuestionOrder.Questions.CommitImport: an import is the list of rows it yields, and its own status row is not modelled.
- Closing.CancelUndoesPublish: the published_at column, which a cancel does not clear, is not modelled.
- RateLimit.CompactInPlace: each call works on an array of its own that holds the key's slice; the map keeps values.
- Sessions.Table.Login: password verification and the account status are parameters.
- Gateway.CallbacksAlternate: callbacks are recorded in the order they are dispatched; each runs in a goroutine of its own, so their writes may land in another order.
- Isolation below transactions: each transaction is one step, so anomalies such as a rotation committing beside a family revocation that does not see it are not modelled.
- One clock: the handler's and the database's clocks are the same non-decreasing one.
- Edits of a draft are one transaction that sets its questions, limit and marking defaults at once; deleting a draft quiz is not modelled.
- Jobs, Redis, sockets' frames, email, storage, telemetry and HTTP plumbing: a job is "the pass may run at any time", and a publish follows the event it relays.
- Cryptography and randomness: tokens and ids are fresh opaque values.
- Text rules: normalisation, float parsing and rendering of short answers are arbitrary functions; floats are real numbers without rounding; JSON field names are matched exactly.
- The per-attempt shuffle of questions, whose hash is opaque, and the transport objects.
- SQL-only reports: item pick rates, leaderboards and organisation aggregates, which live in the database.
- Spreadsheet parsing of question imports: an import is the list of rows it yields.
- Policy decisions (`authusers.Can`) beyond ownership, role and activity, which are one branch each.
