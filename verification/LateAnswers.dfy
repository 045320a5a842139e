/** Answers and deadlines: an answer is saved by the deadline and its grace, and no later extension makes it
    late, exactly as long as publishes leave running attempts budget for what they hold and can still take. */
module LateAnswers {
  import opened Common
  import opened Grading
  import opened Schema
  import opened Transactions
  import opened RowMoves
  import opened Runs
  import AnswerRuns = Answers
  import Json
  import Punctual
  import Rescheduling
  import ReviewRuns
  import RowsKept
  import Windows

  predicate AnswersByDeadline(row: Attempt) {
    forall id | id in row.answers :: row.answers[id].savedAt <= row.deadlineAt + WRITE_GRACE
  }

  predicate InTime(row: Attempt, now: Time) {
    Punctual.Recorded(row, now) && AnswersByDeadline(row)
  }

  // ----- What a window must leave a running attempt -----

  /** The new budget covers every answer the attempt holds; and every answer it can still take before an
      extension, because its deadline is within the budget, or the window ends by then, or nothing can be
      saved any more. */
  predicate BudgetCovers(z: Quiz, row: Attempt, now: Time)
    requires z.endsAt.Some?
  {
    row.status.InProgress? ==>
      && (forall id | id in row.answers :: row.answers[id].savedAt <= Windows.Budget(z, row) + WRITE_GRACE)
      && (|| row.deadlineAt <= Windows.Budget(z, row)
          || z.endsAt.value <= Windows.Budget(z, row) + WRITE_GRACE + 1
          || now > row.deadlineAt + WRITE_GRACE)
  }

  predicate Covers(z: Quiz, attempts: seq<Attempt>, q: QuizId, now: Time)
    requires z.endsAt.Some?
  {
    forall i | 0 <= i < |attempts| && attempts[i].quiz == q :: BudgetCovers(z, attempts[i], now)
  }

  /** While an extension is still possible, the budget covers the attempt. */
  predicate Covered(z: Quiz, row: Attempt, now: Time) {
    row.status.InProgress? && Windows.Opening(z.status) ==>
      z.endsAt.Some? && (now >= z.endsAt.value || BudgetCovers(z, row, now))
  }

  predicate RowPunctual(z: Quiz, row: Attempt, now: Time) {
    InTime(row, now) && Covered(z, row, now)
  }

  predicate Punctually(db: DB, q: QuizId) {
    if q >= |db.quizzes| then Windows.NoAttempts(db.attempts, q)
    else
      forall i | 0 <= i < |db.attempts| && db.attempts[i].quiz == q ::
        RowPunctual(db.quizzes[q], db.attempts[i], db.now)
  }

  // ----- Whole runs -----

  /** A publish of q that succeeds leaves every running attempt covered. */
  predicate StepCovers(db: DB, act: Action, q: QuizId) {
    act.Publishes? && act.q == q && Publish(db, act.actor, q, act.input).out.Done? ==>
      Covers(Published(db.quizzes[q], act.input), db.attempts, q, db.now)
  }

  predicate LateCareful(rules: TextRules, db: DB, run: seq<Action>, q: QuizId) {
    run == [] ||
    (LateCareful(rules, db, run[..|run| - 1], q) && StepCovers(Exec(rules, db, run[..|run| - 1]), run[|run| - 1], q))
  }

  lemma {:induction false} NoPublishIsLateCareful(rules: TextRules, db: DB, run: seq<Action>, q: QuizId)
    requires NoPublish(run)
    ensures LateCareful(rules, db, run, q)
  {
    if run != [] {
      NoPublishIsLateCareful(rules, db, run[..|run| - 1], q);
    }
  }

  lemma MoveStaysPunctual(rules: TextRules, db: DB, z: Quiz, row: Attempt, move: RowMove)
    requires May(db, row, move) && !move.Redeadlined? && RowPunctual(z, row, db.now)
    ensures RowPunctual(z, Moved(rules, db, row, move), db.now)
  {
    Punctual.MoveRecorded(rules, db, row, move);
    if move.Graded? {
      AnswerRuns.MarkedOnlyAnswers(rules, PinnedSnapshot(db.quizzes, row).value.questions, row.answers);
    }
  }

  lemma SettledStaysPunctual(rules: TextRules, db: DB, z: Quiz, z': Quiz, row: Attempt, after: Attempt)
    requires RowPunctual(z, row, db.now) && Moves(rules, db, row, after) && after.deadlineAt == row.deadlineAt
    requires Windows.SameWindow(z, z')
    ensures RowPunctual(z', after, db.now)
  {
    var move: RowMove :| May(db, row, move) && after == Moved(rules, db, row, move);
    if !move.Redeadlined? {
      MoveStaysPunctual(rules, db, z, row, move);
    }
  }

  lemma {:induction false} SettlingKeeps(rules: TextRules, db: DB, act: Action, q: QuizId)
    requires Punctually(db, q) && (ByStudents(act) || ByModerators(act) || ByWorker(act))
    ensures Punctually(Apply(rules, db, act), q)
  {
    var db' := Apply(rules, db, act);
    ActionSettles(rules, db, act);
    ApplyMoves(rules, db, act);
    forall i | 0 <= i < |db.attempts|
      ensures db'.attempts[i].quiz == db.attempts[i].quiz
      ensures q < |db.quizzes| && db.attempts[i].quiz == q ==> RowPunctual(db'.quizzes[q], db'.attempts[i], db'.now)
    {
      assert Windows.Settles(db.attempts[i], db'.attempts[i]);
      if q < |db.quizzes| && db.attempts[i].quiz == q {
        SettledStaysPunctual(rules, db, db.quizzes[q], db'.quizzes[q], db.attempts[i], db'.attempts[i]);
      }
    }
  }

  lemma LaterStaysPunctual(z: Quiz, row: Attempt, now: Time, later: Time)
    requires RowPunctual(z, row, now) && now <= later
    ensures RowPunctual(z, row, later)
  {
  }

  lemma ReopenedStaysPunctual(z: Quiz, z': Quiz, row: Attempt, now: Time)
    requires RowPunctual(z, row, now)
    requires z' == z || !Windows.Opening(z'.status) || (z'.endsAt.Some? && BudgetCovers(z', row, now))
    ensures RowPunctual(z', row, now)
  {
  }

  lemma {:induction false} OwnerKeeps(rules: TextRules, db: DB, act: Action, q: QuizId)
    requires Punctually(db, q) && ByOwner(act) && StepCovers(db, act, q)
    ensures Punctually(Apply(rules, db, act), q)
  {
    var db' := Apply(rules, db, act);
    if q < |db.quizzes| {
      OwnerMoves(rules, db, act, q);
      forall i | 0 <= i < |db.attempts| && db.attempts[i].quiz == q
        ensures RowPunctual(db'.quizzes[q], db.attempts[i], db.now)
      {
        ReopenedStaysPunctual(db.quizzes[q], db'.quizzes[q], db.attempts[i], db.now);
      }
    } else {
      QuizActionsMoveNothing(rules, db, act);
    }
  }

  lemma SweepKeeps(db: DB, q: QuizId)
    requires Punctually(db, q)
    ensures Punctually(SweepQuizzes(db), q)
  {
  }

  lemma NewIsPunctual(z: Quiz, row: Attempt, now: Time)
    requires InWindow(z, now)
    requires row == NewAttempt(row.quiz, row.student, row.no, row.version, now,
                               Deadline(now, z.durationSec, z.endsAt.value))
    ensures RowPunctual(z, row, now)
  {
  }

  lemma {:induction false} StartKeeps(db: DB, actor: Actor, p: QuizId, q: QuizId)
    requires Punctually(db, q)
    ensures Punctually(Start(db, actor, p).db, q)
  {
    if Start(db, actor, p).out.Began? && p == q {
      NewIsPunctual(db.quizzes[q], Start(db, actor, p).db.attempts[|db.attempts|], db.now);
    }
  }

  /** An extension leaves every answer its new deadline: what was saved so far is behind the new end, and the
      budget covers it. */
  lemma ExtensionStaysPunctual(z: Quiz, row: Attempt, newEndsAt: Time, now: Time)
    requires RowPunctual(z, row, now) && Windows.Opening(z.status) && row.status.InProgress?
    requires z.endsAt.Some? && now < z.endsAt.value < newEndsAt
    ensures RowPunctual(z.(endsAt := Some(newEndsAt)),
                        row.(deadlineAt := Deadline(row.startedAt, z.durationSec, newEndsAt)), now)
  {
  }

  lemma {:induction false} ExtendKeeps(db: DB, actor: Actor, p: QuizId, newEndsAt: Time, q: QuizId)
    requires Punctually(db, q) && (q < |db.quizzes| ==> Windows.WindowShape(db.quizzes[q], db.now))
    ensures Punctually(Extend(db, actor, p, newEndsAt).db, q)
  {
    var db' := Extend(db, actor, p, newEndsAt).db;
    if q < |db.quizzes| && Extend(db, actor, p, newEndsAt).out.Done? {
      forall i | 0 <= i < |db.attempts| && db.attempts[i].quiz == q
        ensures RowPunctual(db'.quizzes[q], db'.attempts[i], db.now)
      {
        assert RowPunctual(db.quizzes[q], db.attempts[i], db.now);
        if p == q && db.attempts[i].status.InProgress? {
          ExtensionStaysPunctual(db.quizzes[q], db.attempts[i], newEndsAt, db.now);
        }
      }
    }
  }

  lemma {:induction false} TickKeeps(db: DB, elapsed: nat, q: QuizId)
    requires Punctually(db, q)
    ensures Punctually(db.(now := db.now + elapsed), q)
  {
    if q < |db.quizzes| {
      forall i | 0 <= i < |db.attempts| && db.attempts[i].quiz == q
        ensures RowPunctual(db.quizzes[q], db.attempts[i], db.now + elapsed)
      {
        LaterStaysPunctual(db.quizzes[q], db.attempts[i], db.now, db.now + elapsed);
      }
    }
  }

  lemma {:induction false} ApplyKeeps(rules: TextRules, db: DB, act: Action, q: QuizId)
    requires Punctually(db, q) && Windows.ShapesOk(db) && StepCovers(db, act, q)
    ensures Punctually(Apply(rules, db, act), q)
  {
    if ByStudents(act) || ByModerators(act) || ByWorker(act) {
      SettlingKeeps(rules, db, act, q);
    } else if ByOwner(act) {
      OwnerKeeps(rules, db, act, q);
    } else {
      match act
      case Tick(elapsed) => TickKeeps(db, elapsed, q);
      case Starts(actor, p) => StartKeeps(db, actor, p, q);
      case Extends(actor, p, newEndsAt) => ExtendKeeps(db, actor, p, newEndsAt, q);
      case SweepsQuizzes => SweepKeeps(db, q);
    }
  }

  lemma {:induction false} PunctuallyKept(rules: TextRules, db: DB, run: seq<Action>, q: QuizId)
    requires Punctually(db, q) && Windows.ShapesOk(db) && LateCareful(rules, db, run, q)
    ensures Punctually(Exec(rules, db, run), q) && Windows.ShapesOk(Exec(rules, db, run))
  {
    if run != [] {
      PunctuallyKept(rules, db, run[..|run| - 1], q);
      ApplyKeeps(rules, Exec(rules, db, run[..|run| - 1]), run[|run| - 1], q);
      ApplyKeepsShapes(rules, Exec(rules, db, run[..|run| - 1]), run[|run| - 1]);
    }
  }

  /** In every state of a run whose publishes of q leave every running attempt covered: each answer on q was
      saved while its attempt ran, and by the deadline and its grace. */
  lemma AlwaysInTime(rules: TextRules, now: Time, run: seq<Action>, i: AttemptId, q: QuizId)
    requires LateCareful(rules, Empty(now), run, q)
    ensures var db := Exec(rules, Empty(now), run);
            i < |db.attempts| && db.attempts[i].quiz == q ==> InTime(db.attempts[i], db.now)
  {
    PunctuallyKept(rules, Empty(now), run, q);
  }

  /** A window that only lengthens the time of an attempt in time covers it; one that harms none does. */
  lemma LengtheningCovers(z: Quiz, row: Attempt, now: Time)
    requires AnswersByDeadline(row) && z.endsAt.Some? && row.deadlineAt <= Windows.Budget(z, row)
    ensures BudgetCovers(z, row, now)
  {
  }

  lemma {:induction false} StepHarmlessCovers(db: DB, act: Action, q: QuizId)
    requires Punctually(db, q) && StepCareful(Windows.FindsHarmless, db, act, q)
    ensures StepCovers(db, act, q)
  {
    if act.Publishes? && act.q == q && Publish(db, act.actor, q, act.input).out.Done? {
      forall i | 0 <= i < |db.attempts| && db.attempts[i].quiz == q
        ensures BudgetCovers(Published(db.quizzes[q], act.input), db.attempts[i], db.now)
      {
        assert RowPunctual(db.quizzes[q], db.attempts[i], db.now);
        if db.attempts[i].status.InProgress? {
          LengtheningCovers(Published(db.quizzes[q], act.input), db.attempts[i], db.now);
        }
      }
    }
  }

  /** So runs whose publishes harm no running attempt are among these. */
  lemma {:induction false} HarmlessIsLateCareful(rules: TextRules, now: Time, run: seq<Action>, q: QuizId)
    requires Careful(Windows.FindsHarmless, rules, Empty(now), run, q)
    ensures LateCareful(rules, Empty(now), run, q)
  {
    if run != [] {
      HarmlessIsLateCareful(rules, now, run[..|run| - 1], q);
      PunctuallyKept(rules, Empty(now), run[..|run| - 1], q);
      StepHarmlessCovers(Exec(rules, Empty(now), run[..|run| - 1]), run[|run| - 1], q);
    }
  }

  // ----- Exactly which publishes leave no answer late -----

  ghost predicate NoneLate(rules: TextRules, db: DB, run: seq<Action>, q: QuizId) {
    var db' := Exec(rules, db, run);
    forall i | 0 <= i < |db'.attempts| && db'.attempts[i].quiz == q :: AnswersByDeadline(db'.attempts[i])
  }

  /** Whatever careful run follows, no answer on q is past its deadline and grace at its end. */
  ghost predicate NeverLateFrom(rules: TextRules, db: DB, q: QuizId) {
    forall run: seq<Action> | LateCareful(rules, db, run, q) :: NoneLate(rules, db, run, q)
  }

  /** Every attempt on q is in time, and pins a version with a question. */
  predicate Ready(db: DB, q: QuizId) {
    forall i | 0 <= i < |db.attempts| && db.attempts[i].quiz == q ::
      && InTime(db.attempts[i], db.now)
      && PinnedSnapshot(db.quizzes, db.attempts[i]).Some?
      && PinnedSnapshot(db.quizzes, db.attempts[i]).value.questions != []
  }

  lemma {:induction false} CoversThenNeverLate(rules: TextRules, db: DB, actor: Actor, q: QuizId, input: PublishInput)
    requires Publish(db, actor, q, input).out.Done? && Ready(db, q) && Windows.ShapesOk(db)
    requires Covers(Published(db.quizzes[q], input), db.attempts, q, db.now)
    ensures NeverLateFrom(rules, Publish(db, actor, q, input).db, q)
  {
    var published := Publish(db, actor, q, input).db;
    ApplyKeepsShapes(rules, db, Publishes(actor, q, input));
    forall run: seq<Action> | LateCareful(rules, published, run, q)
      ensures NoneLate(rules, published, run, q)
    {
      PunctuallyKept(rules, published, run, q);
    }
  }

  /** An extension when attempt i already holds an answer past its new budget and grace. */
  lemma ExtensionLeavesLate(published: DB, actor: Actor, q: QuizId, i: AttemptId, id: QuestionId, at: Time)
    requires Edits(actor, published, q) && i < |published.attempts| && published.attempts[i].quiz == q
    requires var z := published.quizzes[q];
             z.status == Scheduled && z.startsAt.Some? && z.endsAt.Some? && z.startsAt.value <= at < z.endsAt.value
    requires published.attempts[i].status.InProgress? && id in published.attempts[i].answers
    requires published.attempts[i].answers[id].savedAt
           > Windows.Budget(published.quizzes[q], published.attempts[i]) + WRITE_GRACE
    ensures var extended := Extend(published.(now := at), actor, q, published.quizzes[q].endsAt.value + 1).db;
            && |extended.attempts| == |published.attempts| && extended.attempts[i].quiz == q
            && id in extended.attempts[i].answers && !AnswersByDeadline(extended.attempts[i])
  {
    var later := published.(now := at);
    assert EffectiveStatus(later.quizzes[q], at) == Live;
    assert Extend(later, actor, q, published.quizzes[q].endsAt.value + 1).out.Done?;
  }

  lemma LateAtTheEnd(rules: TextRules, db: DB, run: seq<Action>, q: QuizId, i: AttemptId)
    requires NoPublish(run)
    requires var db' := Exec(rules, db, run);
             i < |db'.attempts| && db'.attempts[i].quiz == q && !AnswersByDeadline(db'.attempts[i])
    ensures !NeverLateFrom(rules, db, q)
  {
    NoPublishIsLateCareful(rules, db, run, q);
    assert !NoneLate(rules, db, run, q);
  }

  lemma {:induction false} HeldAnswerGoesLate(rules: TextRules, db: DB, actor: Actor, q: QuizId, input: PublishInput,
                                              i: AttemptId, id: QuestionId)
    requires Publish(db, actor, q, input).out.Done? && i < |db.attempts| && db.attempts[i].quiz == q
    requires db.attempts[i].status.InProgress? && id in db.attempts[i].answers
    requires db.attempts[i].answers[id].savedAt
           > Windows.Budget(Published(db.quizzes[q], input), db.attempts[i]) + WRITE_GRACE
    ensures !NeverLateFrom(rules, Publish(db, actor, q, input).db, q)
  {
    var published, elapsed := Publish(db, actor, q, input).db, input.startsAt - db.now;
    assert published.quizzes[q] == Published(db.quizzes[q], input);
    ExtensionLeavesLate(published, actor, q, i, id, input.startsAt);
    Rescheduling.WaitThenExtend(rules, published, elapsed, actor, q, input.endsAt + 1);
    LateAtTheEnd(rules, published, [Tick(elapsed)] + [Extends(actor, q, input.endsAt + 1)], q, i);
  }

  // ----- An answer saved after the publish -----

  /** The first moment past the new budget and grace, from now on. */
  function PastBudget(z: Quiz, row: Attempt, now: Time): Time {
    var past := Windows.Budget(z, row) + WRITE_GRACE + 1;
    if past < now then now else past
  }

  lemma {:induction false} LastOrdinal(qs: seq<Question>)
    requires qs != []
    ensures Ordinal(qs, qs[|qs| - 1].id) == Some(|qs|)
  {
  }

  /** An attempt under its old deadline takes an answer that its new budget would not have. */
  lemma OldDeadlineTakesIt(db: DB, q: QuizId, i: AttemptId, id: QuestionId)
    requires i < |db.attempts| && db.attempts[i].quiz == q < |db.quizzes| && db.attempts[i].status.InProgress?
    requires db.now <= db.attempts[i].deadlineAt + WRITE_GRACE && SnapshotOrdinal(db, db.attempts[i], id).Some?
    ensures var saved := SaveAnswer(db, Actor(db.attempts[i].student, Student, true), i, id, Json.Bool(true), 0).db;
            && saved.now == db.now && saved.quizzes == db.quizzes && |saved.attempts| == |db.attempts|
            && saved.attempts[i].quiz == q && saved.attempts[i].status.InProgress?
            && saved.attempts[i].startedAt == db.attempts[i].startedAt
            && id in saved.attempts[i].answers && saved.attempts[i].answers[id].savedAt == db.now
  {
  }

  function SavesLater(row: Attempt, i: AttemptId, id: QuestionId, elapsed: nat): seq<Action> {
    [Tick(elapsed), Action.Saves(Actor(row.student, Student, true), i, id, Json.Bool(true), 0)]
  }

  lemma {:induction false} SavedLater(rules: TextRules, db: DB, q: QuizId, i: AttemptId, id: QuestionId, elapsed: nat)
    requires i < |db.attempts| && db.attempts[i].quiz == q < |db.quizzes| && db.attempts[i].status.InProgress?
    requires db.now + elapsed <= db.attempts[i].deadlineAt + WRITE_GRACE
    requires SnapshotOrdinal(db, db.attempts[i], id).Some?
    ensures var saved := Exec(rules, db, SavesLater(db.attempts[i], i, id, elapsed));
            && saved.now == db.now + elapsed && saved.quizzes == db.quizzes && |saved.attempts| == |db.attempts|
            && saved.attempts[i].quiz == q && saved.attempts[i].status.InProgress?
            && saved.attempts[i].startedAt == db.attempts[i].startedAt
            && id in saved.attempts[i].answers && saved.attempts[i].answers[id].savedAt == saved.now
  {
    ExecShort(rules, db, Tick(elapsed),
              Action.Saves(Actor(db.attempts[i].student, Student, true), i, id, Json.Bool(true), 0));
    OldDeadlineTakesIt(db.(now := db.now + elapsed), q, i, id);
  }

  lemma {:induction false} SavedThenExtended(rules: TextRules, db: DB, first: seq<Action>, actor: Actor, q: QuizId,
                                             i: AttemptId, id: QuestionId, elapsed: nat)
    requires NoPublish(first)
    requires var saved := Exec(rules, db, first);
             && Edits(actor, saved, q) && i < |saved.attempts| && saved.attempts[i].quiz == q
             && saved.attempts[i].status.InProgress? && id in saved.attempts[i].answers
             && var z := saved.quizzes[q];
                && z.status == Scheduled && z.startsAt.Some? && z.endsAt.Some?
                && z.startsAt.value <= saved.now + elapsed < z.endsAt.value
                && saved.attempts[i].answers[id].savedAt > Windows.Budget(z, saved.attempts[i]) + WRITE_GRACE
    ensures !NeverLateFrom(rules, db, q)
  {
    var saved := Exec(rules, db, first);
    var newEndsAt := saved.quizzes[q].endsAt.value + 1;
    ExtensionLeavesLate(saved, actor, q, i, id, saved.now + elapsed);
    Rescheduling.WaitThenExtend(rules, saved, elapsed, actor, q, newEndsAt);
    ExecConcat(rules, db, first, [Tick(elapsed)] + [Extends(actor, q, newEndsAt)]);
    LateAtTheEnd(rules, db, first + ([Tick(elapsed)] + [Extends(actor, q, newEndsAt)]), q, i);
  }

  /** A publish leaves what an attempt pinned, and there is a question in it to answer. */
  lemma HasAQuestion(db: DB, actor: Actor, q: QuizId, input: PublishInput, row: Attempt) returns (id: QuestionId)
    requires Publish(db, actor, q, input).out.Done? && PinnedSnapshot(db.quizzes, row).Some?
    requires PinnedSnapshot(db.quizzes, row).value.questions != []
    ensures SnapshotOrdinal(Publish(db, actor, q, input).db, row, id).Some?
  {
    var questions := PinnedSnapshot(db.quizzes, row).value.questions;
    id := questions[|questions| - 1].id;
    LastOrdinal(questions);
    assert PinnedSnapshot(Publish(db, actor, q, input).db.quizzes, row) == PinnedSnapshot(db.quizzes, row);
  }

  lemma {:induction false} NewAnswerGoesLate(rules: TextRules, db: DB, actor: Actor, q: QuizId, input: PublishInput,
                                             i: AttemptId)
    requires Publish(db, actor, q, input).out.Done? && Ready(db, q) && i < |db.attempts| && db.attempts[i].quiz == q
    requires db.attempts[i].status.InProgress?
    requires var z, row := Published(db.quizzes[q], input), db.attempts[i];
             && row.deadlineAt > Windows.Budget(z, row) && input.endsAt > Windows.Budget(z, row) + WRITE_GRACE + 1
             && db.now <= row.deadlineAt + WRITE_GRACE
    ensures !NeverLateFrom(rules, Publish(db, actor, q, input).db, q)
  {
    var published, row := Publish(db, actor, q, input).db, db.attempts[i];
    var at := PastBudget(Published(db.quizzes[q], input), row, db.now);
    assert published.quizzes[q] == Published(db.quizzes[q], input);
    var id := HasAQuestion(db, actor, q, input, row);
    SavedLater(rules, published, q, i, id, at - db.now);
    SavedThenExtended(rules, published, SavesLater(row, i, id, at - db.now), actor, q, i, id,
                      if at < input.startsAt then input.startsAt - at else 0);
  }

  /** After a publish, no careful run leaves an answer past deadline and grace exactly when the new window
      covers every running attempt. */
  lemma NeverLateFromIff(rules: TextRules, db: DB, actor: Actor, q: QuizId, input: PublishInput)
    requires Publish(db, actor, q, input).out.Done? && Ready(db, q) && Windows.ShapesOk(db)
    ensures NeverLateFrom(rules, Publish(db, actor, q, input).db, q)
       <==> Covers(Published(db.quizzes[q], input), db.attempts, q, db.now)
  {
    var z := Published(db.quizzes[q], input);
    if Covers(z, db.attempts, q, db.now) {
      CoversThenNeverLate(rules, db, actor, q, input);
    } else {
      var i :| 0 <= i < |db.attempts| && db.attempts[i].quiz == q && !BudgetCovers(z, db.attempts[i], db.now);
      var row := db.attempts[i];
      if id :| id in row.answers && row.answers[id].savedAt > Windows.Budget(z, row) + WRITE_GRACE {
        HeldAnswerGoesLate(rules, db, actor, q, input, i, id);
      } else {
        NewAnswerGoesLate(rules, db, actor, q, input, i);
      }
    }
  }

  /** Every state that careful publishes reach is one where this applies. */
  lemma {:induction false} ReadyOnCarefulRuns(rules: TextRules, now: Time, run: seq<Action>, q: QuizId)
    requires LateCareful(rules, Empty(now), run, q)
    ensures Ready(Exec(rules, Empty(now), run), q) && Windows.ShapesOk(Exec(rules, Empty(now), run))
  {
    var db := Exec(rules, Empty(now), run);
    ShapesAlways(rules, now, run);
    RowsHoldAlways(rules, now, run);
    ReviewRuns.KeysOkAlways(rules, now, run);
    forall i | 0 <= i < |db.attempts| && db.attempts[i].quiz == q
      ensures InTime(db.attempts[i], db.now) && PinnedSnapshot(db.quizzes, db.attempts[i]).Some?
      ensures PinnedSnapshot(db.quizzes, db.attempts[i]).value.questions != []
    {
      AlwaysInTime(rules, now, run, i, q);
      assert RowsKept.RowHolds(db, i);
      assert ReviewRuns.KeysOk(db.quizzes[q]);
    }
  }
}
