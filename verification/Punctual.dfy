/** Times and audiences: what is recorded of an attempt happened while it ran; and along careful runs, no
    deadline is shortened and no student left taking a quiz they are not assigned. */
module Punctual {
  import opened Common
  import opened Grading
  import opened Schema
  import opened Transactions
  import opened RowMoves
  import opened Runs
  import Answers
  import Windows

  /** Everything recorded of an attempt happened after it started, by now, and before it ended; a submission
      of the student's own came by the deadline and its grace. */
  predicate Recorded(row: Attempt, now: Time) {
    && row.startedAt <= now
    && (forall id | id in row.answers ::
          && row.startedAt <= row.answers[id].savedAt <= now
          && (row.submittedAt.Some? ==> row.answers[id].savedAt <= row.submittedAt.value))
    && (row.submittedAt.Some? ==> row.startedAt <= row.submittedAt.value <= now)
    && (row.submittedAt.None? ==> row.kind.None?)
    && (row.status.InProgress? ==> row.submittedAt.None?)
    && (row.kind == Some(ByStudent) ==> row.submittedAt.value <= row.deadlineAt + WRITE_GRACE)
  }

  lemma MoveRecorded(rules: TextRules, db: DB, row: Attempt, move: RowMove)
    requires May(db, row, move) && Recorded(row, db.now)
    ensures Recorded(Moved(rules, db, row, move), db.now)
  {
    if move.Graded? {
      Answers.MarkedOnlyAnswers(rules, PinnedSnapshot(db.quizzes, row).value.questions, row.answers);
    }
  }

  /** An attempt of this index in both states is on the same quiz. */
  lemma SameQuiz(rules: TextRules, db: DB, act: Action, i: AttemptId)
    requires i < |db.attempts|
    ensures i < |Apply(rules, db, act).attempts| && Apply(rules, db, act).attempts[i].quiz == db.attempts[i].quiz
  {
    ApplyMoves(rules, db, act);
    MovesKeepIdentity(rules, db, Apply(rules, db, act).attempts);
    assert Windows.SameIdentity(db.attempts[i], Apply(rules, db, act).attempts[i]);
  }

  /** No transaction ever moves a deadline earlier, or the deadline of an expired attempt at all. */
  lemma {:induction false} DeadlinesOnlyMoveLater(care: Windows.Care, rules: TextRules, db: DB, act: Action,
                                                  i: AttemptId)
    requires i < |db.attempts| && Windows.WindowOk(care, db, db.attempts[i].quiz)
    ensures var after := Apply(rules, db, act).attempts;
            && i < |after| && after[i].quiz == db.attempts[i].quiz
            && after[i].deadlineAt >= db.attempts[i].deadlineAt
            && (db.attempts[i].deadlineAt <= db.now ==> after[i].deadlineAt == db.attempts[i].deadlineAt)
  {
    SameQuiz(rules, db, act, i);
    if act.Extends? {
      ExtensionMovesLater(care, db, act.actor, act.q, act.newEndsAt, i);
    } else if ByStudents(act) || ByModerators(act) || ByWorker(act) {
      ActionSettles(rules, db, act);
    }
  }

  lemma ExtensionMovesLater(care: Windows.Care, db: DB, actor: Actor, q: QuizId, newEndsAt: Time, i: AttemptId)
    requires i < |db.attempts| && Windows.WindowOk(care, db, db.attempts[i].quiz)
    ensures var after := Extend(db, actor, q, newEndsAt).db.attempts;
            && i < |after| && after[i].deadlineAt >= db.attempts[i].deadlineAt
            && (db.attempts[i].deadlineAt <= db.now ==> after[i].deadlineAt == db.attempts[i].deadlineAt)
  {
    if Extend(db, actor, q, newEndsAt).out.Done? && db.attempts[i].quiz == q {
      Windows.ExtendOnlyHelpsOpenAttempts(care, db, actor, q, newEndsAt, i);
    }
  }

  lemma ClockOnlyAdvances(rules: TextRules, db: DB, act: Action)
    ensures Apply(rules, db, act).now >= db.now
    ensures Apply(rules, db, act).now == db.now || Apply(rules, db, act).attempts == db.attempts
  {
  }

  lemma StepStaysRecorded(rules: TextRules, db: DB, act: Action, i: AttemptId)
    requires i < |db.attempts| && Recorded(db.attempts[i], db.now)
    ensures var db' := Apply(rules, db, act); i < |db'.attempts| && Recorded(db'.attempts[i], db'.now)
  {
    ClockOnlyAdvances(rules, db, act);
    ApplyMoves(rules, db, act);
    var db' := Apply(rules, db, act);
    assert Moves(rules, db, db.attempts[i], db'.attempts[i]);
    var move: RowMove :| May(db, db.attempts[i], move) && db'.attempts[i] == Moved(rules, db, db.attempts[i], move);
    MoveRecorded(rules, db, db.attempts[i], move);
  }

  lemma NewIsRecorded(rules: TextRules, db: DB, act: Action, i: AttemptId)
    requires |db.attempts| <= i < |Apply(rules, db, act).attempts|
    ensures var db' := Apply(rules, db, act);
            && Recorded(db'.attempts[i], db'.now) && Assigned(db'.quizzes, db'.attempts[i])
            && JustStarted(db, db'.attempts[i]) && db'.quizzes == db.quizzes && db'.now == db.now
  {
    ApplyMoves(rules, db, act);
    ClockOnlyAdvances(rules, db, act);
    OnlyStartsAdd(rules, db, act);
    assert JustStarted(db, Apply(rules, db, act).attempts[i]);
  }

  /** In every reachable state, for every attempt. */
  lemma {:induction false} AlwaysRecorded(rules: TextRules, now: Time, run: seq<Action>, i: AttemptId)
    ensures var db := Exec(rules, Empty(now), run); i < |db.attempts| ==> Recorded(db.attempts[i], db.now)
  {
    if run != [] && i < |Exec(rules, Empty(now), run).attempts| {
      var before := Exec(rules, Empty(now), run[..|run| - 1]);
      if i < |before.attempts| {
        AlwaysRecorded(rules, now, run[..|run| - 1], i);
        StepStaysRecorded(rules, before, run[|run| - 1], i);
      } else {
        NewIsRecorded(rules, before, run[|run| - 1], i);
      }
    }
  }

  // ----- The audience -----

  /** An attempt in progress belongs to a student assigned to its quiz. */
  predicate Assigned(quizzes: seq<Quiz>, row: Attempt) {
    row.status.InProgress? ==> row.quiz < |quizzes| && row.student in quizzes[row.quiz].audience
  }

  lemma AudiencesStay(rules: TextRules, db: DB, act: Action)
    requires !act.Assigns?
    ensures var after := Apply(rules, db, act).quizzes;
            |db.quizzes| <= |after| && forall q | 0 <= q < |db.quizzes| :: after[q].audience == db.quizzes[q].audience
  {
  }

  /** A removal is refused while it would strand an attempt in progress, and before the window opens there
      is none to strand. */
  lemma AssigningStrandsNobody(db: DB, actor: Actor, q: QuizId, students: set<UserId>, i: AttemptId)
    requires i < |db.attempts| && Assigned(db.quizzes, db.attempts[i])
    requires Windows.WindowOk(Windows.FindsNoneRunning, db, db.attempts[i].quiz)
    ensures Assigned(SetAssignments(db, actor, q, students).db.quizzes, db.attempts[i])
  {
    var row := db.attempts[i];
    if row.quiz == q && row.status.InProgress? {
      var z := db.quizzes[q];
      if row.student in z.audience - students {
        assert HasInProgress(db.attempts, q, z.audience - students);
      }
      if SetAssignments(db, actor, q, students).out.Done? && EffectiveStatus(z, db.now) != Live {
        Windows.UpcomingIsEmpty(Windows.FindsNoneRunning, db, q);
      }
    }
  }

  lemma StepStaysAssigned(rules: TextRules, db: DB, act: Action, i: AttemptId)
    requires i < |db.attempts| && Assigned(db.quizzes, db.attempts[i])
    requires Windows.WindowOk(Windows.FindsNoneRunning, db, db.attempts[i].quiz)
    ensures var db' := Apply(rules, db, act); i < |db'.attempts| && Assigned(db'.quizzes, db'.attempts[i])
  {
    var db' := Apply(rules, db, act);
    if act.Assigns? {
      AssigningStrandsNobody(db, act.actor, act.q, act.students, i);
    } else {
      AudiencesStay(rules, db, act);
    }
    ApplyMoves(rules, db, act);
    assert Moves(rules, db, db.attempts[i], db'.attempts[i]);
    MoveStaysAssigned(rules, db, db'.quizzes, db.attempts[i], db'.attempts[i]);
  }

  lemma MoveStaysAssigned(rules: TextRules, db: DB, quizzes: seq<Quiz>, row: Attempt, after: Attempt)
    requires Assigned(quizzes, row) && Moves(rules, db, row, after)
    ensures Assigned(quizzes, after)
  {
    var move: RowMove :| May(db, row, move) && after == Moved(rules, db, row, move);
  }

  predicate AssignedOn(db: DB, q: QuizId) {
    forall i | 0 <= i < |db.attempts| && db.attempts[i].quiz == q :: Assigned(db.quizzes, db.attempts[i])
  }

  lemma {:induction false} ApplyKeepsAssigned(rules: TextRules, db: DB, act: Action, q: QuizId)
    requires AssignedOn(db, q) && Windows.WindowOk(Windows.FindsNoneRunning, db, q)
    ensures AssignedOn(Apply(rules, db, act), q)
  {
    var db' := Apply(rules, db, act);
    forall i | 0 <= i < |db'.attempts| && db'.attempts[i].quiz == q
      ensures Assigned(db'.quizzes, db'.attempts[i])
    {
      if i < |db.attempts| {
        SameQuiz(rules, db, act, i);
        StepStaysAssigned(rules, db, act, i);
      } else {
        NewIsRecorded(rules, db, act, i);
      }
    }
  }

  lemma {:induction false} AssignedKept(rules: TextRules, db: DB, run: seq<Action>, q: QuizId)
    requires AssignedOn(db, q) && Windows.WindowOk(Windows.FindsNoneRunning, db, q)
    requires Careful(Windows.FindsNoneRunning, rules, db, run, q)
    ensures AssignedOn(Exec(rules, db, run), q)
  {
    if run != [] {
      AssignedKept(rules, db, run[..|run| - 1], q);
      WindowKept(Windows.FindsNoneRunning, rules, db, run[..|run| - 1], q);
      ApplyKeepsAssigned(rules, Exec(rules, db, run[..|run| - 1]), run[|run| - 1], q);
    }
  }

  /** In every state, on a quiz whose publishes find no running attempt. */
  lemma AlwaysAssigned(rules: TextRules, now: Time, run: seq<Action>, q: QuizId)
    requires Careful(Windows.FindsNoneRunning, rules, Empty(now), run, q)
    ensures AssignedOn(Exec(rules, Empty(now), run), q)
  {
    AssignedKept(rules, Empty(now), run, q);
  }

  // ----- Deadlines between any two states -----

  /** No deadline on q earlier, and none that had passed moved. */
  predicate DeadlinesKept(before: DB, after: DB, q: QuizId) {
    && before.now <= after.now && |before.attempts| <= |after.attempts|
    && forall i | 0 <= i < |before.attempts| && before.attempts[i].quiz == q ::
         && after.attempts[i].quiz == q && after.attempts[i].deadlineAt >= before.attempts[i].deadlineAt
         && (before.attempts[i].deadlineAt <= before.now ==>
               after.attempts[i].deadlineAt == before.attempts[i].deadlineAt)
  }

  lemma StepKeepsDeadlines(care: Windows.Care, rules: TextRules, db: DB, act: Action, q: QuizId)
    requires Windows.WindowOk(care, db, q)
    ensures DeadlinesKept(db, Apply(rules, db, act), q)
  {
    ClockOnlyAdvances(rules, db, act);
    ApplyMoves(rules, db, act);
    forall i | 0 <= i < |db.attempts| && db.attempts[i].quiz == q {
      DeadlinesOnlyMoveLater(care, rules, db, act, i);
    }
  }

  lemma {:induction false} DeadlinesKeptFrom(care: Windows.Care, rules: TextRules, db: DB, run: seq<Action>, q: QuizId)
    requires Windows.WindowOk(care, db, q) && Careful(care, rules, db, run, q)
    ensures DeadlinesKept(db, Exec(rules, db, run), q)
  {
    if run != [] {
      DeadlinesKeptFrom(care, rules, db, run[..|run| - 1], q);
      WindowKept(care, rules, db, run[..|run| - 1], q);
      StepKeepsDeadlines(care, rules, Exec(rules, db, run[..|run| - 1]), run[|run| - 1], q);
    }
  }

  lemma {:induction false} CarefulSplit(care: Windows.Care, rules: TextRules, db: DB, before: seq<Action>,
                                        after: seq<Action>, q: QuizId)
    requires Careful(care, rules, db, before + after, q)
    ensures Careful(care, rules, db, before, q) && Careful(care, rules, Exec(rules, db, before), after, q)
  {
    if after == [] {
      assert before + after == before;
    } else {
      var init := after[..|after| - 1];
      assert (before + after)[..|before + after| - 1] == before + init;
      CarefulSplit(care, rules, db, before, init, q);
      ExecConcat(rules, db, before, init);
    }
  }

  /** From any state of a run whose publishes harm no running attempt of the quiz to any later one, no
      deadline has moved earlier and no expired attempt has come back. */
  lemma ExpiredStaysExpired(rules: TextRules, now: Time, before: seq<Action>, after: seq<Action>, q: QuizId)
    requires Careful(Windows.FindsHarmless, rules, Empty(now), before + after, q)
    ensures DeadlinesKept(Exec(rules, Empty(now), before), Exec(rules, Empty(now), before + after), q)
  {
    CarefulSplit(Windows.FindsHarmless, rules, Empty(now), before, after, q);
    WindowsHoldOnCarefulRuns(Windows.FindsHarmless, rules, now, before, q);
    ExecConcat(rules, Empty(now), before, after);
    DeadlinesKeptFrom(Windows.FindsHarmless, rules, Exec(rules, Empty(now), before), after, q);
  }
}
