/** What each statement of the worker does, in full (server/internal/quiz/scheduler.go,
    server/internal/attempt/scheduler.go, server/internal/attempt/grade.go, server/internal/quiz/results.go,
    server/internal/analytics/rollup.go): the rows it takes, what it makes of them, and what it leaves alone. */
module WorkerEffects {
  import opened Common
  import opened Grading
  import opened Schema
  import opened Transactions
  import Rollup
  import RowsKept
  import StudentEffects
  import TeacherEffects

  // ----- Quiz transitions -----

  /** The stored status after the sweep: a quiz past its end is closed, one inside its window is live, and a
      draft or an archived quiz stays what it is. */
  ghost predicate SweptStatus(now: int, z: Quiz, status: QuizStatus) {
    && (status == Closed <==> z.status == Closed || (z.status != Archived && TeacherEffects.ReadsOver(z, now)))
    && (z.endsAt.Some? ==> (status == Live <==> TeacherEffects.ReadsLive(z, now)))
    && (z.endsAt.None? ==> status == z.status)
    && (status == Draft <==> z.status == Draft)
    && (status == Archived <==> z.status == Archived)
  }

  /** Only the stored statuses of the quizzes move. */
  lemma SweepQuizzesEffect(db: DB, q: QuizId)
    requires q < |db.quizzes|
    ensures var db' := SweepQuizzes(db);
            && db' == db.(quizzes := db'.quizzes) && |db'.quizzes| == |db.quizzes|
            && db'.quizzes[q] == db.quizzes[q].(status := db'.quizzes[q].status)
            && SweptStatus(db.now, db.quizzes[q], db'.quizzes[q].status)
  {
  }

  // ----- Terminations -----

  /** The status of a quiz whose attempts are no longer waited for. */
  predicate StoredOver(z: Quiz) {
    z.status == Closed || z.status == Archived
  }

  /** Which attempts each of the two statements takes: those past deadline and grace, or those on a quiz
      stored as over. */
  predicate Taken(db: DB, kind: SubmitKind, row: Attempt) {
    && row.status == InProgress
    && if kind == ByDeadline then db.now >= row.deadlineAt + 5_000_000
       else row.quiz < |db.quizzes| && StoredOver(db.quizzes[row.quiz])
  }

  lemma SweepSubmitEffect(db: DB, kind: SubmitKind, i: AttemptId)
    requires i < |db.attempts|
    ensures var db', row := SweepSubmit(db, kind), db.attempts[i];
            && db' == db.(attempts := db'.attempts, log := db'.log) && |db'.attempts| == |db.attempts|
            && if Taken(db, kind, row)
               then && db'.attempts[i] == row.(status := Submitted, kind := Some(kind), submittedAt := Some(db.now))
                    && Of(db'.log, i) == Of(db.log, i) + [SubmittedEvent(kind, AnsweredCount(row.answers))]
               else db'.attempts[i] == row && Of(db'.log, i) == Of(db.log, i)
  {
    RowsKept.OfSwept(db, kind, i);
  }

  // ----- Grading -----

  /** A submitted or kicked attempt is graded on the version it pinned: what its right answers earn less
      what its wrong ones forfeit, and never below zero, with every response as it was and one event. */
  lemma GradeOneEffect(rules: TextRules, db: DB, a: AttemptId)
    ensures var db' := GradeOne(rules, db, a);
            if a < |db.attempts| && (db.attempts[a].status == Submitted || db.attempts[a].status == Kicked)
               && PinnedSnapshot(db.quizzes, db.attempts[a]).Some?
            then MarksAttempt(rules, PinnedSnapshot(db.quizzes, db.attempts[a]).value.questions, db, db', a)
            else db' == db
  {
    if a < |db.attempts| && PinnedSnapshot(db.quizzes, db.attempts[a]).Some? {
      var row, snapshot := db.attempts[a], PinnedSnapshot(db.quizzes, db.attempts[a]).value;
      var graded := GradedRow(rules, row, snapshot);
      ScoreIsEarnedLessForfeited(rules, snapshot.questions, row.answers);
      StudentEffects.WithAttemptRewrites(db, a, graded, [GradedEvent(graded.score.value)]);
    }
  }

  ghost predicate MarksAttempt(rules: TextRules, questions: seq<Question>, db: DB, db': DB, a: AttemptId)
    requires a < |db.attempts|
  {
    && |db'.attempts| == |db.attempts| && db'.audit == db.audit
    && var row, answers := db.attempts[a], db'.attempts[a].answers;
       var raw := Earned(rules, questions, row.answers) - Forfeited(rules, questions, row.answers);
       var score := if raw < 0.0 then 0.0 else raw;
       && answers.Keys == row.answers.Keys
       && (forall id | id in row.answers :: answers[id].response == row.answers[id].response)
       && StudentEffects.Rewrites(db, db', a, row.(status := Graded, score := Some(score), answers := answers),
                                  [GradedEvent(score)])
  }

  // ----- Releases -----

  /** Automatic results are released once the quiz is stored as over and none of its attempts is running or
      waiting for a grade. */
  lemma ReleaseDueEffect(db: DB, q: QuizId)
    requires q < |db.quizzes|
    ensures var db', z := ReleaseDueResults(db), db.quizzes[q];
            && db' == db.(quizzes := db'.quizzes) && |db'.quizzes| == |db.quizzes|
            && if StoredOver(z) && z.releasePolicy == Automatic && z.releasedAt == None
                  && forall i | 0 <= i < |db.attempts| && db.attempts[i].quiz == q ::
                       db.attempts[i].status == Graded || db.attempts[i].status == Kicked
               then db'.quizzes[q] == z.(releasedAt := Some(db.now)) else db'.quizzes[q] == z
  {
  }

  // ----- Rollups -----

  /** The rows of the attempts on a quiz, in table order. */
  predicate IsListing(attempts: seq<Attempt>, q: QuizId, rows: seq<Attempt>) {
    && (forall k | 0 <= k < |rows| :: rows[k].quiz == q && rows[k] in attempts)
    && multiset(rows) <= multiset(attempts)
    && (forall row | row in attempts && row.quiz == q :: multiset(rows)[row] == multiset(attempts)[row])
  }

  lemma {:induction false} AttemptsOnListing(attempts: seq<Attempt>, q: QuizId)
    ensures IsListing(attempts, q, Rollup.AttemptsOn(attempts, q))
  {
    if attempts != [] {
      var init, last := attempts[..|attempts| - 1], attempts[|attempts| - 1];
      AttemptsOnListing(init, q);
      assert attempts == init + [last];
      assert forall row | row in init :: row in attempts;
    }
  }

  /** A quiz stored as over, without statistics, and with every attempt graded gets its one row; the rollup
      touches nothing else. */
  lemma RollupOneEffect(db: DB, q: QuizId)
    ensures var db' := RollupOne(db, q);
            if q < |db.quizzes| && StoredOver(db.quizzes[q]) && db.quizzes[q].stats == None
               && forall i | 0 <= i < |db.attempts| && db.attempts[i].quiz == q :: db.attempts[i].status == Graded
            then StoresSummary(db, db', q) else db' == db
  {
    if q < |db.quizzes| {
      var source := Rollup.Inputs(db, q);
      AttemptsOnListing(db.attempts, q);
      Rollup.ComputeSummarizes(source);
      if RollupOne(db, q) != db {
        assert SummarizesQuiz(Rollup.Compute(source), db, q);
      }
    }
  }

  ghost predicate SummarizesQuiz(stats: Stats, db: DB, q: QuizId)
    requires q < |db.quizzes|
  {
    exists rows ::
      && IsListing(db.attempts, q, rows)
      && Rollup.Summarizes(stats, Rollup.Source(rows, db.quizzes[q].audience, db.quizzes[q].versions))
  }

  ghost predicate StoresSummary(db: DB, db': DB, q: QuizId)
    requires q < |db.quizzes|
  {
    exists stats ::
      && SummarizesQuiz(stats, db, q)
      && db' == db.(quizzes := db.quizzes[q := db.quizzes[q].(stats := Some(stats))])
  }
}
