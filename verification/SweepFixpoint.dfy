/** What one uninterrupted worker pass reaches (server/internal/worker/worker.go, sweepDue): a state in
    which nothing is due, and in which another pass at the same moment does nothing at all. */
module SweepFixpoint {
  import opened Common
  import opened Grading
  import opened Schema
  import opened Transactions
  import opened Runs
  import RowsKept
  import Rollup

  // ----- Settled states -----

  predicate AttemptSettled(db: DB, row: Attempt) {
    && !DueFor(db, ByDeadline, row) && !DueFor(db, ByClose, row)
    && !row.status.Submitted? && !row.status.Kicked?
    && (QuizTerminal(db.quizzes, row.quiz) ==> row.status.Graded?)
  }

  predicate QuizSettled(db: DB, z: Quiz) {
    && SweptQuiz(z, db.now) == z
    && (Terminal(z.status) && z.releasePolicy == Automatic ==> z.releasedAt.Some?)
    && (Terminal(z.status) ==> z.stats.Some?)
  }

  /** No quiz transition is due, no attempt is due or ungraded, every attempt on a closed or archived
      quiz is graded, every such auto-release quiz is released and every such quiz has its stats. */
  predicate Settled(db: DB) {
    && (forall i | 0 <= i < |db.attempts| :: AttemptSettled(db, db.attempts[i]))
    && (forall q | 0 <= q < |db.quizzes| :: QuizSettled(db, db.quizzes[q]))
  }

  // ----- A settled state is a fixpoint -----

  lemma {:induction false} NothingSwept(db: DB, kind: SubmitKind, n: nat)
    requires n <= |db.attempts| && forall i | 0 <= i < |db.attempts| :: !DueFor(db, kind, db.attempts[i])
    ensures SweptEvents(db, kind, n) == []
  {
    if n > 0 {
      NothingSwept(db, kind, n - 1);
    }
  }

  lemma NothingSubmitted(db: DB, kind: SubmitKind)
    requires forall i | 0 <= i < |db.attempts| :: !DueFor(db, kind, db.attempts[i])
    ensures SweepSubmit(db, kind) == db
  {
    NothingSwept(db, kind, |db.attempts|);
    assert SweepSubmit(db, kind).attempts == db.attempts;
  }

  lemma {:induction false} NothingGraded(rules: TextRules, db: DB, n: nat)
    requires forall i | 0 <= i < |db.attempts| :: !db.attempts[i].status.Submitted? && !db.attempts[i].status.Kicked?
    ensures GradeUpTo(rules, db, n) == db
  {
    if n > 0 {
      NothingGraded(rules, db, n - 1);
    }
  }

  lemma {:induction false} NothingRolledUp(db: DB, n: nat)
    requires forall q | 0 <= q < |db.quizzes| :: Terminal(db.quizzes[q].status) ==> db.quizzes[q].stats.Some?
    ensures RollupUpTo(db, n) == db
  {
    if n > 0 {
      NothingRolledUp(db, n - 1);
    }
  }

  lemma SettledPassIsIdle(rules: TextRules, db: DB)
    requires Settled(db)
    ensures SweepDue(rules, db) == db
  {
    assert forall q | 0 <= q < |db.quizzes| :: QuizSettled(db, db.quizzes[q]);
    assert SweepQuizzes(db).quizzes == db.quizzes;
    forall i | 0 <= i < |db.attempts|
      ensures !DueFor(db, ByDeadline, db.attempts[i]) && !DueFor(db, ByClose, db.attempts[i])
      ensures !db.attempts[i].status.Submitted? && !db.attempts[i].status.Kicked?
    {
      assert AttemptSettled(db, db.attempts[i]);
    }
    NothingSubmitted(db, ByDeadline);
    NothingSubmitted(db, ByClose);
    NothingGraded(rules, db, |db.attempts|);
    assert ReleaseDueResults(db).quizzes == db.quizzes;
    NothingRolledUp(db, |db.quizzes|);
  }

  // ----- What a pass does to each row -----

  /** An expired attempt keeps its own kind even when its quiz has closed as well. */
  function SweptRow(row: Attempt, closed: bool, now: Time): Attempt {
    if !row.status.InProgress? then row
    else if row.deadlineAt + WRITE_GRACE <= now then Terminated(row, ByDeadline, now)
    else if closed then Terminated(row, ByClose, now)
    else row
  }

  function GradedIfDue(rules: TextRules, quizzes: seq<Quiz>, row: Attempt): Attempt {
    if row.status.Submitted? || row.status.Kicked? then
      match PinnedSnapshot(quizzes, row)
      case None => row
      case Some(snapshot) => GradedRow(rules, row, snapshot)
    else row
  }

  lemma SweptAttempts(db: DB)
    ensures var db' := SweepAttempts(db);
            && db'.now == db.now && db'.quizzes == db.quizzes && |db'.attempts| == |db.attempts|
            && forall i | 0 <= i < |db.attempts| ::
                 db'.attempts[i] == SweptRow(db.attempts[i], QuizTerminal(db.quizzes, db.attempts[i].quiz), db.now)
  {
  }

  lemma {:induction false} GradedAttempts(rules: TextRules, db: DB, n: nat)
    requires n <= |db.attempts|
    ensures var db' := GradeUpTo(rules, db, n);
            && db'.now == db.now && db'.quizzes == db.quizzes && |db'.attempts| == |db.attempts|
            && forall i | 0 <= i < |db.attempts| ::
                 db'.attempts[i] == if i < n then GradedIfDue(rules, db.quizzes, db.attempts[i]) else db.attempts[i]
  {
    if n > 0 {
      GradedAttempts(rules, db, n - 1);
    }
  }

  function RolledUp(db: DB, q: QuizId): Quiz
    requires q < |db.quizzes|
  {
    if RollupDue(db, q) then db.quizzes[q].(stats := Some(Rollup.Compute(Rollup.Inputs(db, q)))) else db.quizzes[q]
  }

  lemma {:induction false} RolledUpQuizzes(db: DB, n: nat)
    requires n <= |db.quizzes|
    ensures var db' := RollupUpTo(db, n);
            && db' == db.(quizzes := db'.quizzes) && |db'.quizzes| == |db.quizzes|
            && forall q | 0 <= q < |db.quizzes| :: db'.quizzes[q] == if q < n then RolledUp(db, q) else db.quizzes[q]
  {
    if n > 0 {
      RolledUpQuizzes(db, n - 1);
      var before := RollupUpTo(db, n - 1);
      assert Rollup.Inputs(before, n - 1) == Rollup.Inputs(db, n - 1);
      assert RollupDue(before, n - 1) == RollupDue(db, n - 1);
    }
  }

  function PassedRow(rules: TextRules, quizzes: seq<Quiz>, row: Attempt, now: Time): Attempt {
    GradedIfDue(rules, quizzes, SweptRow(row, QuizTerminal(quizzes, row.quiz), now))
  }

  /** The attempts after a pass, in terms of the quizzes once their own transitions have been applied. */
  lemma PassedAttempts(rules: TextRules, db: DB)
    ensures var quizzes, db' := SweepQuizzes(db).quizzes, SweepDue(rules, db);
            && db'.now == db.now && |db'.attempts| == |db.attempts| && |db'.quizzes| == |db.quizzes|
            && forall i | 0 <= i < |db.attempts| ::
                 db'.attempts[i] == PassedRow(rules, quizzes, db.attempts[i], db.now)
  {
    var flipped := SweepQuizzes(db);
    var swept := SweepAttempts(flipped);
    SweptAttempts(flipped);
    GradedAttempts(rules, swept, |swept.attempts|);
    var released := ReleaseDueResults(GradeSubmitted(rules, swept));
    RolledUpQuizzes(released, |released.quizzes|);
  }

  predicate EndedByPass(rules: TextRules, db: DB, row: Attempt, row': Attempt) {
    && row'.status.Graded? && row'.submittedAt == Some(db.now)
    && (row'.kind == Some(ByDeadline) || row'.kind == Some(ByClose))
    && (row'.kind == Some(ByDeadline) <==> row.deadlineAt + WRITE_GRACE <= db.now)
    && row.quiz < |db.quizzes|
    && (row'.kind == Some(ByClose) ==> Terminal(EffectiveStatus(db.quizzes[row.quiz], db.now)))
    && PinnedSnapshot(db.quizzes, row).Some?
    && row'.score == Some(Score(rules, PinnedSnapshot(db.quizzes, row).value.questions, row.answers))
  }

  lemma PassedRowEnded(rules: TextRules, db: DB, row: Attempt)
    requires row.status.InProgress? && PinnedSnapshot(db.quizzes, row).Some?
    ensures var row' := PassedRow(rules, SweepQuizzes(db).quizzes, row, db.now);
            row' == row || EndedByPass(rules, db, row, row')
  {
    assert PinnedSnapshot(SweepQuizzes(db).quizzes, row) == PinnedSnapshot(db.quizzes, row);
  }

  /** A pass writes 'forced' only on an attempt still inside its deadline and grace, and 'auto' only on
      one past them; every attempt it ends, it also grades, on the version the attempt pinned. */
  lemma PassKinds(rules: TextRules, db: DB, i: AttemptId)
    requires RowsKept.RowsOk(db) && i < |db.attempts| && db.attempts[i].status.InProgress?
    ensures var after := SweepDue(rules, db).attempts;
            && |after| == |db.attempts|
            && (after[i] == db.attempts[i] || EndedByPass(rules, db, db.attempts[i], after[i]))
  {
    PassedAttempts(rules, db);
    assert RowsKept.RowHolds(db, i);
    PassedRowEnded(rules, db, db.attempts[i]);
  }

  // ----- A pass settles everything -----

  lemma {:induction false} SweptQuizIsStable(z: Quiz, now: Time)
    ensures SweptQuiz(SweptQuiz(z, now), now) == SweptQuiz(z, now)
  {
  }

  lemma PassedRowSettled(rules: TextRules, quizzes: seq<Quiz>, row: Attempt, now: Time)
    requires PinnedSnapshot(quizzes, row).Some?
    ensures var row' := PassedRow(rules, quizzes, row, now);
            && row'.quiz == row.quiz && !row'.status.Submitted? && !row'.status.Kicked?
            && (row'.status.InProgress? ==> row'.deadlineAt + WRITE_GRACE > now && !QuizTerminal(quizzes, row.quiz))
  {
  }

  /** The state between grading and release, which the last two sweeps read. */
  lemma GradedState(rules: TextRules, db: DB)
    requires RowsKept.RowsOk(db)
    ensures var db' := GradeSubmitted(rules, SweepAttempts(SweepQuizzes(db)));
            && db'.now == db.now && db'.quizzes == SweepQuizzes(db).quizzes && |db'.attempts| == |db.attempts|
            && forall i | 0 <= i < |db'.attempts| ::
                 && !db'.attempts[i].status.Submitted? && !db'.attempts[i].status.Kicked?
                 && (db'.attempts[i].status.InProgress? ==>
                       && db'.attempts[i].deadlineAt + WRITE_GRACE > db.now
                       && !QuizTerminal(db'.quizzes, db'.attempts[i].quiz))
  {
    var flipped := SweepQuizzes(db);
    var swept := SweepAttempts(flipped);
    var db' := GradeSubmitted(rules, swept);
    SweptAttempts(flipped);
    GradedAttempts(rules, swept, |swept.attempts|);
    RowsKept.SweepQuizzesKeeps(db);
    forall i | 0 <= i < |db'.attempts|
      ensures !db'.attempts[i].status.Submitted? && !db'.attempts[i].status.Kicked?
      ensures db'.attempts[i].status.InProgress? ==>
                db'.attempts[i].deadlineAt + WRITE_GRACE > db.now && !QuizTerminal(db'.quizzes, db'.attempts[i].quiz)
    {
      assert RowsKept.RowHolds(flipped, i);
      PassedRowSettled(rules, flipped.quizzes, db.attempts[i], db.now);
    }
  }

  /** What the release and the rollup leave of a state in which grading is complete. */
  lemma LastSweepsSettle(db: DB)
    requires forall q | 0 <= q < |db.quizzes| :: SweptQuiz(db.quizzes[q], db.now) == db.quizzes[q]
    requires forall i | 0 <= i < |db.attempts| ::
               && !db.attempts[i].status.Submitted? && !db.attempts[i].status.Kicked?
               && (db.attempts[i].status.InProgress? ==>
                     db.attempts[i].deadlineAt + WRITE_GRACE > db.now && !QuizTerminal(db.quizzes, db.attempts[i].quiz))
    ensures Settled(RollupDueQuizzes(ReleaseDueResults(db)))
  {
    var released := ReleaseDueResults(db);
    RolledUpQuizzes(released, |released.quizzes|);
    var db' := RollupDueQuizzes(released);
    forall q | 0 <= q < |db.quizzes|
      ensures QuizSettled(db', db'.quizzes[q]) && db'.quizzes[q].status == db.quizzes[q].status
    {
      assert db'.quizzes[q] == RolledUp(released, q);
      if Terminal(db.quizzes[q].status) {
        assert db.quizzes[q].stats.None? ==> RollupDue(released, q);
      }
    }
  }

  lemma PassSettlesEverything(rules: TextRules, db: DB)
    requires RowsKept.RowsOk(db)
    ensures Settled(SweepDue(rules, db))
  {
    var graded := GradeSubmitted(rules, SweepAttempts(SweepQuizzes(db)));
    GradedState(rules, db);
    forall q | 0 <= q < |graded.quizzes|
      ensures SweptQuiz(graded.quizzes[q], graded.now) == graded.quizzes[q]
    {
      SweptQuizIsStable(db.quizzes[q], db.now);
    }
    LastSweepsSettle(graded);
  }

  /** In every reachable state: a pass reaches a settled state, a second pass at the same moment changes
      no row and appends no event, and a pass is idle exactly on the settled states. */
  lemma {:induction false} PassReachesFixpoint(rules: TextRules, now: Time, run: seq<Action>)
    ensures var db := Exec(rules, Empty(now), run);
            && Settled(SweepDue(rules, db))
            && SweepDue(rules, SweepDue(rules, db)) == SweepDue(rules, db)
            && (SweepDue(rules, db) == db <==> Settled(db))
  {
    var db := Exec(rules, Empty(now), run);
    RowsHoldAlways(rules, now, run);
    PassSettlesEverything(rules, db);
    SettledPassIsIdle(rules, SweepDue(rules, db));
    if Settled(db) {
      SettledPassIsIdle(rules, db);
    }
  }
}
