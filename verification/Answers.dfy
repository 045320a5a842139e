/** What an attempt's answers, cursor and score can be, along every run. */
module Answers {
  import opened Common
  import opened Grading
  import opened Schema
  import opened Transactions
  import opened RowMoves
  import opened Runs
  import RowsKept

  /** Only questions of the pinned version are answered; the cursor is the place of an answered question;
      an answer is marked only if it has a response and the attempt is graded; and the score is the
      score of the responses on record, unless a moderator has set it to zero. */
  predicate AnswersOk(rules: TextRules, snapshot: Snapshot, row: Attempt) {
    && (forall id | id in row.answers :: Ordinal(snapshot.questions, id).Some?)
    && (row.question.Some? ==> exists id | id in row.answers :: Ordinal(snapshot.questions, id) == row.question)
    && (forall id | id in row.answers && row.answers[id].isCorrect.Some? ::
          row.status.Graded? && row.answers[id].response.Some?)
    && (row.status.Graded? ==>
          row.score == Some(if row.overriddenAt.Some? then 0.0 else Score(rules, snapshot.questions, row.answers)))
  }

  lemma {:induction false} MarkedOnlyAnswers(rules: TextRules, qs: seq<Question>, answers: Answers)
    ensures var marked := Marked(rules, qs, answers);
            forall id | id in answers ::
              && marked[id].savedAt == answers[id].savedAt
              && (marked[id].isCorrect.Some? ==> answers[id].isCorrect.Some? || answers[id].response.Some?)
  {
    if qs != [] {
      MarkedOnlyAnswers(rules, qs[..|qs| - 1], answers);
    }
  }

  /** Marking reads responses and writes marks, so it does not disturb the score it comes from. */
  lemma ScoreSurvivesMarking(rules: TextRules, qs: seq<Question>, answers: Answers)
    ensures Score(rules, qs, Marked(rules, qs, answers)) == Score(rules, qs, answers)
  {
    RawScoreLocal(rules, qs, Marked(rules, qs, answers), answers);
  }

  lemma MoveKeepsAnswers(rules: TextRules, db: DB, row: Attempt, move: RowMove)
    requires May(db, row, move) && PinnedSnapshot(db.quizzes, row).Some?
    requires AnswersOk(rules, PinnedSnapshot(db.quizzes, row).value, row)
    requires row.status.Submitted? || row.status.Kicked? ==> row.overriddenAt.None?
    ensures AnswersOk(rules, PinnedSnapshot(db.quizzes, row).value, Moved(rules, db, row, move))
  {
    var snapshot := PinnedSnapshot(db.quizzes, row).value;
    if move.Graded? {
      MarkedOnlyAnswers(rules, snapshot.questions, row.answers);
      ScoreSurvivesMarking(rules, snapshot.questions, row.answers);
    } else if move.Saves? {
      assert move.id in Moved(rules, db, row, move).answers;
    }
  }

  predicate RowFine(rules: TextRules, db: DB, row: Attempt) {
    PinnedSnapshot(db.quizzes, row).Some? && AnswersOk(rules, PinnedSnapshot(db.quizzes, row).value, row)
  }

  lemma OldRowStaysFine(rules: TextRules, db: DB, db': DB, i: AttemptId)
    requires RowsKept.RowsOk(db) && i < |db.attempts| <= |db'.attempts| && RowFine(rules, db, db.attempts[i])
    requires Moves(rules, db, db.attempts[i], db'.attempts[i]) && RowsKept.VersionsGrow(db.quizzes, db'.quizzes)
    ensures RowFine(rules, db', db'.attempts[i])
  {
    var row := db.attempts[i];
    var move: RowMove :| May(db, row, move) && db'.attempts[i] == Moved(rules, db, row, move);
    assert RowsKept.RowHolds(db, i);
    MoveKeepsAnswers(rules, db, row, move);
    RowsKept.PinnedStays(db.quizzes, db'.quizzes, row);
  }

  lemma NewRowIsFine(rules: TextRules, db: DB, db': DB, i: AttemptId)
    requires RowsKept.RowsOk(db') && i < |db'.attempts| && JustStarted(db, db'.attempts[i])
    ensures RowFine(rules, db', db'.attempts[i])
  {
    assert RowsKept.RowHolds(db', i);
  }

  ghost predicate AllFine(rules: TextRules, db: DB) {
    forall i | 0 <= i < |db.attempts| :: RowFine(rules, db, db.attempts[i])
  }

  lemma {:induction false} MovesKeepAllFine(rules: TextRules, db: DB, db': DB)
    requires RowsKept.RowsOk(db) && RowsKept.RowsOk(db') && AllFine(rules, db)
    requires AllMove(rules, db, db'.attempts) && RowsKept.VersionsGrow(db.quizzes, db'.quizzes)
    ensures AllFine(rules, db')
  {
    forall i | 0 <= i < |db'.attempts|
      ensures RowFine(rules, db', db'.attempts[i])
    {
      if i < |db.attempts| {
        OldRowStaysFine(rules, db, db', i);
      } else {
        NewRowIsFine(rules, db, db', i);
      }
    }
  }

  /** In every reachable state, for every attempt. */
  lemma {:induction false} AnswersAlwaysOk(rules: TextRules, now: Time, run: seq<Action>)
    ensures AllFine(rules, Exec(rules, Empty(now), run))
  {
    if run != [] {
      var before := Exec(rules, Empty(now), run[..|run| - 1]);
      AnswersAlwaysOk(rules, now, run[..|run| - 1]);
      RowsHoldAlways(rules, now, run[..|run| - 1]);
      RowsHoldAlways(rules, now, run);
      ApplyMoves(rules, before, run[|run| - 1]);
      ApplyKeepsVersions(rules, before, run[|run| - 1]);
      MovesKeepAllFine(rules, before, Exec(rules, Empty(now), run));
    }
  }
}
