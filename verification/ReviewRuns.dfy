/** The review page of every graded attempt that any run reaches, against the score on its row. */
module ReviewRuns {
  import opened Common
  import opened Grading
  import opened Schema
  import opened Transactions
  import opened RowMoves
  import opened Runs
  import AnswerRuns = Answers
  import Json
  import Review
  import RowsKept

  // ----- Question keys -----

  /** The questions table has a primary key, and a snapshot copies its rows, of which there is at least one. */
  predicate KeysOk(z: Quiz) {
    && DraftKeysOk(z.questions)
    && forall v | 0 <= v < |z.versions| ::
         Review.DistinctIds(z.versions[v].questions) && z.versions[v].questions != []
  }

  predicate AllKeysOk(db: DB) {
    forall q | 0 <= q < |db.quizzes| :: KeysOk(db.quizzes[q])
  }

  lemma OwnersKeepKeys(rules: TextRules, db: DB, act: Action)
    requires AllKeysOk(db) && ByOwner(act) && !act.Publishes?
    ensures AllKeysOk(Apply(rules, db, act))
  {
  }

  lemma QuizActionsKeepKeys(rules: TextRules, db: DB, act: Action)
    requires AllKeysOk(db) && OnQuizzes(act) && !act.Publishes?
    ensures AllKeysOk(Apply(rules, db, act))
  {
    if ByOwner(act) {
      OwnersKeepKeys(rules, db, act);
    }
  }

  lemma PublishKeepsKeys(db: DB, actor: Actor, q: QuizId, input: PublishInput)
    requires AllKeysOk(db)
    ensures AllKeysOk(Publish(db, actor, q, input).db)
  {
    if Publish(db, actor, q, input).out.Done? {
      var z := db.quizzes[q];
      assert Review.DistinctIds(ResolveAll(z.questions, z));
      assert KeysOk(Published(z, input));
    }
  }

  lemma ApplyKeepsKeys(rules: TextRules, db: DB, act: Action)
    requires AllKeysOk(db)
    ensures AllKeysOk(Apply(rules, db, act))
  {
    if act.Publishes? {
      PublishKeepsKeys(db, act.actor, act.q, act.input);
    } else if OnQuizzes(act) {
      QuizActionsKeepKeys(rules, db, act);
    } else {
      AttemptActionsKeepQuizzes(rules, db, act);
    }
  }

  lemma {:induction false} KeysOkAlways(rules: TextRules, now: Time, run: seq<Action>)
    ensures AllKeysOk(Exec(rules, Empty(now), run))
  {
    if run != [] {
      KeysOkAlways(rules, now, run[..|run| - 1]);
      ApplyKeepsKeys(rules, Exec(rules, Empty(now), run[..|run| - 1]), run[|run| - 1]);
    }
  }

  // ----- Stored marks -----

  /** A graded row carries the marks its pinned version gives it. */
  predicate RowMarked(rules: TextRules, db: DB, row: Attempt) {
    && PinnedSnapshot(db.quizzes, row).Some?
    && (row.status.Graded? ==> Review.MarksStored(rules, PinnedSnapshot(db.quizzes, row).value.questions, row.answers))
  }

  lemma MoveStaysMarked(rules: TextRules, db: DB, db': DB, row: Attempt, after: Attempt)
    requires RowMarked(rules, db, row) && AllKeysOk(db) && Moves(rules, db, row, after)
    requires RowsKept.VersionsGrow(db.quizzes, db'.quizzes)
    ensures RowMarked(rules, db', after)
  {
    var move: RowMove :| May(db, row, move) && after == Moved(rules, db, row, move);
    var snapshot := PinnedSnapshot(db.quizzes, row).value;
    RowsKept.PinnedStays(db.quizzes, db'.quizzes, row);
    if move.Graded? {
      assert KeysOk(db.quizzes[row.quiz]);
      Review.GradingStoresMarks(rules, snapshot.questions, row.answers);
    }
  }

  lemma NewRowMarked(rules: TextRules, db: DB, a: AttemptId)
    requires RowsKept.RowsOk(db) && a < |db.attempts| && db.attempts[a].status.InProgress?
    ensures RowMarked(rules, db, db.attempts[a])
  {
    assert RowsKept.RowHolds(db, a);
  }

  lemma StepStaysMarked(rules: TextRules, db: DB, act: Action, a: AttemptId)
    requires a < |db.attempts| && RowMarked(rules, db, db.attempts[a]) && AllKeysOk(db)
    ensures var db' := Apply(rules, db, act); a < |db'.attempts| && RowMarked(rules, db', db'.attempts[a])
  {
    ApplyMoves(rules, db, act);
    ApplyKeepsVersions(rules, db, act);
    MoveStaysMarked(rules, db, Apply(rules, db, act), db.attempts[a], Apply(rules, db, act).attempts[a]);
  }

  lemma {:induction false} MarkedAlways(rules: TextRules, now: Time, run: seq<Action>, a: AttemptId)
    ensures var db := Exec(rules, Empty(now), run); a < |db.attempts| ==> RowMarked(rules, db, db.attempts[a])
  {
    var db := Exec(rules, Empty(now), run);
    if run != [] && a < |db.attempts| {
      var before := Exec(rules, Empty(now), run[..|run| - 1]);
      if a < |before.attempts| {
        MarkedAlways(rules, now, run[..|run| - 1], a);
        KeysOkAlways(rules, now, run[..|run| - 1]);
        StepStaysMarked(rules, before, run[|run| - 1], a);
      } else {
        NewIsRunning(rules, before, run[|run| - 1], a);
        RowsHoldAlways(rules, now, run);
        NewRowMarked(rules, db, a);
      }
    }
  }

  // ----- The page and the score -----

  predicate PageOf(page: seq<Review.ReviewedQuestion>, qs: seq<Question>, answers: Answers) {
    |page| == |qs| && forall i | 0 <= i < |qs| :: Some(page[i]) == Review.BuildQuestion(qs[i], answers)
  }

  /** In every reachable state, the page of a graded attempt adds up to the score on its row; only where a
      moderator has overridden the score does the row say zero and the page what the answers earned. */
  lemma {:induction false} PageAddsUpToTheRow(rules: TextRules, now: Time, run: seq<Action>, a: AttemptId,
                                              page: seq<Review.ReviewedQuestion>)
    ensures var db := Exec(rules, Empty(now), run);
            a < |db.attempts| && db.attempts[a].status.Graded? ==>
              var row, pinned := db.attempts[a], PinnedSnapshot(db.quizzes, db.attempts[a]);
              && pinned.Some?
              && (PageOf(page, pinned.value.questions, row.answers) ==>
                    row.score == Some(if row.overriddenAt.Some? then 0.0 else Review.PageScore(page)))
  {
    var db := Exec(rules, Empty(now), run);
    if a < |db.attempts| && db.attempts[a].status.Graded? {
      MarkedAlways(rules, now, run, a);
      AnswerRuns.AnswersAlwaysOk(rules, now, run);
      var row, qs := db.attempts[a], PinnedSnapshot(db.quizzes, db.attempts[a]).value.questions;
      assert AnswerRuns.RowFine(rules, db, row);
      if PageOf(page, qs, row.answers) {
        Review.ReviewAddsUpToScore(rules, qs, row.answers, page);
      }
    }
  }

  /** Each entry of the page is its question, the response on record, and the marks that response earns. */
  predicate ShowsMarks(rules: TextRules, q: Question, answers: Answers, entry: Review.ReviewedQuestion) {
    && entry.id == q.id && entry.points == q.points
    && (q.id !in answers ==> entry.response == None && entry.isCorrect == None && entry.pointsAwarded == 0.0)
    && (q.id in answers ==> entry.response.Some? && entry.response == answers[q.id].response)
    && (Right(rules, q, answers) ==> entry.isCorrect == Some(true) && entry.pointsAwarded == q.points)
    && (Wrong(rules, q, answers) ==> entry.isCorrect == Some(false) && entry.pointsAwarded == -q.penalty)
  }

  lemma {:induction false} PageShowsTheMarks(rules: TextRules, now: Time, run: seq<Action>, a: AttemptId,
                                             page: seq<Review.ReviewedQuestion>, i: nat)
    ensures var db := Exec(rules, Empty(now), run);
            a < |db.attempts| && db.attempts[a].status.Graded? ==>
              var answers, pinned := db.attempts[a].answers, PinnedSnapshot(db.quizzes, db.attempts[a]);
              && pinned.Some?
              && (PageOf(page, pinned.value.questions, answers) && i < |page| ==>
                    ShowsMarks(rules, pinned.value.questions[i], answers, page[i]))
  {
    var db := Exec(rules, Empty(now), run);
    if a < |db.attempts| && db.attempts[a].status.Graded? {
      MarkedAlways(rules, now, run, a);
      var answers, qs := db.attempts[a].answers, PinnedSnapshot(db.quizzes, db.attempts[a]).value.questions;
      if PageOf(page, qs, answers) && i < |page| {
        assert Some(page[i]) == Review.BuildQuestion(qs[i], answers);
        assert Answered(qs[i], answers) ==> Review.MarkedRight(rules, qs[i], answers, answers);
      }
    }
  }

  // ----- Clearing -----

  /** Saving a null is clearing: the attempt then scores as if the question had never been answered, and
      no less than before if the answer was wrong. */
  lemma SavingNullClears(rules: TextRules, db: DB, actor: Actor, a: AttemptId, id: QuestionId, timeSpentMs: nat,
                         qs: seq<Question>)
    requires SaveAnswer(db, actor, a, id, Json.Null, timeSpentMs).out.Done?
    ensures var before := db.attempts[a].answers;
            var after := SaveAnswer(db, actor, a, id, Json.Null, timeSpentMs).db.attempts[a].answers;
            && Score(rules, qs, after) == Score(rules, qs, before - {id})
            && Score(rules, qs, after) == Score(rules, qs, Cleared(before, id, db.now))
            && (FairMarks(qs)
                && (forall q | q in qs && q.id == id && Answered(q, before) ::
                      !IsCorrect(rules, q, before[id].response.value)) ==>
                  Score(rules, qs, after) >= Score(rules, qs, before))
  {
    var before := db.attempts[a].answers;
    var after := SaveAnswer(db, actor, a, id, Json.Null, timeSpentMs).db.attempts[a].answers;
    assert after.Keys == before.Keys + {id};
    assert after[id].response.None?;
    SameAwards(rules, qs, after, Cleared(before, id, db.now), id);
    ClearingIsNeverAnswering(rules, qs, before, id, db.now);
    if FairMarks(qs) && forall q | q in qs && q.id == id && Answered(q, before) ::
         !IsCorrect(rules, q, before[id].response.value) {
      ClearingWrongNeverLowers(rules, qs, before, id, db.now);
    }
  }

  lemma SameAwards(rules: TextRules, qs: seq<Question>, x: Answers, y: Answers, id: QuestionId)
    requires x.Keys == y.Keys && id in x && x[id].response.None? && y[id].response.None?
    requires forall k | k in x && k != id :: x[k] == y[k]
    ensures Score(rules, qs, x) == Score(rules, qs, y)
  {
    forall q | q in qs
      ensures Awarded(rules, q, x) == Awarded(rules, q, y)
    {
    }
    RawScoreLocal(rules, qs, x, y);
  }
}
