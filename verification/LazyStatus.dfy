/** The lazily derived status (server/internal/quiz/lifecycle.go, effectiveStatus) against the scheduler
    that writes it (server/internal/quiz/scheduler.go, SweepDueQuizzes): what readers and transactions
    see must not depend on whether the sweep has run yet. */
module LazyStatus {
  import opened Common
  import opened Grading
  import opened Schema
  import opened Transactions
  import opened Runs
  import Windows

  // ----- The derivation refines the sweep -----

  /** The derived status is what the sweep is about to store, for every quiz but one that is scheduled,
      past its start and without an end; no published quiz is like that. */
  lemma DerivedIsSweptIff(z: Quiz, now: Time)
    ensures EffectiveStatus(z, now) == SweptQuiz(z, now).status
       <==> !(z.status == Scheduled && z.endsAt.None? && Passed(z.startsAt, now))
  {
  }

  /** No run reaches that exception. */
  lemma DerivedIsSweptOnRuns(rules: TextRules, now: Time, run: seq<Action>, q: QuizId)
    ensures var db := Exec(rules, Empty(now), run);
            && |SweepQuizzes(db).quizzes| == |db.quizzes|
            && (q < |db.quizzes| ==> SweepQuizzes(db).quizzes[q].status == EffectiveStatus(db.quizzes[q], db.now))
  {
    var db := Exec(rules, Empty(now), run);
    ShapesAlways(rules, now, run);
    assert q < |db.quizzes| ==> Windows.WindowShape(db.quizzes[q], db.now);
  }

  /** A sweep now never changes the status read at any later moment. */
  lemma EarlierSweepIsInvisible(z: Quiz, earlier: Time, later: Time)
    requires earlier <= later
    ensures EffectiveStatus(SweptQuiz(z, earlier), later) == EffectiveStatus(z, later)
    ensures SweptQuiz(SweptQuiz(z, earlier), later) == SweptQuiz(z, later)
  {
  }

  /** A status by its place in the life of a quiz. */
  function Rank(status: QuizStatus): nat {
    match status
    case Draft => 0
    case Scheduled => 1
    case Live => 2
    case Closed => 3
    case Archived => 4
  }

  /** The derived status never goes back, however long nobody sweeps. */
  lemma DerivedOnlyAdvances(z: Quiz, earlier: Time, later: Time)
    requires earlier <= later
    ensures Rank(EffectiveStatus(z, earlier)) <= Rank(EffectiveStatus(z, later))
  {
  }

  // ----- Transactions that cannot tell -----

  /** Same answer with and without a sweep just before, and the same tables after the next sweep. */
  predicate Insensitive(unswept: Step, swept: Step) {
    swept.out == unswept.out && SweepQuizzes(swept.db) == SweepQuizzes(unswept.db)
  }

  lemma SweepTwice(db: DB)
    ensures SweepQuizzes(SweepQuizzes(db)) == SweepQuizzes(db)
  {
    forall q | 0 <= q < |db.quizzes| {
      EarlierSweepIsInvisible(db.quizzes[q], db.now, db.now);
    }
  }

  /** The tables after the next sweep, when a transaction rewrites one quiz. */
  lemma SweptRewrite(db: DB, q: QuizId, z: Quiz, z': Quiz)
    requires q < |db.quizzes| && SweptQuiz(z, db.now) == SweptQuiz(z', db.now)
    ensures SweepQuizzes(WithQuiz(db, q, z)) == SweepQuizzes(WithQuiz(SweepQuizzes(db), q, z'))
  {
    forall p | 0 <= p < |db.quizzes|
      ensures SweptQuiz(WithQuiz(db, q, z).quizzes[p], db.now)
           == SweptQuiz(WithQuiz(SweepQuizzes(db), q, z').quizzes[p], db.now)
    {
      EarlierSweepIsInvisible(db.quizzes[p], db.now, db.now);
    }
  }

  lemma StartCannotTell(db: DB, actor: Actor, q: QuizId)
    ensures Insensitive(Start(db, actor, q), Start(SweepQuizzes(db), actor, q))
  {
    SweepTwice(db);
    var unswept, swept := Start(db, actor, q), Start(SweepQuizzes(db), actor, q);
    assert swept.db.attempts == unswept.db.attempts && swept.db.log == unswept.db.log;
    assert SweepQuizzes(unswept.db).quizzes == SweepQuizzes(db).quizzes;
    assert SweepQuizzes(swept.db).quizzes == SweepQuizzes(SweepQuizzes(db)).quizzes;
  }

  lemma {:induction false} ExtendCannotTell(db: DB, actor: Actor, q: QuizId, newEndsAt: Time)
    ensures Insensitive(Extend(db, actor, q, newEndsAt), Extend(SweepQuizzes(db), actor, q, newEndsAt))
  {
    SweepTwice(db);
    if q < |db.quizzes| {
      EarlierSweepIsInvisible(db.quizzes[q], db.now, db.now);
      if Extend(db, actor, q, newEndsAt).out.Done? {
        SweptRewrite(db, q, db.quizzes[q].(endsAt := Some(newEndsAt)),
                     SweptQuiz(db.quizzes[q], db.now).(endsAt := Some(newEndsAt)));
        var unswept, swept := Extend(db, actor, q, newEndsAt).db, Extend(SweepQuizzes(db), actor, q, newEndsAt).db;
        assert SweepQuizzes(unswept).quizzes
            == SweepQuizzes(WithQuiz(db, q, db.quizzes[q].(endsAt := Some(newEndsAt)))).quizzes;
      }
    }
  }

  lemma ReleaseCannotTell(db: DB, actor: Actor, q: QuizId)
    ensures Insensitive(ReleaseResults(db, actor, q), ReleaseResults(SweepQuizzes(db), actor, q))
  {
    SweepTwice(db);
    if q < |db.quizzes| {
      EarlierSweepIsInvisible(db.quizzes[q], db.now, db.now);
      if ReleaseResults(db, actor, q).db != db {
        var status := if db.quizzes[q].status == Archived then Archived else Closed;
        SweptRewrite(db, q, db.quizzes[q].(status := status, releasedAt := Some(db.now)),
                     SweptQuiz(db.quizzes[q], db.now).(status := status, releasedAt := Some(db.now)));
        assert SweepQuizzes(ReleaseResults(db, actor, q).db).quizzes
            == SweepQuizzes(WithQuiz(db, q, db.quizzes[q].(status := status, releasedAt := Some(db.now)))).quizzes;
      }
    }
  }

  /** Cancelling depends on the sweep only for a window that ends before it starts. */
  lemma CancelCannotTellIff(db: DB, actor: Actor, q: QuizId)
    ensures Insensitive(Cancel(db, actor, q), Cancel(SweepQuizzes(db), actor, q))
       <==> !(&& Edits(actor, db, q) && db.quizzes[q].status == Scheduled && db.quizzes[q].startsAt.Some?
              && !Passed(db.quizzes[q].startsAt, db.now) && Passed(db.quizzes[q].endsAt, db.now))
  {
    SweepTwice(db);
    if Edits(actor, db, q) {
      var z := db.quizzes[q];
      var cleared := z.(status := Draft, startsAt := None, endsAt := None);
      if z.status == Scheduled && z.startsAt.Some? && !Passed(z.startsAt, db.now) && !Passed(z.endsAt, db.now) {
        SweptRewrite(db, q, cleared, cleared);
        assert SweepQuizzes(Cancel(db, actor, q).db).quizzes == SweepQuizzes(WithQuiz(db, q, cleared)).quizzes;
      }
    }
  }

  /** No run reaches such a window, so in every reachable state cancelling cannot tell either. */
  lemma CancelCannotTellOnRuns(rules: TextRules, now: Time, run: seq<Action>, actor: Actor, q: QuizId)
    ensures var db := Exec(rules, Empty(now), run);
            Insensitive(Cancel(db, actor, q), Cancel(SweepQuizzes(db), actor, q))
  {
    var db := Exec(rules, Empty(now), run);
    ShapesAlways(rules, now, run);
    CancelCannotTellIff(db, actor, q);
    assert q < |db.quizzes| ==> Windows.WindowShape(db.quizzes[q], db.now);
  }

  // ----- Transactions that can -----

  /** Archiving answers differently exactly in the gap between the end of the window and the sweep. */
  lemma ArchiveCanTellIff(db: DB, actor: Actor, q: QuizId)
    ensures Archive(db, actor, q).out != Archive(SweepQuizzes(db), actor, q).out
       <==> Edits(actor, db, q) && Windows.Opening(db.quizzes[q].status) && Passed(db.quizzes[q].endsAt, db.now)
  {
  }

  /** Publishing gates on the stored status, so it answers differently exactly when a sweep is due. */
  lemma PublishCanTellIff(db: DB, actor: Actor, q: QuizId, input: PublishInput)
    ensures Publish(db, actor, q, input).out != Publish(SweepQuizzes(db), actor, q, input).out
       <==> && PublishInputOk(input, db.now) && Edits(actor, db, q) && db.quizzes[q].status == Scheduled
            && SweptQuiz(db.quizzes[q], db.now) != db.quizzes[q]
  {
  }

  /** Emptying the audience is refused on a stored schedule and not on a stored live quiz. */
  lemma AssignCanTellIff(db: DB, actor: Actor, q: QuizId, students: set<UserId>)
    requires q < |db.quizzes| ==> Windows.WindowShape(db.quizzes[q], db.now)
    ensures SetAssignments(db, actor, q, students).out != SetAssignments(SweepQuizzes(db), actor, q, students).out
       <==> && Edits(actor, db, q) && students == {} && db.quizzes[q].status == Scheduled
            && EffectiveStatus(db.quizzes[q], db.now) == Live
  {
    if q < |db.quizzes| {
      EarlierSweepIsInvisible(db.quizzes[q], db.now, db.now);
    }
  }

  lemma AssignCanTellOnRuns(rules: TextRules, now: Time, run: seq<Action>, actor: Actor, q: QuizId,
                            students: set<UserId>)
    ensures var db := Exec(rules, Empty(now), run);
            (SetAssignments(db, actor, q, students).out != SetAssignments(SweepQuizzes(db), actor, q, students).out
             <==> && Edits(actor, db, q) && students == {} && db.quizzes[q].status == Scheduled
                  && EffectiveStatus(db.quizzes[q], db.now) == Live)
  {
    ShapesAlways(rules, now, run);
    AssignCanTellIff(Exec(rules, Empty(now), run), actor, q, students);
  }
}
