/** The end of a quiz, and what undoes its beginning: closing is final, a release is permanent and only
    follows a close, a force-close is carried through by the next pass, and a cancel undoes a publish. */
module Closing {
  import opened Common
  import opened Grading
  import opened Schema
  import opened Transactions
  import opened RowMoves
  import opened Runs
  import RollupFrozen
  import RowsKept
  import SweepFixpoint

  // ----- Closed for good -----

  lemma OneMoreAtMost(rules: TextRules, db: DB, after: seq<Attempt>, q: QuizId)
    requires AllMove(rules, db, after) && q < |db.quizzes| && Terminal(db.quizzes[q].status)
    ensures forall i | |db.attempts| <= i < |after| :: after[i].quiz != q
  {
    if |after| > |db.attempts| {
      assert JustStarted(db, after[|db.attempts|]);
    }
  }

  lemma StartsNothingHere(rules: TextRules, db: DB, act: Action, q: QuizId)
    requires q < |db.quizzes| && Terminal(db.quizzes[q].status)
    ensures var after := Apply(rules, db, act).attempts;
            |after| >= |db.attempts| && forall i | |db.attempts| <= i < |after| :: after[i].quiz != q
  {
    ApplyMoves(rules, db, act);
    OneMoreAtMost(rules, db, Apply(rules, db, act).attempts, q);
  }

  predicate StartRefused(db: DB, actor: Actor, q: QuizId) {
    var step := Start(db, actor, q);
    step.db == db && (step.out == Refused(NotFound) || step.out == Refused(QuizNotLive))
  }

  /** From the moment a quiz is closed it stays closed, refuses every start, and gains no attempt. */
  lemma {:induction false} ClosedTakesNoAttempts(rules: TextRules, db: DB, run: seq<Action>, q: QuizId)
    requires q < |db.quizzes| && Terminal(db.quizzes[q].status)
    ensures var db' := Exec(rules, db, run);
            && q < |db'.quizzes| && Terminal(db'.quizzes[q].status)
            && |db'.attempts| >= |db.attempts|
            && (forall i | |db.attempts| <= i < |db'.attempts| :: db'.attempts[i].quiz != q)
            && forall actor :: StartRefused(db', actor, q)
  {
    if run != [] {
      var before := Exec(rules, db, run[..|run| - 1]);
      ClosedTakesNoAttempts(rules, db, run[..|run| - 1], q);
      RollupFrozen.TerminalAbsorbs(rules, before, run[|run| - 1], q);
      StartsNothingHere(rules, before, run[|run| - 1], q);
      NewAreElsewhere(rules, db, before, run[|run| - 1], q);
    }
  }

  lemma NewAreElsewhere(rules: TextRules, db: DB, before: DB, act: Action, q: QuizId)
    requires q < |before.quizzes| && Terminal(before.quizzes[q].status) && |before.attempts| >= |db.attempts|
    requires forall i | |db.attempts| <= i < |before.attempts| :: before.attempts[i].quiz != q
    ensures var after := Apply(rules, before, act).attempts;
            |after| >= |db.attempts| && forall i | |db.attempts| <= i < |after| :: after[i].quiz != q
  {
    ApplyMoves(rules, before, act);
    StartsNothingHere(rules, before, act, q);
    forall i | |db.attempts| <= i < |before.attempts|
      ensures Apply(rules, before, act).attempts[i].quiz != q
    {
      assert Moves(rules, before, before.attempts[i], Apply(rules, before, act).attempts[i]);
      StaysOnItsQuiz(rules, before, before.attempts[i], Apply(rules, before, act).attempts[i]);
    }
  }

  lemma StaysOnItsQuiz(rules: TextRules, db: DB, row: Attempt, after: Attempt)
    requires Moves(rules, db, row, after)
    ensures after.quiz == row.quiz
  {
    var move: RowMove :| May(db, row, move) && after == Moved(rules, db, row, move);
  }

  // ----- Released for good -----

  predicate ReleaseOk(z: Quiz) {
    z.releasedAt.Some? ==> Terminal(z.status)
  }

  predicate ReleasesStand(before: seq<Quiz>, after: seq<Quiz>) {
    && |after| >= |before| && (forall q | 0 <= q < |after| :: ReleaseOk(after[q]))
    && forall q | 0 <= q < |before| && before[q].releasedAt.Some? :: after[q].releasedAt == before[q].releasedAt
  }

  lemma OwnersKeepReleases(rules: TextRules, db: DB, act: Action)
    requires ByOwner(act) && forall q | 0 <= q < |db.quizzes| :: ReleaseOk(db.quizzes[q])
    ensures ReleasesStand(db.quizzes, Apply(rules, db, act).quizzes)
  {
  }

  lemma ReleasesKept(rules: TextRules, db: DB, act: Action)
    requires OnQuizzes(act) && forall q | 0 <= q < |db.quizzes| :: ReleaseOk(db.quizzes[q])
    ensures ReleasesStand(db.quizzes, Apply(rules, db, act).quizzes)
  {
    if ByOwner(act) {
      OwnersKeepReleases(rules, db, act);
    }
  }

  ghost predicate AllReleasesOk(db: DB) {
    forall q | 0 <= q < |db.quizzes| :: ReleaseOk(db.quizzes[q])
  }

  lemma ApplyKeepsReleases(rules: TextRules, db: DB, act: Action, q: QuizId)
    requires AllReleasesOk(db)
    ensures AllReleasesOk(Apply(rules, db, act))
    ensures q < |db.quizzes| && db.quizzes[q].releasedAt.Some? ==>
              var after := Apply(rules, db, act).quizzes; q < |after| && after[q].releasedAt == db.quizzes[q].releasedAt
  {
    if OnQuizzes(act) {
      ReleasesKept(rules, db, act);
    } else {
      AttemptActionsKeepQuizzes(rules, db, act);
    }
  }

  lemma {:induction false} ReleasesOkAlways(rules: TextRules, now: Time, run: seq<Action>)
    ensures AllReleasesOk(Exec(rules, Empty(now), run))
  {
    if run != [] {
      ReleasesOkAlways(rules, now, run[..|run| - 1]);
      ApplyKeepsReleases(rules, Exec(rules, Empty(now), run[..|run| - 1]), run[|run| - 1], 0);
    }
  }

  lemma {:induction false} ReleaseStands(rules: TextRules, db: DB, run: seq<Action>, q: QuizId)
    requires AllReleasesOk(db) && q < |db.quizzes| && db.quizzes[q].releasedAt.Some?
    ensures var db' := Exec(rules, db, run);
            AllReleasesOk(db') && q < |db'.quizzes| && db'.quizzes[q].releasedAt == db.quizzes[q].releasedAt
  {
    if run != [] {
      ReleaseStands(rules, db, run[..|run| - 1], q);
      ApplyKeepsReleases(rules, Exec(rules, db, run[..|run| - 1]), run[|run| - 1], q);
    }
  }

  /** Results are released only on a closed or archived quiz, and a release is never taken back or moved. */
  lemma ReleaseIsPermanent(rules: TextRules, now: Time, before: seq<Action>, after: seq<Action>, q: QuizId)
    ensures var db, db' := Exec(rules, Empty(now), before), Exec(rules, Empty(now), before + after);
            q < |db.quizzes| && db.quizzes[q].releasedAt.Some? ==>
              && Terminal(db.quizzes[q].status)
              && q < |db'.quizzes| && db'.quizzes[q].releasedAt == db.quizzes[q].releasedAt
  {
    var db := Exec(rules, Empty(now), before);
    ReleasesOkAlways(rules, now, before);
    ExecConcat(rules, Empty(now), before, after);
    if q < |db.quizzes| && db.quizzes[q].releasedAt.Some? {
      assert ReleaseOk(db.quizzes[q]);
      ReleaseStands(rules, db, after, q);
    }
  }

  // ----- Force-close, carried through -----

  predicate EndedBelow(db: DB, q: QuizId) {
    && q < |db.quizzes| && Terminal(db.quizzes[q].status) && db.quizzes[q].stats.Some?
    && (db.quizzes[q].releasePolicy == Automatic ==> db.quizzes[q].releasedAt.Some?)
    && forall i | 0 <= i < |db.attempts| && db.attempts[i].quiz == q :: db.attempts[i].status.Graded?
  }

  lemma SettledMeansEnded(db: DB, q: QuizId)
    requires SweepFixpoint.Settled(db) && q < |db.quizzes| && Terminal(db.quizzes[q].status)
    ensures EndedBelow(db, q)
  {
    assert SweepFixpoint.QuizSettled(db, db.quizzes[q]);
    forall i | 0 <= i < |db.attempts| && db.attempts[i].quiz == q
      ensures db.attempts[i].status.Graded?
    {
      assert SweepFixpoint.AttemptSettled(db, db.attempts[i]);
    }
  }

  /** One pass after a force-close: every attempt on the quiz is graded, its results are released if they
      are released automatically, and its statistics are there. */
  lemma ForceCloseIsCarriedThrough(rules: TextRules, now: Time, run: seq<Action>, actor: Actor, q: QuizId)
    requires ForceClose(Exec(rules, Empty(now), run), actor, q).out.Done?
    ensures EndedBelow(SweepDue(rules, ForceClose(Exec(rules, Empty(now), run), actor, q).db), q)
  {
    var db := Exec(rules, Empty(now), run);
    var closed := ForceClose(db, actor, q).db;
    RowsHoldAlways(rules, now, run);
    RowsKept.QuizStatusKeeps(db, actor, q, {});
    SweepFixpoint.PassSettlesEverything(rules, closed);
    PassIsARun(rules, closed);
    ClosedTakesNoAttempts(rules, closed, PassActions(closed), q);
    SettledMeansEnded(SweepDue(rules, closed), q);
  }

  // ----- Cancel undoes publish -----

  /** Before the start, a cancel returns a published draft to what it was, but for the version that was
      written and the duration and release policy that were chosen. */
  lemma CancelUndoesPublish(db: DB, actor: Actor, q: QuizId, input: PublishInput)
    requires Publish(db, actor, q, input).out.Done? && db.quizzes[q].status == Draft
    requires db.quizzes[q].startsAt.None? && db.quizzes[q].endsAt.None?
    ensures var published := Publish(db, actor, q, input).db;
            var cancelled := Cancel(published, actor, q);
            && cancelled.out == Done
            && cancelled.db.quizzes == db.quizzes[q := db.quizzes[q].(
                 versions := published.quizzes[q].versions, durationSec := input.durationSec,
                 releasePolicy := input.policy)]
            && |published.quizzes[q].versions| == |db.quizzes[q].versions| + 1
            && cancelled.db.attempts == db.attempts && cancelled.db.log == db.log
            && |cancelled.db.audit| == |db.audit| + 2
  {
    assert Publish(db, actor, q, input).db.quizzes[q].status == Scheduled;
  }
}
