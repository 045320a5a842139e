/** Kick, readmit and override (server/internal/attempt/service.go:586-768) over whole runs: the first
    terminal transition to commit is the one that stands, and what a readmission is worth. */
module Moderation {
  import opened Common
  import opened Grading
  import opened Schema
  import opened Transactions
  import opened RowMoves
  import opened Runs
  import Json
  import RowsKept
  import Slots
  import SweepFixpoint
  import Windows

  // ----- What a row may become -----

  function Responses(answers: Answers): map<QuestionId, Option<Json.Value>> {
    map id | id in answers :: answers[id].response
  }

  predicate StatusMoves(before: AttemptStatus, after: AttemptStatus) {
    before == after || before.InProgress? || (after.Graded? && !before.InProgress?)
  }

  /** The life of one attempt row: identity never moves, nothing comes back to in progress, and from the
      terminal transition on, its kind, its time, its responses and its violations are fixed; so is a
      score once graded, unless the override sets it to zero. */
  predicate Evolves(before: Attempt, after: Attempt) {
    && after.quiz == before.quiz && after.student == before.student && after.no == before.no
    && after.version == before.version && after.startedAt == before.startedAt
    && StatusMoves(before.status, after.status)
    && (!before.status.InProgress? ==>
          && after.kind == before.kind && after.submittedAt == before.submittedAt
          && after.deadlineAt == before.deadlineAt && after.kickedBy == before.kickedBy
          && after.violations == before.violations && after.question == before.question
          && Responses(after.answers) == Responses(before.answers))
    && (before.readmittedAt.Some? ==> after.readmittedAt == before.readmittedAt)
    && (before.overriddenAt.Some? ==> after.overriddenAt == before.overriddenAt)
    && (before.status.Graded? ==> after.score == before.score || (after.score == Some(0.0) && after.overriddenAt.Some?))
  }

  predicate AllEvolve(before: seq<Attempt>, after: seq<Attempt>) {
    |before| <= |after| && forall i | 0 <= i < |before| :: Evolves(before[i], after[i])
  }

  lemma {:induction false} MarkedResponses(rules: TextRules, qs: seq<Question>, answers: Answers)
    ensures Responses(Marked(rules, qs, answers)) == Responses(answers)
  {
  }

  lemma MoveEvolves(rules: TextRules, db: DB, row: Attempt, move: RowMove)
    requires May(db, row, move) && !move.Redeadlined?
    ensures Evolves(row, Moved(rules, db, row, move))
  {
    if move.Graded? {
      MarkedResponses(rules, PinnedSnapshot(db.quizzes, row).value.questions, row.answers);
    }
  }

  lemma StepEvolves(rules: TextRules, db: DB, act: Action)
    ensures AllEvolve(db.attempts, Apply(rules, db, act).attempts)
  {
    var after := Apply(rules, db, act).attempts;
    ApplyMoves(rules, db, act);
    forall i | 0 <= i < |db.attempts|
      ensures Evolves(db.attempts[i], after[i])
    {
      assert Moves(rules, db, db.attempts[i], after[i]);
      var move: RowMove :| May(db, db.attempts[i], move) && after[i] == Moved(rules, db, db.attempts[i], move);
      if !move.Redeadlined? {
        MoveEvolves(rules, db, db.attempts[i], move);
      }
    }
  }

  lemma EvolvesTransitive(x: Attempt, y: Attempt, z: Attempt)
    requires Evolves(x, y) && Evolves(y, z)
    ensures Evolves(x, z)
  {
  }

  /** Whoever races for an attempt row, the first terminal transition stands through every later run. */
  lemma {:induction false} FirstTerminationStands(rules: TextRules, db: DB, run: seq<Action>)
    ensures AllEvolve(db.attempts, Exec(rules, db, run).attempts)
  {
    if run != [] {
      var before := Exec(rules, db, run[..|run| - 1]);
      var after := Exec(rules, db, run);
      FirstTerminationStands(rules, db, run[..|run| - 1]);
      StepEvolves(rules, before, run[|run| - 1]);
      forall i | 0 <= i < |db.attempts|
        ensures Evolves(db.attempts[i], after.attempts[i])
      {
        EvolvesTransitive(db.attempts[i], before.attempts[i], after.attempts[i]);
      }
    }
  }

  // ----- What a readmission grants -----

  lemma {:induction false} GrantedAfterMark(attempts: seq<Attempt>, a: AttemptId, at: Time, q: QuizId, s: UserId)
    requires a < |attempts| && attempts[a].readmittedAt.None?
    ensures var marked := attempts[a := attempts[a].(readmittedAt := Some(at))];
            && Used(marked, q, s) == Used(attempts, q, s)
            && Granted(marked, q, s) == Granted(attempts, q, s) + (if Same(attempts[a], q, s) then 1 else 0)
  {
    var n := |attempts| - 1;
    var marked := attempts[a := attempts[a].(readmittedAt := Some(at))];
    if a < n {
      GrantedAfterMark(attempts[..n], a, at, q, s);
      assert marked[..n] == attempts[..n][a := attempts[a].(readmittedAt := Some(at))];
    } else {
      assert marked[..n] == attempts[..n];
    }
  }

  predicate Readmittable(actor: Actor, db: DB, a: AttemptId) {
    Moderates(actor, db, a) && db.attempts[a].status.Kicked? && db.attempts[a].readmittedAt.None?
  }

  /** A readmission grants its student one slot, and nobody anything else, exactly when the attempt is
      kicked, not yet graded and not yet readmitted. */
  lemma ReadmitGrantsIff(db: DB, actor: Actor, a: AttemptId, q: QuizId, s: UserId)
    ensures var db' := Readmit(db, actor, a).db;
            && Used(db'.attempts, q, s) == Used(db.attempts, q, s)
            && Granted(db'.attempts, q, s) == Granted(db.attempts, q, s)
                 + (if Readmittable(actor, db, a) && Same(db.attempts[a], q, s) then 1 else 0)
  {
    if Readmittable(actor, db, a) {
      GrantedAfterMark(db.attempts, a, db.now, q, s);
    }
  }

  lemma ReadmitTwiceIsOnce(db: DB, actor: Actor, again: Actor, a: AttemptId)
    requires Readmit(db, actor, a).out.Done?
    ensures Readmit(Readmit(db, actor, a).db, again, a).db == Readmit(db, actor, a).db
  {
  }

  lemma {:induction false} StartedCounts(attempts: seq<Attempt>, row: Attempt)
    ensures Used(attempts + [row], row.quiz, row.student) == Used(attempts, row.quiz, row.student) + 1
    ensures Granted(attempts + [row], row.quiz, row.student)
         == Granted(attempts, row.quiz, row.student) + (if row.readmittedAt.Some? then 1 else 0)
  {
    assert (attempts + [row])[..|attempts|] == attempts;
  }

  /** A student stopped by the attempt limit starts again after a readmission, and once: the start takes
      the slot that was granted. */
  lemma {:induction false} ReadmitOpensOneSlot(db: DB, moderator: Actor, a: AttemptId, student: Actor, q: QuizId)
    requires Readmittable(moderator, db, a) && Same(db.attempts[a], q, student.id)
    requires q < |db.quizzes| && Slots.SlotBound(db, q, student.id)
    requires Start(db, student, q).out == Refused(AttemptLimit)
    ensures var readmitted := Readmit(db, moderator, a).db;
            var started := Start(readmitted, student, q);
            && started.out == Began(|db.attempts|)
            && Used(started.db.attempts, q, student.id)
               == started.db.quizzes[q].maxAttempts + Granted(started.db.attempts, q, student.id)
  {
    var readmitted := Readmit(db, moderator, a).db;
    GrantedAfterMark(db.attempts, a, db.now, q, student.id);
    Windows.NoOpenAttempt(db.attempts, q, student.id, db.now);
    Windows.NoOpenAttempt(readmitted.attempts, q, student.id, db.now);
    var started := Start(readmitted, student, q).db;
    StartedCounts(readmitted.attempts, started.attempts[|db.attempts|]);
  }

  /** The gate is the status and not the kind, and grading takes the status away: after any worker pass
      every readmission is refused, although the kick is still on record and the student still stopped. */
  lemma ReadmitRefusedAfterPass(rules: TextRules, now: Time, run: seq<Action>, moderator: Actor, a: AttemptId)
    ensures var db := SweepDue(rules, Exec(rules, Empty(now), run));
            Moderates(moderator, db, a) ==> Readmit(db, moderator, a) == Refuse(db, NotKicked)
  {
    var db := SweepDue(rules, Exec(rules, Empty(now), run));
    SweepFixpoint.PassReachesFixpoint(rules, now, run);
    if Moderates(moderator, db, a) {
      assert SweepFixpoint.AttemptSettled(db, db.attempts[a]);
    }
  }

  /** A kicked attempt that its grading job has reached: kicked on record, and no longer readmittable. */
  lemma GradedKickCannotBeReadmitted(rules: TextRules, db: DB, moderator: Actor, a: AttemptId)
    requires RowsKept.RowsOk(db) && Readmittable(moderator, db, a)
    ensures var graded := GradeOne(rules, db, a);
            && a < |graded.attempts| && graded.attempts[a].kind == Some(ByKick)
            && Readmit(db, moderator, a).out == Done
            && Readmit(graded, moderator, a).out == Refused(NotKicked)
  {
    assert RowsKept.RowHolds(db, a);
  }
}
