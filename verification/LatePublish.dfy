/** Runs on which a publish finds running attempts. Publish reads the stored status
    (server/internal/quiz/lifecycle.go:111) and Start the clock (server/internal/attempt/service.go:219-224),
    so between starts_at and the sweep a quiz can be taken and then rescheduled under the students taking it. */
module LatePublish {
  import opened Common
  import opened Grading
  import opened Schema
  import opened Transactions
  import opened Runs
  import Json
  import LateAnswers
  import Punctual
  import Rescheduling
  import Slots
  import TwoOpen
  import Windows

  const TEACHER := Actor(1, Teacher, true)
  const STUDENT := Actor(2, Student, true)
  const QUESTIONS := [DraftQuestion(0, TrueFalse, Json.Bool(true), None, None)]
  const RULES_OFF := Guardrails(Off, Off, false, 3, Flag)

  function At(seconds: int): Time {
    seconds * SECOND
  }

  const FIRST := PublishInput(At(100), At(200), 50, RULES_OFF, Automatic)
  const SECOND_TRY := PublishInput(At(130), At(500), 300, RULES_OFF, Automatic)

  /** Publish for 100 s to 200 s; start at 110 s; publish again at 120 s, before any sweep; start again at
      165 s, the first deadline having passed; extend at 166 s. */
  const RUN: seq<Action> := [
    Creates(TEACHER), EditsDraft(TEACHER, 0, QUESTIONS, 2, 1.0, 0.0), Assigns(TEACHER, 0, {2}),
    Publishes(TEACHER, 0, FIRST), Tick(110 * SECOND), Starts(STUDENT, 0), Tick(10 * SECOND),
    Publishes(TEACHER, 0, SECOND_TRY), Tick(45 * SECOND), Starts(STUDENT, 0), Tick(SECOND),
    Extends(TEACHER, 0, At(600))]

  function After(rules: TextRules, n: nat): DB
    requires n <= |RUN|
  {
    Exec(rules, Empty(0), RUN[..n])
  }

  lemma {:induction false} Unroll(rules: TextRules, n: nat)
    requires n < |RUN|
    ensures After(rules, n + 1) == Apply(rules, After(rules, n), RUN[n])
    ensures After(rules, 0) == Empty(0)
  {
    assert RUN[..n + 1][..n] == RUN[..n];
  }

  lemma {:induction false} UntilAssigned(rules: TextRules)
    ensures var db := After(rules, 3);
            && db.now == 0 && db.attempts == [] && |db.quizzes| == 1
            && var z := db.quizzes[0];
               && z.owner == 1 && z.status == Draft && z.questions == QUESTIONS && z.audience == {2}
               && z.maxAttempts == 2 && z.versions == []
  {
    Unroll(rules, 0);
    Unroll(rules, 1);
    Unroll(rules, 2);
  }

  /** One published version, with the one question. */
  predicate AsksQuestion(z: Quiz) {
    |z.versions| == 1 && |z.versions[0].questions| == 1 && z.versions[0].questions[0].id == 0
  }

  lemma {:induction false} UntilFirstPublish(rules: TextRules)
    ensures var db := After(rules, 4);
            && db.now == 0 && db.attempts == [] && |db.quizzes| == 1
            && var z := db.quizzes[0];
               && z.owner == 1 && z.status == Scheduled && z.questions == QUESTIONS && z.audience == {2}
               && z.maxAttempts == 2 && z.startsAt == Some(At(100)) && z.endsAt == Some(At(200)) && z.durationSec == 50
               && AsksQuestion(z)
  {
    UntilAssigned(rules);
    Unroll(rules, 3);
    assert 2 in {2};
  }

  lemma {:induction false} UntilFirstStart(rules: TextRules)
    ensures var db := After(rules, 7);
            && db.now == At(120) && |db.attempts| == 1 && |db.quizzes| == 1
            && var z, row := db.quizzes[0], db.attempts[0];
               && z.owner == 1 && z.status == Scheduled && z.questions == QUESTIONS && z.audience == {2}
               && z.maxAttempts == 2 && z.startsAt == Some(At(100)) && z.endsAt == Some(At(200))
               && Same(row, 0, 2) && row.status.InProgress? && row.startedAt == At(110) && row.deadlineAt == At(160)
               && AsksQuestion(z) && row.version == 1 && row.answers == map[]
               && row.readmittedAt.None?
  {
    UntilFirstPublish(rules);
    Unroll(rules, 4);
    Unroll(rules, 5);
    Unroll(rules, 6);
    assert 2 in {2};
    assert After(rules, 5).attempts == [];
  }

  lemma {:induction false} UntilSecondPublish(rules: TextRules)
    ensures var db := After(rules, 8);
            && db.now == At(120) && |db.attempts| == 1 && |db.quizzes| == 1
            && var z, row := db.quizzes[0], db.attempts[0];
               && z.owner == 1 && z.status == Scheduled && z.questions == QUESTIONS && z.audience == {2}
               && z.maxAttempts == 2 && z.startsAt == Some(At(130)) && z.endsAt == Some(At(500)) && z.durationSec == 300
               && Same(row, 0, 2) && row.status.InProgress? && row.startedAt == At(110) && row.deadlineAt == At(160)
               && row.readmittedAt.None?
  {
    UntilFirstStart(rules);
    Unroll(rules, 7);
    assert 2 in {2};
  }

  lemma {:induction false} UntilSecondStart(rules: TextRules)
    ensures var db := After(rules, 10);
            && db.now == At(165) && |db.attempts| == 2 && |db.quizzes| == 1
            && var z, first, second := db.quizzes[0], db.attempts[0], db.attempts[1];
               && z.owner == 1 && z.status == Scheduled && z.questions == QUESTIONS && z.audience == {2}
               && z.startsAt == Some(At(130)) && z.endsAt == Some(At(500)) && z.durationSec == 300
               && first.readmittedAt.None? && second.readmittedAt.None?
               && Same(first, 0, 2) && first.status.InProgress? && first.startedAt == At(110)
               && first.deadlineAt == At(160)
               && Same(second, 0, 2) && second.status.InProgress? && second.startedAt == At(165)
  {
    UntilSecondPublish(rules);
    Unroll(rules, 8);
    Unroll(rules, 9);
    var db := After(rules, 9);
    assert db.attempts[..0] == [];
    assert OpenAttempt(db.attempts, 0, 2, db.now) == OpenAttempt([], 0, 2, db.now) == None;
    assert Used(db.attempts, 0, 2) == Used([], 0, 2) + 1 == 1;
  }

  lemma {:induction false} UntilLastTick(rules: TextRules)
    ensures var db := After(rules, 11); db == After(rules, 10).(now := At(166))
  {
    UntilSecondStart(rules);
    Unroll(rules, 10);
  }

  lemma {:induction false} UntilExtension(rules: TextRules)
    ensures var db := After(rules, 12);
            && db.now == At(166) && |db.attempts| == 2
            && Same(db.attempts[0], 0, 2) && db.attempts[0].status.InProgress? && db.attempts[0].deadlineAt == At(410)
            && Same(db.attempts[1], 0, 2) && db.attempts[1].status.InProgress? && db.attempts[1].deadlineAt == At(465)
  {
    UntilSecondStart(rules);
    UntilLastTick(rules);
    Unroll(rules, 11);
  }

  /** A publish that finds a running attempt, and extends its budget past a deadline it does not move: the
      student ends up with two unexpired attempts, and the first deadline has moved from 160 s to 410 s. */
  lemma {:induction false} LatePublishRevivesAnExpiredAttempt(rules: TextRules)
    ensures var found := Exec(rules, Empty(0), RUN[..7]);
            0 < |found.quizzes| && !Windows.Finds(Windows.FindsHarmless, found, 0, SECOND_TRY)
    ensures var db := Exec(rules, Empty(0), RUN);
            && |db.attempts| == 2 && db.now == At(166)
            && Open(db.attempts[0], 0, 2, db.now) && Open(db.attempts[1], 0, 2, db.now)
            && db.attempts[0].deadlineAt == At(410) && !Windows.OneOpen(db.attempts, 0, db.now)
  {
    LateForFirst(rules);
    UntilExtension(rules);
    assert RUN[..12] == RUN;
    var db := After(rules, 12);
    assert Windows.BothOpen(db.attempts[0], db.attempts[1], db.now);
  }

  lemma {:induction false} LateForFirst(rules: TextRules)
    ensures var db := After(rules, 7);
            && 0 < |db.quizzes| && Publish(db, TEACHER, 0, SECOND_TRY).out.Done?
            && !Windows.Finds(Windows.FindsHarmless, db, 0, SECOND_TRY)
            && !Windows.Finds(Windows.FindsNoneRunning, db, 0, SECOND_TRY)
  {
    UntilFirstStart(rules);
    assert 2 in {2};
    var db := After(rules, 7);
    assert !Windows.Harmless(Published(db.quizzes[0], SECOND_TRY), db.attempts[0]);
  }

  lemma {:induction false} FirstIsRevivable(rules: TextRules)
    ensures var db := After(rules, 7);
            0 < |db.quizzes| && TwoOpen.HasRevivable(Published(db.quizzes[0], SECOND_TRY), db.attempts, 0)
  {
    UntilFirstStart(rules);
    var db := After(rules, 7);
    assert TwoOpen.Lost(db.attempts[..0], 0, 2) == 0;
    assert TwoOpen.Revivable(Published(db.quizzes[0], SECOND_TRY), db.attempts, 0, 0);
  }

  lemma {:induction false} NextIsCareful(care: Windows.Care, rules: TextRules, n: nat)
    requires n < |RUN| && Careful(care, rules, Empty(0), RUN[..n], 0)
    requires RUN[n].Publishes? ==> After(rules, n).attempts == []
    ensures Careful(care, rules, Empty(0), RUN[..n + 1], 0)
  {
    assert RUN[..n] + [RUN[n]] == RUN[..n + 1];
    CarefulSnoc(care, rules, Empty(0), RUN[..n], RUN[n], 0);
  }

  lemma {:induction false} FourStepsAreCareful(care: Windows.Care, rules: TextRules)
    ensures Careful(care, rules, Empty(0), RUN[..4], 0)
  {
    UntilAssigned(rules);
    NoPublishIsCareful(care, rules, Empty(0), RUN[..3], 0);
    NextIsCareful(care, rules, 3);
  }

  lemma {:induction false} FirstPublishIsCareful(care: Windows.Care, rules: TextRules)
    ensures Careful(care, rules, Empty(0), RUN[..7], 0)
  {
    FourStepsAreCareful(care, rules);
    NextIsCareful(care, rules, 4);
    NextIsCareful(care, rules, 5);
    NextIsCareful(care, rules, 6);
  }

  /** On a state that careful publishes reach, one that is not: some careful run after it moves a deadline it
      must not, one leaves an attempt running on a draft, one leaves its student unassigned, and one gives that
      student a second unexpired attempt. */
  lemma {:induction false} LatePublishBreaksPromises(rules: TextRules)
    ensures var db := Exec(rules, Empty(0), RUN[..7]);
            var published := Publish(db, TEACHER, 0, SECOND_TRY);
            && (forall care :: Careful(care, rules, Empty(0), RUN[..7], 0))
            && published.out.Done?
            && !Rescheduling.DeadlinesSafe(rules, published.db, 0)
            && !Rescheduling.NeverOnDraft(rules, published.db, 0)
            && !Rescheduling.NeverUnassigned(rules, published.db, 0)
            && !TwoOpen.OneOpenFrom(rules, published.db, 0)
  {
    LateForFirst(rules);
    FirstIsRevivable(rules);
    forall care {
      FirstPublishIsCareful(care, rules);
    }
    var db := After(rules, 7);
    WindowsHoldOnCarefulRuns(Windows.FindsHarmless, rules, 0, RUN[..7], 0);
    WindowsHoldOnCarefulRuns(Windows.FindsNoneRunning, rules, 0, RUN[..7], 0);
    Punctual.AlwaysAssigned(rules, 0, RUN[..7], 0);
    Rescheduling.DeadlinesSafeIff(rules, db, TEACHER, 0, SECOND_TRY);
    Rescheduling.NeverStrandedIff(rules, db, TEACHER, 0, SECOND_TRY);
    TwoOpen.HarmlessIsOneCareful(rules, 0, RUN[..7], 0);
    TwoOpen.OneOpenAlways(rules, 0, RUN[..7], 0);
    TwoOpen.OneOpenFromIff(rules, db, TEACHER, 0, SECOND_TRY);
  }

  lemma {:induction false} NoneGranted(attempts: seq<Attempt>, q: QuizId, s: UserId)
    requires forall i | 0 <= i < |attempts| :: attempts[i].readmittedAt.None?
    ensures Granted(attempts, q, s) == 0
  {
    if attempts != [] {
      NoneGranted(attempts[..|attempts| - 1], q, s);
    }
  }

  const THIRD_TRY := PublishInput(At(300), At(600), 300, RULES_OFF, Automatic)

  lemma {:induction false} NextIsSlotCareful(rules: TextRules, n: nat)
    requires n < |RUN| && Slots.SlotCareful(rules, Empty(0), RUN[..n], 0)
    requires RUN[n].Publishes? ==> |After(rules, n).attempts| <= 1
    ensures Slots.SlotCareful(rules, Empty(0), RUN[..n + 1], 0)
  {
    assert RUN[..n + 1][..n] == RUN[..n];
    if RUN[n].Publishes? {
      forall s: UserId {
        AtMostOneUsed(After(rules, n).attempts, 0, s);
      }
    }
  }

  lemma {:induction false} AtMostOneUsed(attempts: seq<Attempt>, q: QuizId, s: UserId)
    requires |attempts| <= 1
    ensures Used(attempts, q, s) <= 1
  {
    if attempts != [] {
      assert Used(attempts[..|attempts| - 1], q, s) == 0;
    }
  }

  lemma {:induction false} FourStepsAreSlotCareful(rules: TextRules)
    ensures Slots.SlotCareful(rules, Empty(0), RUN[..4], 0)
  {
    UntilAssigned(rules);
    Slots.NoPublishIsSlotCareful(rules, Empty(0), RUN[..3], 0);
    NextIsSlotCareful(rules, 3);
  }

  lemma {:induction false} BothPublishesAreSlotCareful(rules: TextRules)
    ensures Slots.SlotCareful(rules, Empty(0), RUN[..10], 0)
  {
    FourStepsAreSlotCareful(rules);
    UntilFirstStart(rules);
    NextIsSlotCareful(rules, 4);
    NextIsSlotCareful(rules, 5);
    NextIsSlotCareful(rules, 6);
    NextIsSlotCareful(rules, 7);
    NextIsSlotCareful(rules, 8);
    NextIsSlotCareful(rules, 9);
  }

  /** Once the student has taken both attempts, a third publish can be cancelled and the limit lowered to one. */
  lemma {:induction false} LatePublishBreaksSlotBound(rules: TextRules)
    ensures var db := Exec(rules, Empty(0), RUN[..10]);
            var published := Publish(db, TEACHER, 0, THIRD_TRY);
            && Slots.SlotCareful(rules, Empty(0), RUN[..10], 0)
            && published.out.Done? && !Slots.BoundHoldsFrom(rules, published.db, 0)
            && !Slots.BoundHolds(rules, published.db, Slots.LowersLimit(TEACHER, 0), 0)
  {
    BothPublishesAreSlotCareful(rules);
    UntilSecondStart(rules);
    assert 2 in {2};
    var db := After(rules, 10);
    assert db.attempts[..2] == db.attempts && db.attempts[..2][..1] == db.attempts[..1] && db.attempts[..1][..0] == [];
    assert Used(db.attempts[..1], 0, 2) == 1 && Used(db.attempts, 0, 2) == 2;
    NoneGranted(db.attempts, 0, 2);
    Slots.LoweredLimitBreaksBound(rules, db, TEACHER, 0, THIRD_TRY, 2);
  }

  // ----- An answer that ends up late -----

  const SHORTER := PublishInput(At(160), At(500), 30, RULES_OFF, Automatic)

  /** The student answers at 150 s, under a deadline of 160 s. */
  function Saving(): seq<Action> {
    [Tick(30 * SECOND), Saves(STUDENT, 0, 0, Json.Bool(true), 0)]
  }

  lemma {:induction false} UntilSaved(rules: TextRules)
    ensures var db := Exec(rules, Empty(0), RUN[..7] + Saving());
            && db.now == At(150) && |db.attempts| == 1 && |db.quizzes| == 1
            && var z, row := db.quizzes[0], db.attempts[0];
               && z.owner == 1 && z.status == Scheduled && z.questions == QUESTIONS && z.audience == {2}
               && row.quiz == 0 && row.status.InProgress? && row.startedAt == At(110)
               && 0 in row.answers && row.answers[0].savedAt == At(150)
  {
    UntilFirstStart(rules);
    var found := After(rules, 7);
    assert SnapshotOrdinal(found, found.attempts[0], 0) == Some(1);
    LateAnswers.SavedLater(rules, found, 0, 0, 0, 30 * SECOND);
    ExecConcat(rules, Empty(0), RUN[..7], Saving());
  }

  lemma {:induction false} SavingIsCareful(rules: TextRules)
    ensures LateAnswers.LateCareful(rules, Empty(0), RUN[..7] + Saving(), 0)
  {
    FirstPublishIsCareful(Windows.FindsHarmless, rules);
    NoPublishIsCareful(Windows.FindsHarmless, rules, Exec(rules, Empty(0), RUN[..7]), Saving(), 0);
    CarefulConcat(Windows.FindsHarmless, rules, Empty(0), RUN[..7], Saving(), 0);
    LateAnswers.HarmlessIsLateCareful(rules, 0, RUN[..7] + Saving(), 0);
  }

  /** The quiz is then scheduled again from 160 s with half a minute for everybody, and extended once it is
      open: the answer of 150 s stands against a deadline of 140 s. */
  lemma {:induction false} LatePublishLeavesALateAnswer(rules: TextRules)
    ensures LateAnswers.LateCareful(rules, Empty(0), RUN[..7] + Saving(), 0)
    ensures var published := Publish(Exec(rules, Empty(0), RUN[..7] + Saving()), TEACHER, 0, SHORTER);
            && published.out.Done? && !LateAnswers.NeverLateFrom(rules, published.db, 0)
            && var db := Exec(rules, published.db, [Tick(10 * SECOND)] + [Extends(TEACHER, 0, At(600))]);
               && |db.attempts| == 1 && 0 in db.attempts[0].answers
               && db.attempts[0].answers[0].savedAt == At(150) && db.attempts[0].deadlineAt == At(140)
  {
    SavingIsCareful(rules);
    UntilSaved(rules);
    assert 2 in {2};
    var db := Exec(rules, Empty(0), RUN[..7] + Saving());
    var published := Publish(db, TEACHER, 0, SHORTER).db;
    assert published.quizzes[0] == Published(db.quizzes[0], SHORTER);
    LateAnswers.HeldAnswerGoesLate(rules, db, TEACHER, 0, SHORTER, 0, 0);
    Rescheduling.WaitThenExtend(rules, published, 10 * SECOND, TEACHER, 0, At(600));
    ShorterExtended(db);
  }

  lemma ShorterExtended(db: DB)
    requires db.now == At(150) && |db.attempts| == 1 && |db.quizzes| == 1
    requires var z, row := db.quizzes[0], db.attempts[0];
             && z.owner == 1 && z.status == Scheduled && z.questions == QUESTIONS && z.audience == {2}
             && row.quiz == 0 && row.status.InProgress? && row.startedAt == At(110)
    ensures var published := Publish(db, TEACHER, 0, SHORTER).db;
            var extended := Extend(published.(now := published.now + 10 * SECOND), TEACHER, 0, At(600)).db;
            && |extended.attempts| == 1 && extended.attempts[0] == db.attempts[0].(deadlineAt := At(140))
  {
    assert 2 in {2};
    var published := Publish(db, TEACHER, 0, SHORTER).db;
    assert published.quizzes[0] == Published(db.quizzes[0], SHORTER);
    assert EffectiveStatus(published.quizzes[0], At(160)) == Live;
  }
}
