/** Attempt slots: a student's attempts on a quiz never outnumber its limit and their readmissions, as long
    as a publish finds no student who has used more than the smallest limit a draft can be given. */
module Slots {
  import opened Common
  import opened Grading
  import opened Schema
  import opened Transactions
  import opened RowMoves
  import opened Runs
  import Windows

  predicate SlotBound(db: DB, q: QuizId, s: UserId)
    requires q < |db.quizzes|
  {
    Used(db.attempts, q, s) <= db.quizzes[q].maxAttempts + Granted(db.attempts, q, s)
  }

  /** The student could still be held to a limit of one. */
  predicate Spare(db: DB, q: QuizId, s: UserId) {
    Used(db.attempts, q, s) <= 1 + Granted(db.attempts, q, s)
  }

  ghost predicate AllSpare(db: DB, q: QuizId) {
    forall s: UserId :: Spare(db, q, s)
  }

  ghost predicate SlotsOk(db: DB, q: QuizId)
    requires q < |db.quizzes|
  {
    forall s: UserId :: SlotBound(db, q, s)
  }

  /** A quiz that can still be edited, now or after a cancel, has no student beyond the smallest limit. */
  predicate SlotIn(db: DB, q: QuizId, s: UserId)
    requires q < |db.quizzes|
  {
    SlotBound(db, q, s) && (Windows.Unopened(db.quizzes[q], db.now) ==> Spare(db, q, s))
  }

  ghost predicate SlotsIn(db: DB, q: QuizId) {
    if q >= |db.quizzes| then Windows.NoAttempts(db.attempts, q)
    else forall s: UserId :: SlotIn(db, q, s)
  }

  // ----- One step -----

  /** How a transaction that does not publish the quiz may move its limit and its opening. */
  predicate LimitMoves(db: DB, db': DB, q: QuizId) {
    && q < |db.quizzes| && q < |db'.quizzes|
    && (db'.quizzes[q].maxAttempts == db.quizzes[q].maxAttempts
        || (db'.quizzes[q].maxAttempts >= 1 && Windows.Unopened(db.quizzes[q], db.now)))
    && (Windows.Unopened(db'.quizzes[q], db'.now) ==> Windows.Unopened(db.quizzes[q], db.now))
  }

  lemma OwnersMoveLimits(rules: TextRules, db: DB, act: Action, q: QuizId)
    requires ByOwner(act) && q < |db.quizzes|
    requires !(act.Publishes? && act.q == q)
    ensures LimitMoves(db, Apply(rules, db, act), q)
  {
  }

  lemma ActionsMoveLimits(rules: TextRules, db: DB, act: Action, q: QuizId)
    requires q < |db.quizzes| && !(act.Publishes? && act.q == q)
    ensures LimitMoves(db, Apply(rules, db, act), q)
  {
    if ByOwner(act) {
      OwnersMoveLimits(rules, db, act, q);
    } else if ByStudents(act) || ByModerators(act) || ByWorker(act) {
      ActionSettles(rules, db, act);
      assert Windows.SameWindow(db.quizzes[q], Apply(rules, db, act).quizzes[q]);
    }
  }

  lemma PublishMovesLimits(db: DB, actor: Actor, q: QuizId, input: PublishInput)
    requires Publish(db, actor, q, input).out.Done?
    ensures var db' := Publish(db, actor, q, input).db;
            && q < |db.quizzes| && q < |db'.quizzes| && db'.attempts == db.attempts && db'.now == db.now
            && db'.quizzes[q].maxAttempts == db.quizzes[q].maxAttempts && Windows.Unopened(db'.quizzes[q], db'.now)
  {
  }

  lemma CountsCarry(db: DB, db': DB, q: QuizId, s: UserId)
    requires LimitMoves(db, db', q) && SlotIn(db, q, s)
    requires Used(db'.attempts, q, s) == Used(db.attempts, q, s)
    requires Granted(db'.attempts, q, s) >= Granted(db.attempts, q, s)
    ensures SlotIn(db', q, s)
  {
  }

  /** A start takes a slot only where one is left. */
  lemma StartKeeps(db: DB, actor: Actor, p: QuizId, q: QuizId, s: UserId)
    requires q < |db.quizzes| && SlotIn(db, q, s)
    ensures SlotIn(Start(db, actor, p).db, q, s)
  {
    var db' := Start(db, actor, p).db;
    if Start(db, actor, p).out.Began? {
      assert db'.attempts[..|db.attempts|] == db.attempts;
    }
  }

  predicate PublishSpares(db: DB, act: Action, q: QuizId, s: UserId) {
    act.Publishes? && act.q == q && Publish(db, act.actor, q, act.input).out.Done? ==> Spare(db, q, s)
  }

  lemma {:induction false} ApplyKeepsSlot(rules: TextRules, db: DB, act: Action, q: QuizId, s: UserId)
    requires q < |db.quizzes| && SlotIn(db, q, s) && PublishSpares(db, act, q, s)
    ensures var db' := Apply(rules, db, act);
            q < |db'.quizzes| && SlotIn(db', q, s)
  {
    var db' := Apply(rules, db, act);
    if act.Starts? {
      StartKeeps(db, act.actor, act.q, q, s);
    } else if act.Publishes? && act.q == q {
      if Publish(db, act.actor, q, act.input).out.Done? {
        PublishMovesLimits(db, act.actor, q, act.input);
      }
    } else {
      ActionsMoveLimits(rules, db, act, q);
      ApplyMoves(rules, db, act);
      MovesKeepIdentity(rules, db, db'.attempts);
      if |db'.attempts| != |db.attempts| {
        OnlyStartsAdd(rules, db, act);
      }
      Windows.CountsSettle(db.attempts, db'.attempts, q, s);
      CountsCarry(db, db', q, s);
    }
  }

  lemma {:induction false} NewQuizHasSlots(rules: TextRules, db: DB, act: Action, q: QuizId)
    requires q >= |db.quizzes| && Windows.NoAttempts(db.attempts, q)
    ensures SlotsIn(Apply(rules, db, act), q)
  {
    var db' := Apply(rules, db, act);
    ApplyMoves(rules, db, act);
    MovesKeepIdentity(rules, db, db'.attempts);
    assert Windows.NoAttempts(db'.attempts, q) by {
      if |db'.attempts| != |db.attempts| {
        OnlyStartsAdd(rules, db, act);
      }
    }
    if q < |db'.quizzes| {
      OnlyCreatesAdd(rules, db, act);
      forall s: UserId
        ensures SlotIn(db', q, s)
      {
        Windows.NoneUsed(db'.attempts, q, s);
      }
    }
  }

  lemma OnlyCreatesAdd(rules: TextRules, db: DB, act: Action)
    requires |Apply(rules, db, act).quizzes| > |db.quizzes|
    ensures |Apply(rules, db, act).quizzes| == |db.quizzes| + 1
    ensures Apply(rules, db, act).quizzes[|db.quizzes|].maxAttempts == 1
  {
  }

  // ----- Whole runs -----

  /** Every publish of q that succeeds in the run finds each student within the smallest limit. */
  ghost predicate SlotCareful(rules: TextRules, db: DB, run: seq<Action>, q: QuizId) {
    run == [] ||
    var init, last := run[..|run| - 1], run[|run| - 1];
    && SlotCareful(rules, db, init, q)
    && forall s: UserId :: PublishSpares(Exec(rules, db, init), last, q, s)
  }

  lemma {:induction false} ApplyKeepsSlots(rules: TextRules, db: DB, act: Action, q: QuizId)
    requires SlotsIn(db, q) && forall s: UserId :: PublishSpares(db, act, q, s)
    ensures SlotsIn(Apply(rules, db, act), q)
  {
    if q >= |db.quizzes| {
      NewQuizHasSlots(rules, db, act, q);
    } else {
      var db' := Apply(rules, db, act);
      forall s: UserId
        ensures q < |db'.quizzes| && SlotIn(db', q, s)
      {
        assert SlotIn(db, q, s) && PublishSpares(db, act, q, s);
        ApplyKeepsSlot(rules, db, act, q, s);
      }
      assert SlotIn(db', q, 0);
    }
  }

  lemma {:induction false} SlotsInKept(rules: TextRules, db: DB, run: seq<Action>, q: QuizId)
    requires SlotsIn(db, q) && SlotCareful(rules, db, run, q)
    ensures SlotsIn(Exec(rules, db, run), q)
  {
    if run != [] {
      SlotsInKept(rules, db, run[..|run| - 1], q);
      ApplyKeepsSlots(rules, Exec(rules, db, run[..|run| - 1]), run[|run| - 1], q);
    }
  }

  lemma {:induction false} NoPublishIsSlotCareful(rules: TextRules, db: DB, run: seq<Action>, q: QuizId)
    requires NoPublish(run)
    ensures SlotCareful(rules, db, run, q)
  {
    if run != [] {
      NoPublishIsSlotCareful(rules, db, run[..|run| - 1], q);
    }
  }

  lemma SlotsInIsOk(db: DB, q: QuizId)
    requires SlotsIn(db, q) && q < |db.quizzes|
    ensures SlotsOk(db, q)
  {
    forall s: UserId
      ensures SlotBound(db, q, s)
    {
      assert SlotIn(db, q, s);
    }
  }

  /** No student ever has more attempts on a quiz than its limit and their readmissions allow. */
  lemma SlotsAlways(rules: TextRules, now: Time, run: seq<Action>, q: QuizId)
    requires SlotCareful(rules, Empty(now), run, q)
    ensures var db := Exec(rules, Empty(now), run);
            q < |db.quizzes| ==> SlotsOk(db, q)
  {
    SlotsInKept(rules, Empty(now), run, q);
    if q < |Exec(rules, Empty(now), run).quizzes| {
      SlotsInIsOk(Exec(rules, Empty(now), run), q);
    }
  }

  // ----- Exactly which publishes keep the bound -----

  ghost predicate BoundHolds(rules: TextRules, db: DB, run: seq<Action>, q: QuizId) {
    var db' := Exec(rules, db, run); q < |db'.quizzes| && SlotsOk(db', q)
  }

  /** Whatever careful run follows, the bound holds at its end. */
  ghost predicate BoundHoldsFrom(rules: TextRules, db: DB, q: QuizId) {
    forall run: seq<Action> | SlotCareful(rules, db, run, q) :: BoundHolds(rules, db, run, q)
  }

  lemma SpareThenBound(rules: TextRules, db: DB, actor: Actor, q: QuizId, input: PublishInput)
    requires Publish(db, actor, q, input).out.Done? && SlotsOk(db, q) && AllSpare(db, q)
    ensures BoundHoldsFrom(rules, Publish(db, actor, q, input).db, q)
  {
    var db' := Publish(db, actor, q, input).db;
    PublishMovesLimits(db, actor, q, input);
    assert SlotsIn(db', q) by {
      forall s: UserId
        ensures SlotIn(db', q, s)
      {
        assert SlotBound(db, q, s) && Spare(db, q, s);
      }
    }
    forall run: seq<Action> | SlotCareful(rules, db', run, q)
      ensures BoundHolds(rules, db', run, q)
    {
      SlotsInKept(rules, db', run, q);
      VersionsAreWriteOnce(rules, db', run);
      SlotsInIsOk(Exec(rules, db', run), q);
    }
  }

  /** The owner cancels the publish and lowers the limit to one. */
  function LowersLimit(actor: Actor, q: QuizId): seq<Action> {
    [Cancels(actor, q), EditsDraft(actor, q, [], 1, 1.0, 0.0)]
  }

  lemma LoweredLimit(db: DB, actor: Actor, q: QuizId, input: PublishInput)
    requires Publish(db, actor, q, input).out.Done?
    ensures var draft := Cancel(Publish(db, actor, q, input).db, actor, q).db;
            var lowered := EditDraft(draft, actor, q, [], 1, 1.0, 0.0).db;
            && q < |lowered.quizzes| && lowered.quizzes[q].status == Draft && lowered.quizzes[q].maxAttempts == 1
            && lowered.attempts == db.attempts
  {
    var db' := Publish(db, actor, q, input).db;
    assert db'.quizzes[q].status == Scheduled && db'.quizzes[q].startsAt == Some(input.startsAt);
  }

  /** A publish that finds a student with more attempts than the smallest limit lets the bound fail: the
      quiz can be cancelled back to a draft with those attempts on it. */
  lemma {:induction false} LoweredLimitBreaksBound(rules: TextRules, db: DB, actor: Actor, q: QuizId,
                                                   input: PublishInput, s: UserId)
    requires Publish(db, actor, q, input).out.Done? && !Spare(db, q, s)
    ensures var db' := Publish(db, actor, q, input).db;
            && SlotCareful(rules, db', LowersLimit(actor, q), q)
            && q < |Exec(rules, db', LowersLimit(actor, q)).quizzes|
            && Exec(rules, db', LowersLimit(actor, q)).quizzes[q].status == Draft
            && !SlotBound(Exec(rules, db', LowersLimit(actor, q)), q, s)
  {
    var db' := Publish(db, actor, q, input).db;
    LoweredLimit(db, actor, q, input);
    NoPublishIsSlotCareful(rules, db', LowersLimit(actor, q), q);
    ExecShort(rules, db', Cancels(actor, q), EditsDraft(actor, q, [], 1, 1.0, 0.0));
  }

  /** Whatever follows a publish, its bound holds exactly when every student on it fits the smallest limit. */
  lemma SlotsKeptIff(rules: TextRules, db: DB, actor: Actor, q: QuizId, input: PublishInput)
    requires Publish(db, actor, q, input).out.Done? && SlotsOk(db, q)
    ensures BoundHoldsFrom(rules, Publish(db, actor, q, input).db, q) <==> AllSpare(db, q)
  {
    var db' := Publish(db, actor, q, input).db;
    if AllSpare(db, q) {
      SpareThenBound(rules, db, actor, q, input);
    } else {
      var s: UserId :| !Spare(db, q, s);
      LoweredLimitBreaksBound(rules, db, actor, q, input, s);
      assert !BoundHolds(rules, db', LowersLimit(actor, q), q);
    }
  }
}
