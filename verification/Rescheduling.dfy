/** Exactly which publishes keep which promise. A publish gates on the stored status and so can find
    attempts on the quiz it schedules; each promise survives it, through every careful run that follows,
    exactly under a condition on those attempts that its caller could check. */
module Rescheduling {
  import opened Common
  import opened Grading
  import opened Schema
  import opened Transactions
  import opened Runs
  import Punctual
  import Windows

  // ----- Deadlines -----

  ghost predicate KeptBetween(rules: TextRules, db: DB, before: seq<Action>, after: seq<Action>, q: QuizId) {
    Punctual.DeadlinesKept(Exec(rules, db, before), Exec(rules, db, before + after), q)
  }

  /** Between any two later states, no deadline on q moves earlier and none that had passed moves. */
  ghost predicate DeadlinesSafe(rules: TextRules, db: DB, q: QuizId) {
    forall before: seq<Action>, after: seq<Action> | Careful(Windows.FindsHarmless, rules, db, before + after, q) ::
      KeptBetween(rules, db, before, after, q)
  }

  lemma HarmlessThenSafe(rules: TextRules, db: DB, q: QuizId)
    requires Windows.WindowOk(Windows.FindsHarmless, db, q)
    ensures DeadlinesSafe(rules, db, q)
  {
    forall before: seq<Action>, after: seq<Action> | Careful(Windows.FindsHarmless, rules, db, before + after, q)
      ensures KeptBetween(rules, db, before, after, q)
    {
      Punctual.CarefulSplit(Windows.FindsHarmless, rules, db, before, after, q);
      WindowKept(Windows.FindsHarmless, rules, db, before, q);
      ExecConcat(rules, db, before, after);
      Punctual.DeadlinesKeptFrom(Windows.FindsHarmless, rules, Exec(rules, db, before), after, q);
    }
  }

  /** A publish that harms a running attempt has an extension that shows it: one that shortens the
      attempt, or one that moves its deadline after it has passed. */
  lemma ExtensionHurts(db: DB, actor: Actor, q: QuizId, input: PublishInput, i: AttemptId)
      returns (elapsed: nat, newEndsAt: Time)
    requires Publish(db, actor, q, input).out.Done? && i < |db.attempts| && db.attempts[i].quiz == q
    requires !Windows.Harmless(Published(db.quizzes[q], input), db.attempts[i])
    ensures var published := Publish(db, actor, q, input).db;
            var later := published.(now := published.now + elapsed);
            !Punctual.DeadlinesKept(later, Extend(later, actor, q, newEndsAt).db, q)
  {
    var row, z := db.attempts[i], Published(db.quizzes[q], input);
    var budget, deadline := Windows.Budget(z, row), row.deadlineAt;
    var at := input.startsAt;
    if budget < deadline {
      newEndsAt := if input.endsAt < deadline then deadline else input.endsAt + 1;
    } else {
      newEndsAt := input.endsAt + 1;
      if deadline <= input.endsAt + 1 && at < deadline {
        at := deadline;
      }
    }
    elapsed := at - db.now;
    var published := Publish(db, actor, q, input).db;
    var later := published.(now := published.now + elapsed);
    assert later.quizzes[q] == z && EffectiveStatus(z, later.now) == Live;
    var extended := Extend(later, actor, q, newEndsAt);
    assert extended.out.Done?;
    assert extended.db.attempts[i].deadlineAt == Min(budget, newEndsAt);
  }

  lemma WaitThenExtend(rules: TextRules, db: DB, elapsed: nat, actor: Actor, q: QuizId, newEndsAt: Time)
    ensures var later := db.(now := db.now + elapsed);
            && Exec(rules, db, [Tick(elapsed)]) == later
            && Exec(rules, db, [Tick(elapsed)] + [Extends(actor, q, newEndsAt)])
               == Extend(later, actor, q, newEndsAt).db
  {
    ExecShort(rules, db, Tick(elapsed), Extends(actor, q, newEndsAt));
    ExecSnoc(rules, db, [Tick(elapsed)], Extends(actor, q, newEndsAt));
  }

  lemma {:induction false} HarmedThenUnsafe(rules: TextRules, db: DB, actor: Actor, q: QuizId, input: PublishInput)
    requires Publish(db, actor, q, input).out.Done? && !Windows.Finds(Windows.FindsHarmless, db, q, input)
    ensures !DeadlinesSafe(rules, Publish(db, actor, q, input).db, q)
  {
    var published := Publish(db, actor, q, input).db;
    var i :| 0 <= i < |db.attempts| && db.attempts[i].quiz == q
             && !Windows.Harmless(Published(db.quizzes[q], input), db.attempts[i]);
    var elapsed, newEndsAt := ExtensionHurts(db, actor, q, input, i);
    var tick, extend := Tick(elapsed), Extends(actor, q, newEndsAt);
    WaitThenExtend(rules, published, elapsed, actor, q, newEndsAt);
    NoPublishIsCareful(Windows.FindsHarmless, rules, published, [tick] + [extend], q);
    assert !KeptBetween(rules, published, [tick], [extend], q);
  }

  /** After a publish, no deadline of the quiz is ever shortened or revived exactly when the new window
      harms no attempt running on it. */
  lemma DeadlinesSafeIff(rules: TextRules, db: DB, actor: Actor, q: QuizId, input: PublishInput)
    requires Windows.WindowOk(Windows.FindsHarmless, db, q) && Publish(db, actor, q, input).out.Done?
    ensures DeadlinesSafe(rules, Publish(db, actor, q, input).db, q)
       <==> Windows.Finds(Windows.FindsHarmless, db, q, input)
  {
    if Windows.Finds(Windows.FindsHarmless, db, q, input) {
      Windows.PublishKeepsIff(Windows.FindsHarmless, db, actor, q, input);
      HarmlessThenSafe(rules, Publish(db, actor, q, input).db, q);
    } else {
      HarmedThenUnsafe(rules, db, actor, q, input);
    }
  }

  // ----- Drafts and audiences -----

  ghost predicate EmptyDraft(rules: TextRules, db: DB, run: seq<Action>, q: QuizId) {
    var db' := Exec(rules, db, run);
    q < |db'.quizzes| && db'.quizzes[q].status == Draft ==> Windows.NoneRunning(db'.attempts, q)
  }

  /** No attempt is ever left running on q as a draft. */
  ghost predicate NeverOnDraft(rules: TextRules, db: DB, q: QuizId) {
    forall run: seq<Action> | Careful(Windows.FindsNoneRunning, rules, db, run, q) :: EmptyDraft(rules, db, run, q)
  }

  ghost predicate RunningAssigned(rules: TextRules, db: DB, run: seq<Action>, q: QuizId) {
    Punctual.AssignedOn(Exec(rules, db, run), q)
  }

  /** No attempt is ever left running by a student who is not assigned to q. */
  ghost predicate NeverUnassigned(rules: TextRules, db: DB, q: QuizId) {
    forall run: seq<Action> | Careful(Windows.FindsNoneRunning, rules, db, run, q) :: RunningAssigned(rules, db, run, q)
  }

  lemma NoneRunningThenNeverStranded(rules: TextRules, db: DB, q: QuizId)
    requires Windows.WindowOk(Windows.FindsNoneRunning, db, q) && Punctual.AssignedOn(db, q)
    ensures NeverOnDraft(rules, db, q) && NeverUnassigned(rules, db, q)
  {
    forall run: seq<Action> | Careful(Windows.FindsNoneRunning, rules, db, run, q)
      ensures EmptyDraft(rules, db, run, q) && RunningAssigned(rules, db, run, q)
    {
      var db' := Exec(rules, db, run);
      WindowKept(Windows.FindsNoneRunning, rules, db, run, q);
      Punctual.AssignedKept(rules, db, run, q);
      if q < |db'.quizzes| && db'.quizzes[q].status == Draft {
        Windows.UpcomingIsEmpty(Windows.FindsNoneRunning, db', q);
      }
    }
  }

  /** The owner cancels at once: the quiz is a draft again, and the attempt is still running. */
  lemma CancelStrands(db: DB, actor: Actor, q: QuizId, input: PublishInput, i: AttemptId)
    requires Publish(db, actor, q, input).out.Done?
    requires i < |db.attempts| && db.attempts[i].quiz == q && db.attempts[i].status.InProgress?
    ensures var cancelled := Cancel(Publish(db, actor, q, input).db, actor, q).db;
            q < |cancelled.quizzes| && cancelled.quizzes[q].status == Draft && cancelled.attempts == db.attempts
  {
    assert Publish(db, actor, q, input).db.quizzes[q].startsAt == Some(input.startsAt);
  }

  /** The owner replaces the audience by anybody else: it is not refused, and the attempt is still running. */
  lemma RemovalStrands(db: DB, actor: Actor, q: QuizId, input: PublishInput, i: AttemptId, other: UserId)
    requires Publish(db, actor, q, input).out.Done?
    requires i < |db.attempts| && db.attempts[i].quiz == q && db.attempts[i].status.InProgress?
    requires other != db.attempts[i].student
    ensures var replaced := SetAssignments(Publish(db, actor, q, input).db, actor, q, {other}).db;
            replaced.attempts == db.attempts && !Punctual.Assigned(replaced.quizzes, db.attempts[i])
  {
    var published := Publish(db, actor, q, input).db;
    assert published.quizzes[q] == Published(db.quizzes[q], input);
    assert EffectiveStatus(published.quizzes[q], published.now) == Scheduled;
    assert other in {other};
  }

  lemma {:induction false} RunningThenStranded(rules: TextRules, db: DB, actor: Actor, q: QuizId, input: PublishInput)
    requires Publish(db, actor, q, input).out.Done? && !Windows.NoneRunning(db.attempts, q)
    ensures !NeverOnDraft(rules, Publish(db, actor, q, input).db, q)
    ensures !NeverUnassigned(rules, Publish(db, actor, q, input).db, q)
  {
    var published := Publish(db, actor, q, input).db;
    var i :| 0 <= i < |db.attempts| && db.attempts[i].quiz == q && db.attempts[i].status.InProgress?;
    var other := db.attempts[i].student + 1;
    var cancel, assign := Cancels(actor, q), Assigns(actor, q, {other});
    CancelStrands(db, actor, q, input, i);
    RemovalStrands(db, actor, q, input, i, other);
    ExecShort(rules, published, cancel, cancel);
    ExecShort(rules, published, assign, assign);
    NoPublishIsCareful(Windows.FindsNoneRunning, rules, published, [cancel], q);
    NoPublishIsCareful(Windows.FindsNoneRunning, rules, published, [assign], q);
    assert !EmptyDraft(rules, published, [cancel], q);
    assert !RunningAssigned(rules, published, [assign], q);
  }

  /** After a publish, no attempt is ever left running on a draft, and none without its student assigned,
      exactly when the publish finds none running. */
  lemma NeverStrandedIff(rules: TextRules, db: DB, actor: Actor, q: QuizId, input: PublishInput)
    requires Windows.WindowOk(Windows.FindsNoneRunning, db, q) && Punctual.AssignedOn(db, q)
    requires Publish(db, actor, q, input).out.Done?
    ensures NeverOnDraft(rules, Publish(db, actor, q, input).db, q)
       <==> Windows.Finds(Windows.FindsNoneRunning, db, q, input)
    ensures NeverUnassigned(rules, Publish(db, actor, q, input).db, q)
       <==> Windows.Finds(Windows.FindsNoneRunning, db, q, input)
  {
    var published := Publish(db, actor, q, input).db;
    if Windows.Finds(Windows.FindsNoneRunning, db, q, input) {
      Windows.PublishKeepsIff(Windows.FindsNoneRunning, db, actor, q, input);
      ApplyKeepsPublished(rules, db, actor, q, input);
      NoneRunningThenNeverStranded(rules, published, q);
    } else {
      RunningThenStranded(rules, db, actor, q, input);
    }
  }

  lemma ApplyKeepsPublished(rules: TextRules, db: DB, actor: Actor, q: QuizId, input: PublishInput)
    requires Punctual.AssignedOn(db, q)
    ensures Punctual.AssignedOn(Publish(db, actor, q, input).db, q)
  {
    Punctual.AudiencesStay(rules, db, Publishes(actor, q, input));
    var db' := Publish(db, actor, q, input).db;
    forall i | 0 <= i < |db'.attempts| && db'.attempts[i].quiz == q
      ensures Punctual.Assigned(db'.quizzes, db'.attempts[i])
    {
      assert Punctual.Assigned(db.quizzes, db.attempts[i]);
    }
  }
}
