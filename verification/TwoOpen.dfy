/** Exactly which publishes can leave a student with two unexpired attempts. Between such a publish and the
    first extension of its window, running attempts keep the deadlines of the window they were started in;
    the extension then gives each of them the new budget. */
module TwoOpen {
  import opened Common
  import opened Grading
  import opened Schema
  import opened Transactions
  import opened RowMoves
  import opened Runs
  import Rescheduling
  import Windows

  predicate Running(row: Attempt, q: QuizId) {
    row.quiz == q && row.status.InProgress?
  }

  /** A slot that no readmission will give back. */
  predicate Spent(row: Attempt) {
    (row.status.Submitted? || row.status.Graded?) && row.readmittedAt.None?
  }

  /** How many slots of a student are spent. */
  function Lost(attempts: seq<Attempt>, q: QuizId, s: UserId): nat {
    if attempts == [] then 0
    else
      var last := attempts[|attempts| - 1];
      Lost(attempts[..|attempts| - 1], q, s) + (if Same(last, q, s) && Spent(last) then 1 else 0)
  }

  /** Two running attempts of one student that the new window would both let run past its start. */
  predicate Overlap(z: Quiz, a: Attempt, b: Attempt, q: QuizId)
    requires z.startsAt.Some?
  {
    && Running(a, q) && Running(b, q) && a.student == b.student
    && Windows.Budget(z, a) > z.startsAt.value && Windows.Budget(z, b) > z.startsAt.value
  }

  predicate HasOverlap(z: Quiz, attempts: seq<Attempt>, q: QuizId)
    requires z.startsAt.Some?
  {
    exists i, j | 0 <= i < j < |attempts| :: Overlap(z, attempts[i], attempts[j], q)
  }

  /** A running attempt that expires inside the new window with budget left, of a student who can still be
      given another attempt. */
  predicate Revivable(z: Quiz, attempts: seq<Attempt>, q: QuizId, i: nat)
    requires i < |attempts| && z.startsAt.Some? && z.endsAt.Some?
  {
    var row := attempts[i];
    && Running(row, q) && row.deadlineAt < z.endsAt.value
    && Windows.Budget(z, row) > z.startsAt.value && Windows.Budget(z, row) > row.deadlineAt
    && Lost(attempts, q, row.student) + 1 < z.maxAttempts
  }

  predicate HasRevivable(z: Quiz, attempts: seq<Attempt>, q: QuizId)
    requires z.startsAt.Some? && z.endsAt.Some?
  {
    exists i | 0 <= i < |attempts| :: Revivable(z, attempts, q, i)
  }

  predicate CanMakeTwo(z: Quiz, attempts: seq<Attempt>, q: QuizId)
    requires z.startsAt.Some? && z.endsAt.Some?
  {
    HasOverlap(z, attempts, q) || HasRevivable(z, attempts, q)
  }

  // ----- Slots -----

  predicate Clean(row: Attempt) {
    row.status.InProgress? ==> row.readmittedAt.None?
  }

  predicate AllClean(attempts: seq<Attempt>, q: QuizId) {
    forall k | 0 <= k < |attempts| && attempts[k].quiz == q :: Clean(attempts[k])
  }

  /** A student with a running attempt has a slot in use that is neither spent nor granted again. */
  lemma {:induction false} RunningTakesASlot(attempts: seq<Attempt>, q: QuizId, i: nat)
    requires i < |attempts| && Running(attempts[i], q) && Clean(attempts[i])
    ensures var s := attempts[i].student; Used(attempts, q, s) >= Lost(attempts, q, s) + Granted(attempts, q, s) + 1
  {
    var n, s := |attempts| - 1, attempts[i].student;
    if i < n {
      RunningTakesASlot(attempts[..n], q, i);
    } else {
      SlotsAddUp(attempts[..n], q, s);
    }
  }

  lemma {:induction false} SlotsAddUp(attempts: seq<Attempt>, q: QuizId, s: UserId)
    ensures Used(attempts, q, s) >= Lost(attempts, q, s) + Granted(attempts, q, s)
  {
    if attempts != [] {
      SlotsAddUp(attempts[..|attempts| - 1], q, s);
    }
  }

  lemma {:induction false} LostGrows(before: seq<Attempt>, after: seq<Attempt>, q: QuizId, s: UserId)
    requires |before| == |after|
    requires forall i | 0 <= i < |before| ::
               Windows.SameIdentity(before[i], after[i]) && (Spent(before[i]) ==> Spent(after[i]))
    ensures Lost(after, q, s) >= Lost(before, q, s)
  {
    if before != [] {
      var n := |before| - 1;
      assert Windows.SameIdentity(before[n], after[n]);
      LostGrows(before[..n], after[..n], q, s);
    }
  }

  /** What a row keeps of its slot, whatever moves it. */
  predicate SlotKept(before: Attempt, after: Attempt) {
    && Windows.SameIdentity(before, after) && (Spent(before) ==> Spent(after)) && (Clean(before) ==> Clean(after))
    && (after.status.InProgress? ==> before.status.InProgress?)
    && after.startedAt == before.startedAt
  }

  lemma MovesKeepSlots(rules: TextRules, db: DB, after: seq<Attempt>)
    requires AllMove(rules, db, after)
    ensures forall i | 0 <= i < |db.attempts| :: SlotKept(db.attempts[i], after[i])
  {
    forall i | 0 <= i < |db.attempts|
      ensures SlotKept(db.attempts[i], after[i])
    {
      assert Moves(rules, db, db.attempts[i], after[i]);
      var move: RowMove :| May(db, db.attempts[i], move) && after[i] == Moved(rules, db, db.attempts[i], move);
    }
  }

  // ----- Until the first extension -----

  /** The window and the limit are those of z. */
  predicate SamePlan(z: Quiz, plan: Quiz) {
    && Windows.Opening(z.status) && Windows.Opening(plan.status)
    && z.startsAt == plan.startsAt && z.endsAt == plan.endsAt && z.durationSec == plan.durationSec
    && z.maxAttempts == plan.maxAttempts && z.startsAt.Some? && z.endsAt.Some?
  }

  /** Attempts below n were found by the publish. Two of them cannot both outlast the start; and one that is
      joined by a newer one has no budget left by then. */
  predicate PairOk(plan: Quiz, n: nat, i: nat, a: Attempt, j: nat, b: Attempt, q: QuizId)
    requires plan.startsAt.Some?
  {
    Running(a, q) && Running(b, q) && a.student == b.student && i < n ==>
      if j < n then !Overlap(plan, a, b, q) else Windows.Budget(plan, a) <= b.startedAt
  }

  predicate Blocked(plan: Quiz, attempts: seq<Attempt>, q: QuizId, i: nat)
    requires i < |attempts| && plan.startsAt.Some? && plan.endsAt.Some?
  {
    attempts[i].quiz == q ==> Clean(attempts[i]) && !Revivable(plan, attempts, q, i)
  }

  predicate RowPending(plan: Quiz, n: nat, i: nat, row: Attempt, now: Time) {
    row.startedAt <= now && (i >= n ==> Windows.Harmless(plan, row))
  }

  predicate Pending(db: DB, q: QuizId, n: nat, plan: Quiz) {
    && q < |db.quizzes| && n <= |db.attempts| && SamePlan(db.quizzes[q], plan)
    && Windows.WindowShape(db.quizzes[q], db.now) && Windows.OneOpen(db.attempts, q, db.now)
    && (forall i | 0 <= i < |db.attempts| && db.attempts[i].quiz == q :: RowPending(plan, n, i, db.attempts[i], db.now))
    && (forall i, j | 0 <= i < j < |db.attempts| :: PairOk(plan, n, i, db.attempts[i], j, db.attempts[j], q))
    && (forall i | 0 <= i < n :: Blocked(plan, db.attempts, q, i))
  }

  /** Nothing is at stake any more: the window harms no running attempt. */
  predicate Safe(db: DB, q: QuizId) {
    q < |db.quizzes| && Windows.WindowOk(Windows.FindsHarmless, db, q)
  }

  predicate StillOne(db: DB, q: QuizId, n: nat, plan: Quiz) {
    Pending(db, q, n, plan) || Safe(db, q)
  }

  // ----- Steps before the first extension -----

  /** Steps that only settle attempts, or move the clock or other quizzes. */
  lemma {:induction false} QuietKeeps(db: DB, db': DB, q: QuizId, n: nat, plan: Quiz)
    requires Pending(db, q, n, plan) && db.now <= db'.now && q < |db'.quizzes|
    requires |db'.attempts| == |db.attempts|
    requires SamePlan(db'.quizzes[q], plan) && Windows.WindowShape(db'.quizzes[q], db'.now)
    requires forall i | 0 <= i < |db.attempts| ::
               SlotKept(db.attempts[i], db'.attempts[i]) && db'.attempts[i].deadlineAt == db.attempts[i].deadlineAt
    ensures Pending(db', q, n, plan)
  {
    forall i, j | 0 <= i < j < |db.attempts|
      ensures db'.attempts[i].quiz == q ==> !Windows.BothOpen(db'.attempts[i], db'.attempts[j], db'.now)
      ensures PairOk(plan, n, i, db'.attempts[i], j, db'.attempts[j], q)
    {
      assert SlotKept(db.attempts[i], db'.attempts[i]) && SlotKept(db.attempts[j], db'.attempts[j]);
      assert PairOk(plan, n, i, db.attempts[i], j, db.attempts[j], q);
      if db'.attempts[i].quiz == q {
        assert !Windows.BothOpen(db.attempts[i], db.attempts[j], db.now);
      }
    }
    forall i | 0 <= i < |db.attempts|
      ensures db'.attempts[i].quiz == q ==> RowPending(plan, n, i, db'.attempts[i], db'.now)
      ensures i < n ==> Blocked(plan, db'.attempts, q, i)
    {
      assert SlotKept(db.attempts[i], db'.attempts[i]);
      assert db.attempts[i].quiz == q ==> RowPending(plan, n, i, db.attempts[i], db.now);
      LostGrows(db.attempts, db'.attempts, q, db.attempts[i].student);
      assert i < n ==> Blocked(plan, db.attempts, q, i);
    }
  }

  /** A student with a running attempt starts another only once that one is past its budget for good. */
  lemma StartFindsNoBudget(db: DB, actor: Actor, q: QuizId, n: nat, plan: Quiz, i: nat)
    requires Pending(db, q, n, plan) && Start(db, actor, q).out.Began?
    requires i < n && Running(db.attempts[i], q) && db.attempts[i].student == actor.id
    ensures Windows.Budget(plan, db.attempts[i]) <= db.now
  {
    Windows.NoOpenAttempt(db.attempts, q, actor.id, db.now);
    assert !Open(db.attempts[i], q, actor.id, db.now);
    assert Blocked(plan, db.attempts, q, i);
    RunningTakesASlot(db.attempts, q, i);
  }

  lemma StartPairs(db: DB, actor: Actor, q: QuizId, n: nat, plan: Quiz, i: nat)
    requires Pending(db, q, n, plan) && Start(db, actor, q).out.Began? && i < |db.attempts|
    ensures var m, after := |db.attempts|, Start(db, actor, q).db.attempts;
            && m < |after| && after[i] == db.attempts[i] && PairOk(plan, n, i, after[i], m, after[m], q)
            && (after[i].quiz == q ==> !Windows.BothOpen(after[i], after[m], db.now))
  {
    Windows.NoOpenAttempt(db.attempts, q, actor.id, db.now);
    assert !Open(db.attempts[i], q, actor.id, db.now);
    if i < n && Running(db.attempts[i], q) && db.attempts[i].student == actor.id {
      StartFindsNoBudget(db, actor, q, n, plan, i);
    }
  }

  lemma StartBlocks(db: DB, actor: Actor, p: QuizId, q: QuizId, n: nat, plan: Quiz, i: nat)
    requires Pending(db, q, n, plan) && Start(db, actor, p).out.Began? && i < n
    ensures Blocked(plan, Start(db, actor, p).db.attempts, q, i)
  {
    var db' := Start(db, actor, p).db;
    assert db'.attempts[..|db.attempts|] == db.attempts;
    assert Blocked(plan, db.attempts, q, i);
    assert Lost(db'.attempts, q, db.attempts[i].student) == Lost(db.attempts, q, db.attempts[i].student);
  }

  lemma {:induction false} StartKeeps(db: DB, actor: Actor, q: QuizId, n: nat, plan: Quiz)
    requires Pending(db, q, n, plan) && Start(db, actor, q).out.Began?
    ensures Pending(Start(db, actor, q).db, q, n, plan)
  {
    var db' := Start(db, actor, q).db;
    var m := |db.attempts|;
    forall i, j | 0 <= i < j < |db'.attempts|
      ensures PairOk(plan, n, i, db'.attempts[i], j, db'.attempts[j], q)
      ensures db'.attempts[i].quiz == q ==> !Windows.BothOpen(db'.attempts[i], db'.attempts[j], db.now)
    {
      if j < m {
        assert PairOk(plan, n, i, db.attempts[i], j, db.attempts[j], q);
        assert db.attempts[i].quiz == q ==> !Windows.BothOpen(db.attempts[i], db.attempts[j], db.now);
      } else {
        StartPairs(db, actor, q, n, plan, i);
      }
    }
    forall i | 0 <= i < n {
      StartBlocks(db, actor, q, q, n, plan, i);
    }
  }

  lemma StartElsewhereKeeps(db: DB, actor: Actor, p: QuizId, q: QuizId, n: nat, plan: Quiz)
    requires Pending(db, q, n, plan) && Start(db, actor, p).out.Began? && p != q
    ensures Pending(Start(db, actor, p).db, q, n, plan)
  {
    var db' := Start(db, actor, p).db;
    var m := |db.attempts|;
    forall i | 0 <= i < n {
      StartBlocks(db, actor, p, q, n, plan, i);
    }
    forall i, j | 0 <= i < j < |db'.attempts|
      ensures PairOk(plan, n, i, db'.attempts[i], j, db'.attempts[j], q)
    {
      if j < m {
        assert PairOk(plan, n, i, db.attempts[i], j, db.attempts[j], q);
      }
    }
  }

  // ----- The first extension, and the other ways out -----

  /** Two running attempts of one student on q, at a moment of the window, are not both unexpired after an
      extension. */
  lemma ExtensionRevivesAtMostOne(db: DB, actor: Actor, q: QuizId, newEndsAt: Time, n: nat, plan: Quiz, i: nat, j: nat)
    requires Pending(db, q, n, plan) && Extend(db, actor, q, newEndsAt).out.Done?
    requires i < j < |db.attempts| && db.attempts[i].quiz == q
    ensures var after := Extend(db, actor, q, newEndsAt).db.attempts;
            !Windows.BothOpen(after[i], after[j], db.now)
  {
    assert PairOk(plan, n, i, db.attempts[i], j, db.attempts[j], q);
    assert RowPending(plan, n, i, db.attempts[i], db.now);
    assert !Windows.BothOpen(db.attempts[i], db.attempts[j], db.now);
    if db.attempts[j].quiz == q {
      assert RowPending(plan, n, j, db.attempts[j], db.now);
    }
  }

  lemma {:induction false} ExtendSettles(db: DB, actor: Actor, q: QuizId, newEndsAt: Time, n: nat, plan: Quiz)
    requires Pending(db, q, n, plan) && Extend(db, actor, q, newEndsAt).out.Done?
    ensures Safe(Extend(db, actor, q, newEndsAt).db, q)
  {
    var db' := Extend(db, actor, q, newEndsAt).db;
    forall i, j | 0 <= i < j < |db'.attempts| && db'.attempts[i].quiz == q
      ensures !Windows.BothOpen(db'.attempts[i], db'.attempts[j], db'.now)
    {
      ExtensionRevivesAtMostOne(db, actor, q, newEndsAt, n, plan, i, j);
    }
    forall i | 0 <= i < |db.attempts| && db'.attempts[i].quiz == q
      ensures Windows.RowIn(Windows.FindsHarmless, db'.quizzes[q], db'.attempts[i], db'.now)
    {
      assert RowPending(plan, n, i, db.attempts[i], db.now);
    }
  }

  /** A quiz that stops opening, or that a careful publish moves, has nothing at stake. */
  lemma {:induction false} LeavingIsSafe(db: DB, db': DB, q: QuizId, n: nat, plan: Quiz)
    requires Pending(db, q, n, plan) && q < |db'.quizzes|
    requires db'.attempts == db.attempts && db'.now == db.now && Windows.WindowShape(db'.quizzes[q], db'.now)
    requires Windows.AllHarmless(db.attempts, q, db'.quizzes[q])
    ensures Safe(db', q)
  {
    forall i | 0 <= i < |db.attempts| && db.attempts[i].quiz == q
      ensures Windows.RowIn(Windows.FindsHarmless, db'.quizzes[q], db.attempts[i], db.now)
    {
      assert RowPending(plan, n, i, db.attempts[i], db.now);
    }
  }

  lemma OwnerStep(rules: TextRules, db: DB, act: Action, q: QuizId, n: nat, plan: Quiz)
    requires Pending(db, q, n, plan) && ByOwner(act) && StepCareful(Windows.FindsHarmless, db, act, q)
    ensures StillOne(Apply(rules, db, act), q, n, plan)
  {
    var db' := Apply(rules, db, act);
    OwnerMoves(rules, db, act, q);
    if db'.quizzes[q] == db.quizzes[q] {
      QuietKeeps(db, db', q, n, plan);
    } else {
      LeavingIsSafe(db, db', q, n, plan);
    }
  }

  lemma SweepStep(db: DB, q: QuizId)
    requires q < |db.quizzes| && Windows.Opening(db.quizzes[q].status) && Windows.WindowShape(db.quizzes[q], db.now)
    ensures var z := SweepQuizzes(db).quizzes[q];
            && Windows.WindowShape(z, db.now)
            && (z.status == Closed || z == db.quizzes[q].(status := z.status))
            && (z.status == Closed || Windows.Opening(z.status))
  {
  }

  lemma {:induction false} QuietStep(rules: TextRules, db: DB, act: Action, q: QuizId, n: nat, plan: Quiz)
    requires Pending(db, q, n, plan)
    requires ByStudents(act) || ByModerators(act) || ByWorker(act)
    ensures Pending(Apply(rules, db, act), q, n, plan)
  {
    ActionSettles(rules, db, act);
    ApplyMoves(rules, db, act);
    MovesKeepSlots(rules, db, Apply(rules, db, act).attempts);
    assert Windows.SameWindow(db.quizzes[q], Apply(rules, db, act).quizzes[q]);
    QuietKeeps(db, Apply(rules, db, act), q, n, plan);
  }

  lemma {:induction false} PendingStep(rules: TextRules, db: DB, act: Action, q: QuizId, n: nat, plan: Quiz)
    requires Pending(db, q, n, plan) && StepCareful(Windows.FindsHarmless, db, act, q)
    ensures StillOne(Apply(rules, db, act), q, n, plan)
  {
    var db' := Apply(rules, db, act);
    if ByStudents(act) || ByModerators(act) || ByWorker(act) {
      QuietStep(rules, db, act, q, n, plan);
    } else if ByOwner(act) {
      OwnerStep(rules, db, act, q, n, plan);
    } else {
      match act
      case Tick(_) => QuietKeeps(db, db', q, n, plan);
      case Starts(actor, p) => StartStep(db, actor, p, q, n, plan);
      case Extends(actor, p, newEndsAt) => ExtendStep(db, actor, p, newEndsAt, q, n, plan);
      case SweepsQuizzes =>
        SweepStep(db, q);
        if db'.quizzes[q].status == Closed {
          LeavingIsSafe(db, db', q, n, plan);
        } else {
          QuietKeeps(db, db', q, n, plan);
        }
    }
  }

  lemma StartStep(db: DB, actor: Actor, p: QuizId, q: QuizId, n: nat, plan: Quiz)
    requires Pending(db, q, n, plan)
    ensures Pending(Start(db, actor, p).db, q, n, plan)
  {
    if Start(db, actor, p).out.Began? {
      if p == q {
        StartKeeps(db, actor, q, n, plan);
      } else {
        StartElsewhereKeeps(db, actor, p, q, n, plan);
      }
    }
  }

  lemma ExtendStep(db: DB, actor: Actor, p: QuizId, newEndsAt: Time, q: QuizId, n: nat, plan: Quiz)
    requires Pending(db, q, n, plan)
    ensures StillOne(Extend(db, actor, p, newEndsAt).db, q, n, plan)
  {
    var db' := Extend(db, actor, p, newEndsAt).db;
    if Extend(db, actor, p, newEndsAt).out.Done? {
      if p == q {
        ExtendSettles(db, actor, q, newEndsAt, n, plan);
      } else {
        ExtendElsewhereKeeps(db, actor, p, newEndsAt, q, n, plan);
      }
    }
  }

  lemma {:induction false} ExtendElsewhereKeeps(db: DB, actor: Actor, p: QuizId, newEndsAt: Time, q: QuizId, n: nat,
                                                plan: Quiz)
    requires Pending(db, q, n, plan) && Extend(db, actor, p, newEndsAt).out.Done? && p != q
    ensures Pending(Extend(db, actor, p, newEndsAt).db, q, n, plan)
  {
    var db' := Extend(db, actor, p, newEndsAt).db;
    forall i, j | 0 <= i < j < |db.attempts|
      ensures PairOk(plan, n, i, db'.attempts[i], j, db'.attempts[j], q)
      ensures db'.attempts[i].quiz == q ==> !Windows.BothOpen(db'.attempts[i], db'.attempts[j], db'.now)
    {
      assert PairOk(plan, n, i, db.attempts[i], j, db.attempts[j], q);
      if db.attempts[i].quiz == q {
        assert !Windows.BothOpen(db.attempts[i], db.attempts[j], db.now);
      }
    }
    forall i | 0 <= i < |db.attempts|
      ensures db'.attempts[i].quiz == q ==> RowPending(plan, n, i, db'.attempts[i], db'.now)
      ensures i < n ==> Blocked(plan, db'.attempts, q, i)
    {
      LostGrows(db.attempts, db'.attempts, q, db.attempts[i].student);
      assert i < n ==> Blocked(plan, db.attempts, q, i);
    }
  }

  // ----- Whole runs -----

  /** What every state of a careful run has, and a publish can start from. */
  predicate Sound(db: DB, q: QuizId) {
    && Windows.OneOpen(db.attempts, q, db.now) && AllClean(db.attempts, q)
    && forall i | 0 <= i < |db.attempts| && db.attempts[i].quiz == q :: db.attempts[i].startedAt <= db.now
  }

  lemma PublishedIsPending(db: DB, actor: Actor, q: QuizId, input: PublishInput)
    requires Sound(db, q) && Publish(db, actor, q, input).out.Done?
    requires !CanMakeTwo(Published(db.quizzes[q], input), db.attempts, q)
    ensures Pending(Publish(db, actor, q, input).db, q, |db.attempts|, Published(db.quizzes[q], input))
  {
    var plan := Published(db.quizzes[q], input);
    forall i | 0 <= i < |db.attempts|
      ensures Blocked(plan, db.attempts, q, i)
    {
      assert !Revivable(plan, db.attempts, q, i);
    }
    forall i, j | 0 <= i < j < |db.attempts|
      ensures PairOk(plan, |db.attempts|, i, db.attempts[i], j, db.attempts[j], q)
    {
      assert !Overlap(plan, db.attempts[i], db.attempts[j], q);
    }
  }

  /** A publish of q that succeeds can give no student two unexpired attempts. */
  predicate StepMakesOne(db: DB, act: Action, q: QuizId) {
    act.Publishes? && act.q == q && Publish(db, act.actor, q, act.input).out.Done? ==>
      !CanMakeTwo(Published(db.quizzes[q], act.input), db.attempts, q)
  }

  predicate OneCareful(rules: TextRules, db: DB, run: seq<Action>, q: QuizId) {
    run == [] ||
    (OneCareful(rules, db, run[..|run| - 1], q) && StepMakesOne(Exec(rules, db, run[..|run| - 1]), run[|run| - 1], q))
  }

  lemma {:induction false} NoPublishIsOneCareful(rules: TextRules, db: DB, run: seq<Action>, q: QuizId)
    requires NoPublish(run)
    ensures OneCareful(rules, db, run, q)
  {
    if run != [] {
      NoPublishIsOneCareful(rules, db, run[..|run| - 1], q);
    }
  }

  ghost predicate SomePending(db: DB, q: QuizId) {
    exists n: nat, plan: Quiz :: Pending(db, q, n, plan)
  }

  ghost predicate Single(db: DB, q: QuizId) {
    if q >= |db.quizzes| then Windows.NoAttempts(db.attempts, q)
    else AllClean(db.attempts, q) && (Safe(db, q) || SomePending(db, q))
  }

  lemma SingleIsSound(db: DB, q: QuizId)
    requires Single(db, q)
    ensures Sound(db, q)
  {
    if q < |db.quizzes| {
      if Safe(db, q) {
        forall i | 0 <= i < |db.attempts| && db.attempts[i].quiz == q
          ensures db.attempts[i].startedAt <= db.now
        {
          assert Windows.RowIn(Windows.FindsHarmless, db.quizzes[q], db.attempts[i], db.now);
        }
      } else {
        var n: nat, plan: Quiz :| Pending(db, q, n, plan);
        forall i | 0 <= i < |db.attempts| && db.attempts[i].quiz == q
          ensures db.attempts[i].startedAt <= db.now
        {
          assert RowPending(plan, n, i, db.attempts[i], db.now);
        }
      }
    }
  }

  lemma {:induction false} CleanKept(rules: TextRules, db: DB, act: Action, q: QuizId)
    requires AllClean(db.attempts, q)
    ensures AllClean(Apply(rules, db, act).attempts, q)
  {
    var after := Apply(rules, db, act).attempts;
    ApplyMoves(rules, db, act);
    MovesKeepSlots(rules, db, after);
    forall k | 0 <= k < |after| && after[k].quiz == q
      ensures Clean(after[k])
    {
      if k < |db.attempts| {
        assert SlotKept(db.attempts[k], after[k]);
      } else {
        assert JustStarted(db, after[k]);
      }
    }
  }

  predicate PublishesIt(db: DB, act: Action, q: QuizId) {
    act.Publishes? && act.q == q && Publish(db, act.actor, q, act.input).out.Done?
  }

  lemma OtherStepKeeps(rules: TextRules, db: DB, act: Action, q: QuizId)
    requires q < |db.quizzes| && !PublishesIt(db, act, q) && (Safe(db, q) || SomePending(db, q))
    ensures var db' := Apply(rules, db, act); Safe(db', q) || SomePending(db', q)
  {
    if Safe(db, q) {
      ApplyKeepsWindow(Windows.FindsHarmless, rules, db, act, q);
      ApplyKeepsVersions(rules, db, act);
    } else {
      var n: nat, plan: Quiz :| Pending(db, q, n, plan);
      PendingStep(rules, db, act, q, n, plan);
    }
  }

  lemma UnknownStepKeeps(rules: TextRules, db: DB, act: Action, q: QuizId)
    requires q >= |db.quizzes| && Windows.NoAttempts(db.attempts, q)
    ensures Single(Apply(rules, db, act), q)
  {
    ApplyKeepsWindow(Windows.FindsHarmless, rules, db, act, q);
    CleanKept(rules, db, act, q);
  }

  lemma {:induction false} StepKeepsSingle(rules: TextRules, db: DB, act: Action, q: QuizId)
    requires Single(db, q) && StepMakesOne(db, act, q)
    ensures Single(Apply(rules, db, act), q)
  {
    if q >= |db.quizzes| {
      UnknownStepKeeps(rules, db, act, q);
    } else {
      CleanKept(rules, db, act, q);
      ApplyKeepsVersions(rules, db, act);
      if PublishesIt(db, act, q) {
        SingleIsSound(db, q);
        PublishedIsPending(db, act.actor, q, act.input);
      } else {
        OtherStepKeeps(rules, db, act, q);
      }
    }
  }

  lemma {:induction false} SingleKept(rules: TextRules, db: DB, run: seq<Action>, q: QuizId)
    requires Single(db, q) && OneCareful(rules, db, run, q)
    ensures Single(Exec(rules, db, run), q)
  {
    if run != [] {
      SingleKept(rules, db, run[..|run| - 1], q);
      StepKeepsSingle(rules, Exec(rules, db, run[..|run| - 1]), run[|run| - 1], q);
    }
  }

  /** On every run whose publishes of q can give nobody two: no student of q ever has two unexpired attempts. */
  lemma OneOpenAlways(rules: TextRules, now: Time, run: seq<Action>, q: QuizId)
    requires OneCareful(rules, Empty(now), run, q)
    ensures Sound(Exec(rules, Empty(now), run), q)
  {
    SingleKept(rules, Empty(now), run, q);
    SingleIsSound(Exec(rules, Empty(now), run), q);
  }

  /** A window that harms no running attempt can make no two of them. */
  lemma HarmlessCannotMakeTwo(db: DB, actor: Actor, q: QuizId, input: PublishInput)
    requires Sound(db, q) && Publish(db, actor, q, input).out.Done?
    requires Windows.Finds(Windows.FindsHarmless, db, q, input)
    ensures !CanMakeTwo(Published(db.quizzes[q], input), db.attempts, q)
  {
    var plan := Published(db.quizzes[q], input);
    forall i, j | 0 <= i < j < |db.attempts|
      ensures !Overlap(plan, db.attempts[i], db.attempts[j], q)
    {
      if db.attempts[i].quiz == q && db.attempts[j].quiz == q {
        assert Windows.Harmless(plan, db.attempts[i]) && Windows.Harmless(plan, db.attempts[j]);
        assert !Windows.BothOpen(db.attempts[i], db.attempts[j], db.now);
      }
    }
    forall i | 0 <= i < |db.attempts|
      ensures !Revivable(plan, db.attempts, q, i)
    {
      assert db.attempts[i].quiz == q ==> Windows.Harmless(plan, db.attempts[i]);
    }
  }

  /** So runs whose publishes harm no running attempt are among these. */
  lemma {:induction false} HarmlessIsOneCareful(rules: TextRules, now: Time, run: seq<Action>, q: QuizId)
    requires Careful(Windows.FindsHarmless, rules, Empty(now), run, q)
    ensures OneCareful(rules, Empty(now), run, q)
  {
    if run != [] {
      var before, last := Exec(rules, Empty(now), run[..|run| - 1]), run[|run| - 1];
      HarmlessIsOneCareful(rules, now, run[..|run| - 1], q);
      OneOpenAlways(rules, now, run[..|run| - 1], q);
      if PublishesIt(before, last, q) {
        HarmlessCannotMakeTwo(before, last.actor, q, last.input);
      }
    }
  }

  // ----- Two attempts found, both with budget past the start -----

  ghost predicate OneAt(rules: TextRules, db: DB, run: seq<Action>, q: QuizId) {
    var db' := Exec(rules, db, run); Windows.OneOpen(db'.attempts, q, db'.now)
  }

  /** Whatever careful run follows, no student has two unexpired attempts on q at its end. */
  ghost predicate OneOpenFrom(rules: TextRules, db: DB, q: QuizId) {
    forall run: seq<Action> | OneCareful(rules, db, run, q) :: OneAt(rules, db, run, q)
  }

  /** The window opens and is extended at once. */
  lemma ExtensionRevivesBoth(db: DB, actor: Actor, q: QuizId, input: PublishInput, i: nat, j: nat)
    requires Publish(db, actor, q, input).out.Done? && i < j < |db.attempts|
    requires Overlap(Published(db.quizzes[q], input), db.attempts[i], db.attempts[j], q)
    ensures var later := Publish(db, actor, q, input).db.(now := input.startsAt);
            var after := Extend(later, actor, q, input.endsAt + 1).db;
            && after.now == input.startsAt && j < |after.attempts| && after.attempts[i].quiz == q
            && Windows.BothOpen(after.attempts[i], after.attempts[j], after.now)
  {
    var later := Publish(db, actor, q, input).db.(now := input.startsAt);
    assert later.quizzes[q] == Published(db.quizzes[q], input) && EffectiveStatus(later.quizzes[q], later.now) == Live;
    assert Extend(later, actor, q, input.endsAt + 1).out.Done?;
  }

  lemma {:induction false} ThenTwo(rules: TextRules, db: DB, first: seq<Action>, rest: seq<Action>, q: QuizId)
    requires NoPublish(first) && NoPublish(rest) && !OneAt(rules, Exec(rules, db, first), rest, q)
    ensures !OneOpenFrom(rules, db, q)
  {
    ExecConcat(rules, db, first, rest);
    NoPublishIsOneCareful(rules, db, first + rest, q);
    assert !OneAt(rules, db, first + rest, q);
  }

  lemma TwoAtTheEnd(rules: TextRules, db: DB, run: seq<Action>, q: QuizId, i: nat, j: nat)
    requires var db' := Exec(rules, db, run);
             i < j < |db'.attempts| && db'.attempts[i].quiz == q
             && Windows.BothOpen(db'.attempts[i], db'.attempts[j], db'.now)
    ensures !OneAt(rules, db, run, q)
  {
  }

  lemma {:induction false} BothAtTheEnd(rules: TextRules, db: DB, actor: Actor, q: QuizId, input: PublishInput,
                                        i: nat, j: nat)
    requires Publish(db, actor, q, input).out.Done? && i < j < |db.attempts|
    requires Overlap(Published(db.quizzes[q], input), db.attempts[i], db.attempts[j], q)
    ensures !OneOpenFrom(rules, Publish(db, actor, q, input).db, q)
  {
    var published, elapsed := Publish(db, actor, q, input).db, input.startsAt - db.now;
    ExtensionRevivesBoth(db, actor, q, input, i, j);
    Rescheduling.WaitThenExtend(rules, published, elapsed, actor, q, input.endsAt + 1);
    var run := [Tick(elapsed)] + [Extends(actor, q, input.endsAt + 1)];
    TwoAtTheEnd(rules, published, run, q, i, j);
    NoPublishIsOneCareful(rules, published, run, q);
  }

  lemma {:induction false} OverlapMakesTwo(rules: TextRules, db: DB, actor: Actor, q: QuizId, input: PublishInput)
    requires Publish(db, actor, q, input).out.Done?
    requires HasOverlap(Published(db.quizzes[q], input), db.attempts, q)
    ensures !OneOpenFrom(rules, Publish(db, actor, q, input).db, q)
  {
    var i, j :| 0 <= i < j < |db.attempts|
                && Overlap(Published(db.quizzes[q], input), db.attempts[i], db.attempts[j], q);
    BothAtTheEnd(rules, db, actor, q, input, i, j);
  }

  // ----- One attempt found, and another started beside it -----

  /** Every other attempt of the student is ended, and its slot granted again where that is possible. */
  function FreesSlots(attempts: seq<Attempt>, actor: Actor, q: QuizId, i: nat, n: nat): seq<Action>
    requires i < |attempts| && n <= |attempts|
  {
    if n == 0 then []
    else
      FreesSlots(attempts, actor, q, i, n - 1) + FreesOne(attempts, actor, q, i, n - 1)
  }

  predicate Freed(before: Attempt, after: Attempt) {
    && Same(after, before.quiz, before.student) && !after.status.InProgress?
    && (Spent(after) <==> Spent(before)) && (Spent(after) || after.readmittedAt.Some?)
  }

  predicate FreedUpTo(before: seq<Attempt>, after: seq<Attempt>, q: QuizId, i: nat, n: nat)
    requires i < |before|
  {
    && |after| == |before|
    && forall k | 0 <= k < |before| ::
         if k < n && k != i && Same(before[k], q, before[i].student) then Freed(before[k], after[k])
         else after[k] == before[k]
  }

  lemma KickThenReadmit(db: DB, actor: Actor, a: AttemptId)
    requires Moderates(actor, db, a) && Clean(db.attempts[a])
    ensures var db' := Readmit(Kick(db, actor, a, "").db, actor, a).db;
            && db'.now == db.now && db'.quizzes == db.quizzes && |db'.attempts| == |db.attempts|
            && Freed(db.attempts[a], db'.attempts[a])
            && forall k | 0 <= k < |db.attempts| && k != a :: db'.attempts[k] == db.attempts[k]
  {
  }

  function FreesOne(attempts: seq<Attempt>, actor: Actor, q: QuizId, i: nat, m: nat): seq<Action>
    requires i < |attempts| && m < |attempts|
  {
    if m != i && Same(attempts[m], q, attempts[i].student) then [Kicks(actor, m, ""), Readmits(actor, m)] else []
  }

  /** All that the freeing has changed, up to attempt n. */
  predicate FreedState(db: DB, db': DB, q: QuizId, i: nat, n: nat)
    requires i < |db.attempts|
  {
    db'.now == db.now && db'.quizzes == db.quizzes && FreedUpTo(db.attempts, db'.attempts, q, i, n)
  }

  lemma OneFreed(rules: TextRules, db: DB, mid: DB, actor: Actor, q: QuizId, i: nat, m: nat)
    requires i < |db.attempts| && m < |db.attempts| && FreedState(db, mid, q, i, m)
    requires Edits(actor, db, q) && AllClean(db.attempts, q)
    ensures FreedState(db, Exec(rules, mid, FreesOne(db.attempts, actor, q, i, m)), q, i, m + 1)
  {
    if m != i && Same(db.attempts[m], q, db.attempts[i].student) {
      ExecShort(rules, mid, Kicks(actor, m, ""), Readmits(actor, m));
      KickThenReadmit(mid, actor, m);
    }
  }

  lemma {:induction false} FreeingPublishesNothing(attempts: seq<Attempt>, actor: Actor, q: QuizId, i: nat, n: nat)
    requires i < |attempts| && n <= |attempts|
    ensures NoPublish(FreesSlots(attempts, actor, q, i, n))
  {
    if n > 0 {
      FreeingPublishesNothing(attempts, actor, q, i, n - 1);
    }
  }

  lemma {:induction false} FreesSnoc(rules: TextRules, db: DB, actor: Actor, q: QuizId, i: nat, m: nat)
    requires i < |db.attempts| && m < |db.attempts|
    ensures Exec(rules, db, FreesSlots(db.attempts, actor, q, i, m + 1))
         == Exec(rules, Exec(rules, db, FreesSlots(db.attempts, actor, q, i, m)), FreesOne(db.attempts, actor, q, i, m))
  {
    ExecConcat(rules, db, FreesSlots(db.attempts, actor, q, i, m), FreesOne(db.attempts, actor, q, i, m));
  }

  lemma {:induction false} SlotsFreed(rules: TextRules, db: DB, actor: Actor, q: QuizId, i: nat, n: nat)
    requires Edits(actor, db, q) && i < |db.attempts| && n <= |db.attempts| && AllClean(db.attempts, q)
    ensures FreedState(db, Exec(rules, db, FreesSlots(db.attempts, actor, q, i, n)), q, i, n)
  {
    if n > 0 {
      SlotsFreed(rules, db, actor, q, i, n - 1);
      OneFreed(rules, db, Exec(rules, db, FreesSlots(db.attempts, actor, q, i, n - 1)), actor, q, i, n - 1);
      FreesSnoc(rules, db, actor, q, i, n - 1);
    }
  }

  lemma {:induction false} FreedCounts(before: seq<Attempt>, after: seq<Attempt>, q: QuizId, s: UserId)
    requires |before| == |after| && forall k | 0 <= k < |before| && Same(before[k], q, s) :: Freed(before[k], after[k])
    requires forall k | 0 <= k < |before| && !Same(before[k], q, s) :: after[k] == before[k]
    ensures Lost(after, q, s) == Lost(before, q, s)
    ensures Used(after, q, s) == Lost(after, q, s) + Granted(after, q, s)
  {
    if before != [] {
      FreedCounts(before[..|before| - 1], after[..|after| - 1], q, s);
    }
  }

  lemma {:induction false} FreedCountsBut(before: seq<Attempt>, after: seq<Attempt>, q: QuizId, s: UserId, i: nat)
    requires i < |before| == |after| && Running(before[i], q) && before[i].student == s && Clean(before[i])
    requires after[i] == before[i]
    requires forall k | 0 <= k < |before| && k != i && Same(before[k], q, s) :: Freed(before[k], after[k])
    requires forall k | 0 <= k < |before| && !Same(before[k], q, s) :: after[k] == before[k]
    ensures Lost(after, q, s) == Lost(before, q, s)
    ensures Used(after, q, s) == Lost(after, q, s) + Granted(after, q, s) + 1
  {
    var n := |before| - 1;
    if i < n {
      FreedCountsBut(before[..n], after[..n], q, s, i);
    } else {
      FreedCounts(before[..n], after[..n], q, s);
    }
  }

  /** The attempt's student, as a caller. */
  function Taker(row: Attempt): Actor {
    Actor(row.student, Student, true)
  }

  /** When the attempt has expired and the window is open. */
  function Meanwhile(row: Attempt, startsAt: Time): Time {
    if row.deadlineAt < startsAt then startsAt else row.deadlineAt
  }

  /** Attempt i expires in the window with budget left, no other attempt of its student is running, and a
      slot is free. */
  predicate ReadyBeside(db: DB, q: QuizId, i: nat) {
    && q < |db.quizzes| && i < |db.attempts| && Running(db.attempts[i], q)
    && var z, row := db.quizzes[q], db.attempts[i];
       && z.status == Scheduled && z.startsAt.Some? && z.endsAt.Some? && z.durationSec > 0
       && db.now < z.startsAt.value < z.endsAt.value
       && row.deadlineAt < z.endsAt.value && Windows.Budget(z, row) > Meanwhile(row, z.startsAt.value)
       && Used(db.attempts, q, row.student) < z.maxAttempts + Granted(db.attempts, q, row.student)
       && forall k | 0 <= k < |db.attempts| && k != i && Same(db.attempts[k], q, row.student) ::
            !db.attempts[k].status.InProgress?
  }

  /** The student, once assigned, starts beside the expired attempt, and an extension revives that. */
  lemma StartBeside(db: DB, actor: Actor, q: QuizId, i: nat)
    requires ReadyBeside(db, q, i) && Edits(actor, db, q) && db.attempts[i].student in db.quizzes[q].audience
    ensures var z, n := db.quizzes[q], |db.attempts|;
            var begun := Start(db.(now := Meanwhile(db.attempts[i], z.startsAt.value)), Taker(db.attempts[i]), q).db;
            var after := Extend(begun, actor, q, z.endsAt.value + 1).db;
            && n < |after.attempts| && after.attempts[i].quiz == q
            && Windows.BothOpen(after.attempts[i], after.attempts[n], after.now)
  {
    var z, row := db.quizzes[q], db.attempts[i];
    var nowLive := db.(now := Meanwhile(row, z.startsAt.value));
    Windows.NoOpenAttempt(nowLive.attempts, q, row.student, nowLive.now);
    var begun := Start(nowLive, Taker(row), q);
    assert begun.out.Began?;
    assert EffectiveStatus(z, nowLive.now) == Live;
    assert Extend(begun.db, actor, q, z.endsAt.value + 1).out.Done?;
  }

  /** What follows the freeing of slots. */
  function StartsBeside(z: Quiz, row: Attempt, actor: Actor, q: QuizId, now: Time): seq<Action>
    requires z.startsAt.Some? && z.endsAt.Some? && now < z.startsAt.value
  {
    [Assigns(actor, q, z.audience + {row.student}), Tick(Meanwhile(row, z.startsAt.value) - now)]
    + [Starts(Taker(row), q), Extends(actor, q, z.endsAt.value + 1)]
  }

  lemma AssignsTaker(db: DB, actor: Actor, q: QuizId, s: UserId)
    requires Edits(actor, db, q) && EffectiveStatus(db.quizzes[q], db.now) == Scheduled
    ensures SetAssignments(db, actor, q, db.quizzes[q].audience + {s}).db.attempts == db.attempts
    ensures SetAssignments(db, actor, q, db.quizzes[q].audience + {s}).db.now == db.now
    ensures SetAssignments(db, actor, q, db.quizzes[q].audience + {s}).db.quizzes
         == db.quizzes[q := db.quizzes[q].(audience := db.quizzes[q].audience + {s})]
  {
    assert s in db.quizzes[q].audience + {s};
  }

  lemma JoinedIsReady(db: DB, actor: Actor, q: QuizId, i: nat)
    requires ReadyBeside(db, q, i) && Edits(actor, db, q)
    ensures var joined := SetAssignments(db, actor, q, db.quizzes[q].audience + {db.attempts[i].student}).db;
            && joined.attempts == db.attempts && joined.now == db.now
            && ReadyBeside(joined, q, i) && Edits(actor, joined, q)
            && joined.quizzes[q].startsAt == db.quizzes[q].startsAt && joined.quizzes[q].endsAt == db.quizzes[q].endsAt
            && joined.attempts[i].student in joined.quizzes[q].audience
  {
    AssignsTaker(db, actor, q, db.attempts[i].student);
  }

  lemma AssignThenWait(rules: TextRules, db: DB, actor: Actor, q: QuizId, students: set<UserId>, elapsed: nat)
    ensures var joined := SetAssignments(db, actor, q, students).db;
            Exec(rules, db, [Assigns(actor, q, students), Tick(elapsed)]) == joined.(now := joined.now + elapsed)
  {
    ExecShort(rules, db, Assigns(actor, q, students), Tick(elapsed));
  }

  lemma StartThenExtend(rules: TextRules, db: DB, taker: Actor, actor: Actor, q: QuizId, newEndsAt: Time,
                        i: nat, j: nat)
    requires var after := Extend(Start(db, taker, q).db, actor, q, newEndsAt).db;
             i < j < |after.attempts| && after.attempts[i].quiz == q
             && Windows.BothOpen(after.attempts[i], after.attempts[j], after.now)
    ensures !OneAt(rules, db, [Starts(taker, q), Extends(actor, q, newEndsAt)], q)
  {
    ExecShort(rules, db, Starts(taker, q), Extends(actor, q, newEndsAt));
  }

  lemma OneAtConcat(rules: TextRules, db: DB, first: seq<Action>, rest: seq<Action>, q: QuizId)
    requires !OneAt(rules, Exec(rules, db, first), rest, q)
    ensures !OneAt(rules, db, first + rest, q)
  {
    ExecConcat(rules, db, first, rest);
  }

  /** From the moment the attempt has expired and the window is open. */
  lemma {:induction false} BesideFromThen(rules: TextRules, joined: DB, actor: Actor, q: QuizId, i: nat)
    requires ReadyBeside(joined, q, i) && Edits(actor, joined, q)
    requires joined.attempts[i].student in joined.quizzes[q].audience
    ensures var z, row := joined.quizzes[q], joined.attempts[i];
            !OneAt(rules, joined.(now := Meanwhile(row, z.startsAt.value)),
                   [Starts(Taker(row), q), Extends(actor, q, z.endsAt.value + 1)], q)
  {
    var z, row := joined.quizzes[q], joined.attempts[i];
    var nowLive := joined.(now := Meanwhile(row, z.startsAt.value));
    StartBeside(joined, actor, q, i);
    StartThenExtend(rules, nowLive, Taker(row), actor, q, z.endsAt.value + 1, i, |joined.attempts|);
  }

  lemma {:induction false} BesideAtTheEnd(rules: TextRules, db: DB, actor: Actor, q: QuizId, i: nat)
    requires ReadyBeside(db, q, i) && Edits(actor, db, q)
    ensures !OneAt(rules, db, StartsBeside(db.quizzes[q], db.attempts[i], actor, q, db.now), q)
  {
    var z, row := db.quizzes[q], db.attempts[i];
    var students, elapsed := z.audience + {row.student}, Meanwhile(row, z.startsAt.value) - db.now;
    JoinedIsReady(db, actor, q, i);
    BesideFromThen(rules, SetAssignments(db, actor, q, students).db, actor, q, i);
    AssignThenWait(rules, db, actor, q, students, elapsed);
    OneAtConcat(rules, db, [Assigns(actor, q, students), Tick(elapsed)],
                [Starts(Taker(row), q), Extends(actor, q, z.endsAt.value + 1)], q);
  }

  lemma FreedIsReady(db: DB, freed: DB, actor: Actor, q: QuizId, input: PublishInput, i: nat)
    requires Publish(db, actor, q, input).out.Done? && i < |db.attempts|
    requires Revivable(Published(db.quizzes[q], input), db.attempts, q, i) && Clean(db.attempts[i])
    requires freed.now == db.now && freed.quizzes == Publish(db, actor, q, input).db.quizzes
    requires FreedUpTo(db.attempts, freed.attempts, q, i, |db.attempts|)
    ensures ReadyBeside(freed, q, i) && Edits(actor, freed, q)
  {
    FreedCountsBut(db.attempts, freed.attempts, q, db.attempts[i].student, i);
    assert freed.quizzes[q] == Published(db.quizzes[q], input);
  }

  lemma {:induction false} RevivableMakesTwo(rules: TextRules, db: DB, actor: Actor, q: QuizId, input: PublishInput,
                                             i: nat)
    requires Publish(db, actor, q, input).out.Done? && i < |db.attempts|
    requires Revivable(Published(db.quizzes[q], input), db.attempts, q, i)
    requires AllClean(db.attempts, q)
    ensures !OneOpenFrom(rules, Publish(db, actor, q, input).db, q)
  {
    var published := Publish(db, actor, q, input).db;
    var frees := FreesSlots(db.attempts, actor, q, i, |db.attempts|);
    SlotsFreed(rules, published, actor, q, i, |db.attempts|);
    FreeingPublishesNothing(db.attempts, actor, q, i, |db.attempts|);
    var freed := Exec(rules, published, frees);
    FreedIsReady(db, freed, actor, q, input, i);
    var besides := StartsBeside(freed.quizzes[q], freed.attempts[i], actor, q, freed.now);
    BesideAtTheEnd(rules, freed, actor, q, i);
    ThenTwo(rules, published, frees, besides, q);
  }

  lemma {:induction false} NeitherThenOne(rules: TextRules, db: DB, actor: Actor, q: QuizId, input: PublishInput)
    requires Sound(db, q) && Publish(db, actor, q, input).out.Done?
    requires !CanMakeTwo(Published(db.quizzes[q], input), db.attempts, q)
    ensures OneOpenFrom(rules, Publish(db, actor, q, input).db, q)
  {
    var published := Publish(db, actor, q, input).db;
    PublishedIsPending(db, actor, q, input);
    assert SomePending(published, q) && published.attempts == db.attempts;
    forall run: seq<Action> | OneCareful(rules, published, run, q)
      ensures OneAt(rules, published, run, q)
    {
      SingleKept(rules, published, run, q);
      SingleIsSound(Exec(rules, published, run), q);
    }
  }

  /** After a publish, no careful run ever gives a student two unexpired attempts on the quiz exactly when
      the new window overlaps no two running attempts and can revive none beside a new one. */
  lemma OneOpenFromIff(rules: TextRules, db: DB, actor: Actor, q: QuizId, input: PublishInput)
    requires Sound(db, q) && Publish(db, actor, q, input).out.Done?
    ensures OneOpenFrom(rules, Publish(db, actor, q, input).db, q)
       <==> !CanMakeTwo(Published(db.quizzes[q], input), db.attempts, q)
  {
    var plan := Published(db.quizzes[q], input);
    if HasOverlap(plan, db.attempts, q) {
      OverlapMakesTwo(rules, db, actor, q, input);
    } else if HasRevivable(plan, db.attempts, q) {
      var i :| 0 <= i < |db.attempts| && Revivable(plan, db.attempts, q, i);
      RevivableMakesTwo(rules, db, actor, q, input, i);
    } else {
      NeitherThenOne(rules, db, actor, q, input);
    }
  }
}
