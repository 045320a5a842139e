/** Deadlines and attempt numbers: what holds of the window of one quiz and the attempts inside it. Every
    transaction keeps it but a publish, which moves a window under whatever attempts it finds. */
module Windows {
  import opened Common
  import opened Schema
  import opened Transactions

  // ----- The invariant -----

  predicate Opening(status: QuizStatus) {
    status == Scheduled || status == Live
  }

  predicate WindowShape(z: Quiz, now: Time) {
    && (Opening(z.status) ==> z.startsAt.Some? && z.endsAt.Some? && z.startsAt.value < z.endsAt.value)
    && (z.status == Live ==> z.startsAt.value <= now)
  }

  predicate ShapesOk(db: DB) {
    forall q | 0 <= q < |db.quizzes| :: WindowShape(db.quizzes[q], db.now)
  }

  /** A draft, or scheduled and short of its start. */
  predicate Unopened(z: Quiz, now: Time) {
    z.status == Draft || (z.status == Scheduled && !Passed(z.startsAt, now))
  }

  /** When the student's own time is up. */
  function Budget(z: Quiz, row: Attempt): Time {
    row.startedAt + z.durationSec * SECOND
  }

  /** The window leaves a running attempt what it was promised: its deadline is within the budget and the
      end, and short of the budget only if the end is what holds it back. One microsecond of slack, since
      an extension moves the end by at least that much. */
  predicate Harmless(z: Quiz, row: Attempt) {
    row.status.InProgress? && Opening(z.status) ==>
      && z.endsAt.Some? && row.deadlineAt <= Budget(z, row) && row.deadlineAt <= z.endsAt.value + 1
      && (row.deadlineAt == Budget(z, row) || row.deadlineAt >= z.endsAt.value)
  }

  /** A running attempt is on a quiz that has opened; while that is scheduled or live, its deadline is the
      personal budget clamped to the window. */
  predicate Underway(z: Quiz, row: Attempt, now: Time) {
    row.status.InProgress? ==>
      && !Unopened(z, now)
      && (Opening(z.status) ==>
            z.endsAt.Some? && row.deadlineAt == Deadline(row.startedAt, z.durationSec, z.endsAt.value))
  }

  /** What is assumed of the attempts that a successful publish of the quiz finds on it: that the new
      window harms none of those running, that none is running, or that there is none. */
  datatype Care = FindsHarmless | FindsNoneRunning | FindsNoAttempt

  predicate RowIn(care: Care, z: Quiz, row: Attempt, now: Time) {
    && row.startedAt <= now
    && match care
       case FindsHarmless => Harmless(z, row)
       case FindsNoneRunning => Underway(z, row, now)
       case FindsNoAttempt => Underway(z, row, now) && !Unopened(z, now)
  }

  predicate BothOpen(a: Attempt, b: Attempt, now: Time) {
    Open(a, a.quiz, a.student, now) && Open(b, a.quiz, a.student, now)
  }

  /** At most one unexpired in-progress attempt per student of the quiz. */
  predicate OneOpen(attempts: seq<Attempt>, q: QuizId, now: Time) {
    forall i, j | 0 <= i < j < |attempts| && attempts[i].quiz == q :: !BothOpen(attempts[i], attempts[j], now)
  }

  predicate NoAttempts(attempts: seq<Attempt>, q: QuizId) {
    forall i | 0 <= i < |attempts| :: attempts[i].quiz != q
  }

  predicate RowsIn(care: Care, attempts: seq<Attempt>, q: QuizId, z: Quiz, now: Time) {
    forall i | 0 <= i < |attempts| && attempts[i].quiz == q :: RowIn(care, z, attempts[i], now)
  }

  predicate WindowOk(care: Care, db: DB, q: QuizId) {
    if q >= |db.quizzes| then NoAttempts(db.attempts, q)
    else
      && WindowShape(db.quizzes[q], db.now)
      && RowsIn(care, db.attempts, q, db.quizzes[q], db.now)
      && OneOpen(db.attempts, q, db.now)
  }

  /** Attempt numbers count up from 1 per quiz and student. */
  predicate Numbered(attempts: seq<Attempt>) {
    forall i | 0 <= i < |attempts| ::
      attempts[i].no == Used(attempts[..i], attempts[i].quiz, attempts[i].student) + 1
  }

  // ----- Counting queries -----

  /** How one row may move in any transaction but a start or an extension. */
  predicate Settles(before: Attempt, after: Attempt) {
    && after.quiz == before.quiz && after.student == before.student && after.no == before.no
    && after.version == before.version && after.startedAt == before.startedAt && after.deadlineAt == before.deadlineAt
    && (after.status.InProgress? ==> before.status.InProgress?)
    && (before.readmittedAt.Some? ==> after.readmittedAt.Some?)
  }

  /** The same, except that the deadline may move. */
  predicate SameIdentity(before: Attempt, after: Attempt) {
    && after.quiz == before.quiz && after.student == before.student && after.no == before.no
    && (before.readmittedAt.Some? ==> after.readmittedAt.Some?)
  }

  lemma {:induction false} CountsSettle(before: seq<Attempt>, after: seq<Attempt>, q: QuizId, s: UserId)
    requires |before| == |after| && forall i | 0 <= i < |before| :: SameIdentity(before[i], after[i])
    ensures Used(after, q, s) == Used(before, q, s)
    ensures Granted(after, q, s) >= Granted(before, q, s)
  {
    if before != [] {
      var n := |before| - 1;
      assert SameIdentity(before[n], after[n]);
      CountsSettle(before[..n], after[..n], q, s);
    }
  }

  lemma NumbersSettle(before: seq<Attempt>, after: seq<Attempt>)
    requires Numbered(before)
    requires |before| == |after| && forall i | 0 <= i < |before| :: SameIdentity(before[i], after[i])
    ensures Numbered(after)
  {
    forall i | 0 <= i < |after|
      ensures after[i].no == Used(after[..i], after[i].quiz, after[i].student) + 1
    {
      assert SameIdentity(before[i], after[i]);
      CountsSettle(before[..i], after[..i], after[i].quiz, after[i].student);
    }
  }

  lemma {:induction false} NoneUsed(attempts: seq<Attempt>, q: QuizId, s: UserId)
    requires forall i | 0 <= i < |attempts| :: attempts[i].quiz != q
    ensures Used(attempts, q, s) == 0
  {
    if attempts != [] {
      NoneUsed(attempts[..|attempts| - 1], q, s);
    }
  }

  /** max(attempt_no) equals count(*) because the numbers are dense. */
  lemma {:induction false} LastNoIsUsed(attempts: seq<Attempt>, q: QuizId, s: UserId)
    requires Numbered(attempts)
    ensures LastNo(attempts, q, s) == Used(attempts, q, s)
  {
    if attempts != [] {
      var n := |attempts| - 1;
      forall i | 0 <= i < n
        ensures attempts[..n][i].no == Used(attempts[..n][..i], attempts[i].quiz, attempts[i].student) + 1
      {
        assert attempts[..n][..i] == attempts[..i];
      }
      LastNoIsUsed(attempts[..n], q, s);
    }
  }

  lemma {:induction false} NoOpenAttempt(attempts: seq<Attempt>, q: QuizId, s: UserId, now: Time)
    ensures OpenAttempt(attempts, q, s, now).None? <==> forall i | 0 <= i < |attempts| :: !Open(attempts[i], q, s, now)
    ensures OpenAttempt(attempts, q, s, now).Some? ==>
              var a := OpenAttempt(attempts, q, s, now).value;
              a < |attempts| && Open(attempts[a], q, s, now)
  {
    if attempts != [] {
      var n := |attempts| - 1;
      NoOpenAttempt(attempts[..n], q, s, now);
      assert forall i | 0 <= i < n :: attempts[..n][i] == attempts[i];
    }
  }

  // ----- Frames -----

  predicate SameWindow(z: Quiz, z': Quiz) {
    && z'.status == z.status && z'.startsAt == z.startsAt && z'.endsAt == z.endsAt
    && z'.durationSec == z.durationSec && z'.maxAttempts == z.maxAttempts
  }

  lemma RowSettles(care: Care, z: Quiz, z': Quiz, before: Attempt, after: Attempt, now: Time)
    requires SameWindow(z, z') && Settles(before, after) && RowIn(care, z, before, now)
    ensures RowIn(care, z', after, now)
  {
  }

  /** Transactions that only settle attempts, and leave the window as it was. */
  lemma {:induction false} SettlingKeeps(care: Care, db: DB, db': DB, q: QuizId)
    requires WindowOk(care, db, q) && db'.now == db.now
    requires |db'.attempts| == |db.attempts| && |db'.quizzes| == |db.quizzes|
    requires forall i | 0 <= i < |db.attempts| :: Settles(db.attempts[i], db'.attempts[i])
    requires q < |db.quizzes| ==> SameWindow(db.quizzes[q], db'.quizzes[q])
    ensures WindowOk(care, db', q)
  {
    forall i | 0 <= i < |db.attempts|
      ensures db'.attempts[i].quiz == db.attempts[i].quiz
      ensures q < |db.quizzes| && db.attempts[i].quiz == q ==> RowIn(care, db'.quizzes[q], db'.attempts[i], db.now)
    {
      assert Settles(db.attempts[i], db'.attempts[i]);
      if q < |db.quizzes| && db.attempts[i].quiz == q {
        RowSettles(care, db.quizzes[q], db'.quizzes[q], db.attempts[i], db'.attempts[i], db.now);
      }
    }
    if q < |db.quizzes| {
      forall i, j | 0 <= i < j < |db.attempts| && db'.attempts[i].quiz == q
        ensures !BothOpen(db'.attempts[i], db'.attempts[j], db.now)
      {
        assert Settles(db.attempts[i], db'.attempts[i]) && Settles(db.attempts[j], db'.attempts[j]);
        assert !BothOpen(db.attempts[i], db.attempts[j], db.now);
      }
    }
  }

  /** A quiz may move, with its attempts in place, to any window that has them all in it. */
  predicate WindowMoves(care: Care, db: DB, q: QuizId, z': Quiz) {
    WindowShape(z', db.now) && RowsIn(care, db.attempts, q, z', db.now)
  }

  lemma QuizMovesKeeps(care: Care, db: DB, db': DB, q: QuizId)
    requires WindowOk(care, db, q) && q < |db.quizzes| == |db'.quizzes|
    requires db'.now == db.now && db'.attempts == db.attempts && WindowMoves(care, db, q, db'.quizzes[q])
    ensures WindowOk(care, db', q)
  {
  }

  // ----- One lemma per transaction that is not a mere settling -----

  lemma {:induction false} TickKeeps(care: Care, db: DB, now: Time, q: QuizId)
    requires WindowOk(care, db, q) && db.now <= now
    ensures WindowOk(care, db.(now := now), q)
  {
    if q < |db.quizzes| {
      forall i, j | 0 <= i < j < |db.attempts| && db.attempts[i].quiz == q
        ensures !BothOpen(db.attempts[i], db.attempts[j], now)
      {
        assert !BothOpen(db.attempts[i], db.attempts[j], db.now);
      }
    }
  }

  lemma NewRowIn(care: Care, z: Quiz, row: Attempt, now: Time)
    requires InWindow(z, now) && row.startedAt == now && row.status.InProgress?
    requires row.deadlineAt == Deadline(now, z.durationSec, z.endsAt.value)
    ensures RowIn(care, z, row, now)
  {
  }

  lemma {:induction false} StartKeeps(care: Care, db: DB, actor: Actor, p: QuizId, q: QuizId)
    requires WindowOk(care, db, q)
    ensures WindowOk(care, Start(db, actor, p).db, q)
  {
    var db' := Start(db, actor, p).db;
    if Start(db, actor, p).out.Began? {
      var n, row := |db.attempts|, db'.attempts[|db.attempts|];
      assert db'.attempts == db.attempts + [row];
      if p == q {
        NewRowIn(care, db.quizzes[q], row, db.now);
        NoOpenAttempt(db.attempts, q, actor.id, db.now);
      }
    }
  }

  /** A scheduled quiz that has not reached its start, or a draft, has no attempts; none running, at
      least, where publishes were only known to find none running. */
  lemma UpcomingIsEmpty(care: Care, db: DB, q: QuizId)
    requires WindowOk(care, db, q) && q < |db.quizzes| && Unopened(db.quizzes[q], db.now)
    ensures care.FindsNoAttempt? ==> NoAttempts(db.attempts, q)
    ensures !care.FindsHarmless? ==> NoneRunning(db.attempts, q)
  {
  }

  predicate NoneRunning(attempts: seq<Attempt>, q: QuizId) {
    forall i | 0 <= i < |attempts| && attempts[i].quiz == q :: !attempts[i].status.InProgress?
  }

  predicate AllHarmless(attempts: seq<Attempt>, q: QuizId, z: Quiz) {
    forall i | 0 <= i < |attempts| && attempts[i].quiz == q :: Harmless(z, attempts[i])
  }

  /** The assumption itself, on the state a publish finds and the window it is about to set. */
  predicate Finds(care: Care, db: DB, q: QuizId, input: PublishInput)
    requires q < |db.quizzes|
  {
    match care
    case FindsHarmless => AllHarmless(db.attempts, q, Published(db.quizzes[q], input))
    case FindsNoneRunning => NoneRunning(db.attempts, q)
    case FindsNoAttempt => NoAttempts(db.attempts, q)
  }

  lemma PublishKeepsIff(care: Care, db: DB, actor: Actor, q: QuizId, input: PublishInput)
    requires WindowOk(care, db, q) && Publish(db, actor, q, input).out.Done?
    ensures WindowOk(care, Publish(db, actor, q, input).db, q) <==> Finds(care, db, q, input)
  {
    var db' := Publish(db, actor, q, input).db;
    if Finds(care, db, q, input) {
      QuizMovesKeeps(care, db, db', q);
    } else {
      var z := db'.quizzes[q];
      var i :| 0 <= i < |db.attempts| && db.attempts[i].quiz == q
               && match care
                  case FindsHarmless => !Harmless(z, db.attempts[i])
                  case FindsNoneRunning => db.attempts[i].status.InProgress?
                  case FindsNoAttempt => true;
      assert !RowIn(care, z, db'.attempts[i], db'.now);
    }
  }

  lemma CancelKeeps(care: Care, db: DB, actor: Actor, q: QuizId)
    requires WindowOk(care, db, q)
    ensures WindowOk(care, Cancel(db, actor, q).db, q)
  {
    if Edits(actor, db, q) && db.quizzes[q].status == Scheduled && !Passed(db.quizzes[q].startsAt, db.now) {
      UpcomingIsEmpty(care, db, q);
      QuizMovesKeeps(care, db, Cancel(db, actor, q).db, q);
    }
  }

  /** Closing, archiving and releasing free every attempt of its deadline equation. */
  lemma {:induction false} EndingKeeps(care: Care, db: DB, actor: Actor, q: QuizId)
    requires WindowOk(care, db, q)
    ensures WindowOk(care, ForceClose(db, actor, q).db, q)
    ensures WindowOk(care, Archive(db, actor, q).db, q)
    ensures WindowOk(care, ReleaseResults(db, actor, q).db, q)
  {
    if q < |db.quizzes| {
      ClosedTakesAnyRow(care, db, q, ForceClose(db, actor, q).db);
      ClosedTakesAnyRow(care, db, q, Archive(db, actor, q).db);
      ClosedTakesAnyRow(care, db, q, ReleaseResults(db, actor, q).db);
    }
  }

  lemma ClosedTakesAnyRow(care: Care, db: DB, q: QuizId, db': DB)
    requires WindowOk(care, db, q) && q < |db.quizzes| == |db'.quizzes|
    requires db'.attempts == db.attempts && db'.now == db.now
    requires Terminal(db'.quizzes[q].status) || db'.quizzes[q] == db.quizzes[q]
    ensures WindowOk(care, db', q)
  {
  }

  lemma SweepQuizzesKeeps(care: Care, db: DB, q: QuizId)
    requires WindowOk(care, db, q)
    ensures WindowOk(care, SweepQuizzes(db), q)
  {
    if q < |db.quizzes| {
      QuizMovesKeeps(care, db, SweepQuizzes(db), q);
    }
  }

  // ----- Extension -----

  /** Extending a window never moves a deadline earlier and never brings an expired attempt back. */
  lemma ExtendOnlyHelpsOpenAttempts(care: Care, db: DB, actor: Actor, q: QuizId, newEndsAt: Time, i: AttemptId)
    requires WindowOk(care, db, q) && Extend(db, actor, q, newEndsAt).out.Done? && i < |db.attempts|
    ensures var row, row' := db.attempts[i], Extend(db, actor, q, newEndsAt).db.attempts[i];
            && row'.deadlineAt >= row.deadlineAt
            && (row.deadlineAt <= db.now ==> row'.deadlineAt == row.deadlineAt)
            && row' == row.(deadlineAt := row'.deadlineAt)
  {
  }

  lemma {:induction false} ExtendKeeps(care: Care, db: DB, actor: Actor, p: QuizId, newEndsAt: Time, q: QuizId)
    requires WindowOk(care, db, q)
    ensures WindowOk(care, Extend(db, actor, p, newEndsAt).db, q)
  {
    var db' := Extend(db, actor, p, newEndsAt).db;
    if q < |db.quizzes| && Extend(db, actor, p, newEndsAt).out.Done? {
      forall i | 0 <= i < |db.attempts| && db.attempts[i].quiz == q
        ensures RowIn(care, db'.quizzes[q], db'.attempts[i], db.now)
        ensures db'.attempts[i].deadlineAt > db.now ==> db.attempts[i].deadlineAt > db.now
      {
        assert RowIn(care, db.quizzes[q], db.attempts[i], db.now);
        if p == q {
          ExtendOnlyHelpsOpenAttempts(care, db, actor, q, newEndsAt, i);
        }
      }
      forall i, j | 0 <= i < j < |db.attempts| && db'.attempts[i].quiz == q
        ensures !BothOpen(db'.attempts[i], db'.attempts[j], db.now)
      {
        assert !BothOpen(db.attempts[i], db.attempts[j], db.now);
      }
    }
  }
}
