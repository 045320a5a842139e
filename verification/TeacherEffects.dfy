/** What each call of a teacher or moderator does, in full: the answer given and exactly when, the rows it
    leaves, its audit row and everything it leaves alone (server/internal/attempt/service.go:586-768,
    server/internal/quiz/lifecycle.go, server/internal/quiz/results.go:48-92). */
module TeacherEffects {
  import opened Common
  import opened Grading
  import opened Schema
  import opened Transactions
  import StudentEffects

  // ----- Moderation -----

  /** An active administrator, or the active teacher who owns the attempt's quiz. */
  predicate Judges(db: DB, actor: Actor, a: AttemptId) {
    && a < |db.attempts| && db.attempts[a].quiz < |db.quizzes| && actor.active
    && (actor.role == Admin || (actor.role == Teacher && db.quizzes[db.attempts[a].quiz].owner == actor.id))
  }

  predicate Audits(db: DB, db': DB, actor: Actor, action: AuditAction) {
    db'.audit == db.audit + [AuditRow(actor.id, action)]
  }

  /** A kick ends a running attempt, of whoever it is, with its kind, time and moderator; on any other it
      changes nothing. */
  lemma KickEffect(db: DB, actor: Actor, a: AttemptId, reason: string)
    ensures var step := Kick(db, actor, a, reason);
            if Judges(db, actor, a) && db.attempts[a].status == InProgress then
              && step.out == Done && Audits(db, step.db, actor, AttemptKicked(a))
              && StudentEffects.Rewrites(db, step.db, a,
                                         db.attempts[a].(status := Kicked, kind := Some(ByKick),
                                                         submittedAt := Some(db.now), kickedBy := Some(actor.id)),
                                         [KickedEvent(actor.id, reason)])
            else
              step.db == db && step.out == if Judges(db, actor, a) then Done else Refused(NotFound)
  {
    if Judges(db, actor, a) {
      StudentEffects.WithAttemptRewrites(db, a, KickedRow(db.attempts[a], actor.id, db.now),
                                         [KickedEvent(actor.id, reason)]);
    }
  }

  /** A readmission marks a kicked attempt, once, and appends no event. */
  lemma ReadmitEffect(db: DB, actor: Actor, a: AttemptId)
    ensures var step := Readmit(db, actor, a);
            if Judges(db, actor, a) && db.attempts[a].status == Kicked && db.attempts[a].readmittedAt == None then
              && step.out == Done && Audits(db, step.db, actor, AttemptReadmitted(a))
              && StudentEffects.Rewrites(db, step.db, a, db.attempts[a].(readmittedAt := Some(db.now)), [])
            else
              && step.db == db
              && step.out == if !Judges(db, actor, a) then Refused(NotFound)
                             else if db.attempts[a].status == Kicked then Done else Refused(NotKicked)
  {
    if Judges(db, actor, a) {
      StudentEffects.WithAttemptRewrites(db, a, db.attempts[a].(readmittedAt := Some(db.now)), []);
    }
  }

  /** An override sets the score of a graded, kicked attempt to zero, once, and appends no event. */
  lemma OverrideScoreEffect(db: DB, actor: Actor, a: AttemptId)
    ensures var step := OverrideScore(db, actor, a);
            if Judges(db, actor, a) && db.attempts[a].kind == Some(ByKick) && db.attempts[a].status == Graded
               && db.attempts[a].overriddenAt == None then
              && step.out == Done && Audits(db, step.db, actor, ScoreOverridden(a))
              && StudentEffects.Rewrites(db, step.db, a,
                                         db.attempts[a].(score := Some(0.0), overriddenAt := Some(db.now)), [])
            else
              && step.db == db
              && step.out == if !Judges(db, actor, a) then Refused(NotFound)
                             else if db.attempts[a].kind != Some(ByKick) then Refused(NotKicked)
                             else if db.attempts[a].status != Graded then Refused(NotGraded) else Done
  {
    if Judges(db, actor, a) {
      StudentEffects.WithAttemptRewrites(db, a, db.attempts[a].(score := Some(0.0), overriddenAt := Some(db.now)), []);
    }
  }

  /** The gateway logs its three connection events, and writes nothing else. */
  lemma LogConnectivityEffect(db: DB, a: AttemptId, e: Event)
    ensures var db' := LogConnectivity(db, a, e).db;
            if a < |db.attempts| && (e == SessionInvalidated || e.Disconnected? || e == Reconnected)
            then StudentEffects.Rewrites(db, db', a, db.attempts[a], [e]) && db'.audit == db.audit
            else db' == db
  {
    if a < |db.attempts| {
      StudentEffects.WithAttemptRewrites(db, a, db.attempts[a], [e]);
    }
  }

  // ----- Quizzes -----

  /** The active teacher who owns the quiz. */
  predicate Teaches(db: DB, actor: Actor, q: QuizId) {
    q < |db.quizzes| && actor.active && actor.role == Teacher && db.quizzes[q].owner == actor.id
  }

  /** Quiz q gets this row, and the audit trail one row; nothing else is touched. */
  predicate Resets(db: DB, db': DB, actor: Actor, q: QuizId, z: Quiz, action: AuditAction) {
    && q < |db.quizzes| == |db'.quizzes| && db'.quizzes[q] == z
    && (forall p | 0 <= p < |db.quizzes| && p != q :: db'.quizzes[p] == db.quizzes[p])
    && db'.attempts == db.attempts && db'.log == db.log && db'.now == db.now && Audits(db, db', actor, action)
  }

  predicate EndReached(z: Quiz, now: Time) {
    z.endsAt.Some? && now >= z.endsAt.value
  }

  /** Live as every reader sees it: in its window, whatever the stored status says of it so far. */
  predicate ReadsLive(z: Quiz, now: Time) {
    && !EndReached(z, now)
    && (z.status == Live || (z.status == Scheduled && z.startsAt.Some? && now >= z.startsAt.value))
  }

  /** Over as every reader sees it. */
  predicate ReadsOver(z: Quiz, now: Time) {
    || z.status == Closed || z.status == Archived
    || ((z.status == Scheduled || z.status == Live) && EndReached(z, now))
  }

  lemma ReadStatus(z: Quiz, now: Time)
    ensures EffectiveStatus(z, now) == Live <==> ReadsLive(z, now)
    ensures EffectiveStatus(z, now) == Closed || EffectiveStatus(z, now) == Archived <==> ReadsOver(z, now)
    ensures EffectiveStatus(z, now) == Archived <==> z.status == Archived
    ensures EffectiveStatus(z, now) == Draft <==> z.status == Draft
  {
  }

  predicate InputFits(input: PublishInput, now: Time) {
    && now < input.startsAt < input.endsAt && 30 <= input.durationSec <= 24 * 60 * 60
    && 1 <= input.guardrails.maxViolations <= 100
  }

  /** A published question is its draft, with its own marks where it has them and the quiz's where not. */
  predicate Copies(d: DraftQuestion, z: Quiz, published: Question) {
    && published.id == d.id && published.kind == d.kind && published.correct == d.correct
    && (d.points.Some? ==> published.points == d.points.value)
    && (d.points.None? ==> published.points == z.defaultPoints)
    && (d.penalty.Some? ==> published.penalty == d.penalty.value)
    && (d.penalty.None? ==> published.penalty == z.defaultPenalty)
  }

  /** The version a publish writes: the draft question by question, and the guardrails it was given. */
  predicate SnapshotOf(z: Quiz, input: PublishInput, v: Snapshot) {
    && v.guardrails == input.guardrails && |v.questions| == |z.questions|
    && forall i | 0 <= i < |z.questions| :: Copies(z.questions[i], z, v.questions[i])
  }

  /** A publish of a draft or of a stored schedule, with something to ask and somebody to ask, schedules the
      quiz in the given window and appends one version, the draft as it stands. */
  lemma PublishEffect(db: DB, actor: Actor, q: QuizId, input: PublishInput)
    ensures var step := Publish(db, actor, q, input);
            if InputFits(input, db.now) && Teaches(db, actor, q)
               && (db.quizzes[q].status == Draft || db.quizzes[q].status == Scheduled)
               && db.quizzes[q].questions != [] && db.quizzes[q].audience != {} then
              var z, n := db.quizzes[q], |db.quizzes[q].versions|;
              && step.out == Done && q < |step.db.quizzes|
              && var z' := step.db.quizzes[q];
                 && |z'.versions| == n + 1 && z'.versions[..n] == z.versions && SnapshotOf(z, input, z'.versions[n])
                 && Resets(db, step.db, actor, q,
                           z.(status := Scheduled, startsAt := Some(input.startsAt), endsAt := Some(input.endsAt),
                              durationSec := input.durationSec, releasePolicy := input.policy,
                              versions := z'.versions), QuizPublished(q))
            else
              && step.db == db
              && step.out == if !InputFits(input, db.now) then Refused(Invalid)
                             else if !Teaches(db, actor, q) then Refused(NotFound)
                             else if db.quizzes[q].status == Draft || db.quizzes[q].status == Scheduled
                             then Refused(Precondition) else Refused(NotEditable)
  {
  }

  /** A cancel returns a stored schedule that has not reached its start to draft. */
  lemma CancelEffect(db: DB, actor: Actor, q: QuizId)
    ensures var step := Cancel(db, actor, q);
            if Teaches(db, actor, q) && db.quizzes[q].status == Scheduled
               && db.quizzes[q].startsAt.Some? && db.now < db.quizzes[q].startsAt.value then
              && step.out == Done
              && Resets(db, step.db, actor, q,
                        db.quizzes[q].(status := Draft, startsAt := None, endsAt := None), QuizCancelled(q))
            else
              && step.db == db
              && step.out == if !Teaches(db, actor, q) then Refused(NotFound)
                             else if db.quizzes[q].status == Draft then Done else Refused(NotCancellable)
  {
  }

  /** A force-close ends a scheduled or live quiz at this moment. */
  lemma ForceCloseEffect(db: DB, actor: Actor, q: QuizId)
    ensures var step := ForceClose(db, actor, q);
            if Teaches(db, actor, q) && (db.quizzes[q].status == Scheduled || db.quizzes[q].status == Live) then
              && step.out == Done
              && Resets(db, step.db, actor, q, db.quizzes[q].(status := Closed, endsAt := Some(db.now)),
                         QuizForceClosed(q))
            else
              && step.db == db
              && step.out == if !Teaches(db, actor, q) then Refused(NotFound)
                             else if db.quizzes[q].status == Draft then Refused(NotClosable) else Done
  {
  }

  /** An archive takes a stored closed quiz, and only that. */
  lemma ArchiveEffect(db: DB, actor: Actor, q: QuizId)
    ensures var step := Archive(db, actor, q);
            if Teaches(db, actor, q) && db.quizzes[q].status == Closed then
              step.out == Done && Resets(db, step.db, actor, q, db.quizzes[q].(status := Archived), QuizArchived(q))
            else
              && step.db == db
              && step.out == if !Teaches(db, actor, q) then Refused(NotFound)
                             else if db.quizzes[q].status == Archived then Done else Refused(NotArchivable)
  {
  }

  /** The sooner of the two, without saying which. */
  predicate IsSooner(t: Time, x: Time, y: Time) {
    t <= x && t <= y && (t == x || t == y)
  }

  /** An extension moves the end of a live quiz later, and with it the deadline of every attempt running on
      the quiz: the student's own time or the new end, whichever is sooner. */
  lemma ExtendEffect(db: DB, actor: Actor, q: QuizId, newEndsAt: Time)
    ensures var step := Extend(db, actor, q, newEndsAt);
            if db.now < newEndsAt && Teaches(db, actor, q) && ReadsLive(db.quizzes[q], db.now)
               && (db.quizzes[q].endsAt.Some? ==> db.quizzes[q].endsAt.value < newEndsAt) then
              && step.out == Done && |step.db.attempts| == |db.attempts|
              && Resets(db.(attempts := step.db.attempts), step.db, actor, q, db.quizzes[q].(endsAt := Some(newEndsAt)),
                        QuizExtended(q))
              && forall i | 0 <= i < |db.attempts| ::
                   var row, row' := db.attempts[i], step.db.attempts[i];
                   if row.quiz == q && row.status == InProgress
                   then && row' == row.(deadlineAt := row'.deadlineAt)
                        && IsSooner(row'.deadlineAt, row.startedAt + db.quizzes[q].durationSec * 1_000_000, newEndsAt)
                   else row' == row
            else
              && step.db == db
              && step.out == if newEndsAt <= db.now then Refused(Invalid)
                             else if !Teaches(db, actor, q) then Refused(NotFound)
                             else if !ReadsLive(db.quizzes[q], db.now) then Refused(NotExtendable)
                             else Refused(Precondition)
  {
  }

  predicate Strands(db: DB, q: QuizId, students: set<UserId>)
    requires q < |db.quizzes|
  {
    exists i | 0 <= i < |db.attempts| ::
      && db.attempts[i].quiz == q && db.attempts[i].status == InProgress
      && db.attempts[i].student in db.quizzes[q].audience && db.attempts[i].student !in students
  }

  /** A new audience is taken until the quiz is over; not an empty one while it is stored as scheduled, and
      while it is live not one that leaves out a student whose attempt is running. */
  lemma SetAssignmentsEffect(db: DB, actor: Actor, q: QuizId, students: set<UserId>)
    ensures var step := SetAssignments(db, actor, q, students);
            if Teaches(db, actor, q) && !ReadsOver(db.quizzes[q], db.now)
               && !(db.quizzes[q].status == Scheduled && students == {})
               && !(ReadsLive(db.quizzes[q], db.now) && Strands(db, q, students)) then
              && step.out == Done
              && Resets(db, step.db, actor, q, db.quizzes[q].(audience := students), AssignmentsSet(q))
            else
              && step.db == db
              && step.out == if !Teaches(db, actor, q) then Refused(NotFound)
                             else if ReadsOver(db.quizzes[q], db.now) then Refused(NotEditable)
                             else if db.quizzes[q].status == Scheduled && students == {} then Refused(Precondition)
                             else Refused(AssignmentInProgress)
  {
    if q < |db.quizzes| {
      ReadStatus(db.quizzes[q], db.now);
      var z := db.quizzes[q];
      assert Strands(db, q, students) <==> HasInProgress(db.attempts, q, z.audience - students) by {
        forall i | 0 <= i < |db.attempts|
          ensures db.attempts[i].student in z.audience - students
             <==> db.attempts[i].student in z.audience && db.attempts[i].student !in students
        {
        }
      }
    }
  }

  /** A release stamps a quiz that is over, once, and closes it if nobody has yet. */
  lemma ReleaseResultsEffect(db: DB, actor: Actor, q: QuizId)
    ensures var step := ReleaseResults(db, actor, q);
            if Teaches(db, actor, q) && db.quizzes[q].releasedAt == None && ReadsOver(db.quizzes[q], db.now) then
              && step.out == Done
              && Resets(db, step.db, actor, q,
                        db.quizzes[q].(status := if db.quizzes[q].status == Archived then Archived else Closed,
                                       releasedAt := Some(db.now)), ResultsReleased(q))
            else
              && step.db == db
              && step.out == if !Teaches(db, actor, q) then Refused(NotFound)
                             else if db.quizzes[q].releasedAt != None then Done else Refused(QuizNotClosed)
  {
    if q < |db.quizzes| {
      ReadStatus(db.quizzes[q], db.now);
    }
  }

  /** What an edit may store: marks a quiz can be graded with, and question ids that tell the questions apart. */
  predicate DraftFits(questions: seq<DraftQuestion>, maxAttempts: nat, points: real, penalty: real) {
    && points > 0.0 && penalty >= 0.0 && 1 <= maxAttempts <= 10
    && (forall i | 0 <= i < |questions| ::
          && (questions[i].points.Some? ==> questions[i].points.value > 0.0)
          && (questions[i].penalty.Some? ==> questions[i].penalty.value >= 0.0))
    && forall i, j | 0 <= i < j < |questions| :: questions[i].id != questions[j].id
  }

  /** An edit replaces the questions, the marks and the limit of a draft; nothing that has been scheduled can
      be edited. */
  lemma EditDraftEffect(db: DB, actor: Actor, q: QuizId, questions: seq<DraftQuestion>, maxAttempts: nat,
                        points: real, penalty: real)
    ensures var step := EditDraft(db, actor, q, questions, maxAttempts, points, penalty);
            if DraftFits(questions, maxAttempts, points, penalty) && Teaches(db, actor, q)
               && db.quizzes[q].status == Draft then
              && step.out == Done && step.db == db.(quizzes := step.db.quizzes) && |step.db.quizzes| == |db.quizzes|
              && (forall p | 0 <= p < |db.quizzes| && p != q :: step.db.quizzes[p] == db.quizzes[p])
              && step.db.quizzes[q] == db.quizzes[q].(questions := questions, maxAttempts := maxAttempts,
                                                      defaultPoints := points, defaultPenalty := penalty)
            else
              && step.db == db
              && step.out == if !DraftFits(questions, maxAttempts, points, penalty) then Refused(Invalid)
                             else if !Teaches(db, actor, q) then Refused(NotFound) else Refused(NotEditable)
  {
  }

  /** A new quiz is an empty draft of its teacher, with one attempt per student. */
  lemma CreateQuizEffect(db: DB, actor: Actor)
    ensures var step := CreateQuiz(db, actor);
            if actor.active && actor.role == Teacher then
              var n := |db.quizzes|;
              && step.out == Done && |step.db.quizzes| == n + 1 && step.db == db.(quizzes := step.db.quizzes)
              && step.db.quizzes[..n] == db.quizzes
              && var z := step.db.quizzes[n];
                 && z.owner == actor.id && z.status == Draft && z.maxAttempts == 1
                 && z.questions == [] && z.audience == {} && z.defaultPoints == 1.0 && z.defaultPenalty == 0.0
                 && z.startsAt == None && z.endsAt == None && z.versions == []
                 && z.releasePolicy == Automatic && z.releasedAt == None && z.stats == None
            else step.db == db && step.out == Refused(NotFound)
  {
  }
}
