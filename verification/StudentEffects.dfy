/** What each call of a student does, in full: the answer given, exactly when it is given, the row it leaves,
    the events it appends and everything it leaves alone (server/internal/attempt/service.go). */
module StudentEffects {
  import opened Common
  import opened Grading
  import opened Schema
  import opened Transactions
  import Json
  import RowsKept

  // ----- Rows and streams -----

  /** Attempt a gets this row and these events; every other row, stream and table is as it was. */
  ghost predicate Rewrites(db: DB, db': DB, a: AttemptId, row: Attempt, events: seq<Event>) {
    && a < |db.attempts| == |db'.attempts| && db'.attempts[a] == row
    && (forall b | 0 <= b < |db.attempts| && b != a :: db'.attempts[b] == db.attempts[b])
    && (forall b: AttemptId :: Of(db'.log, b) == Of(db.log, b) + if b == a then events else [])
    && db'.now == db.now && db'.quizzes == db.quizzes
  }

  lemma WithAttemptRewrites(db: DB, a: AttemptId, row: Attempt, events: seq<Event>)
    requires a < |db.attempts|
    ensures Rewrites(db, WithAttempt(db, a, row, events), a, row, events)
    ensures WithAttempt(db, a, row, events).audit == db.audit
  {
    forall b: AttemptId
      ensures Of(WithAttempt(db, a, row, events).log, b) == Of(db.log, b) + if b == a then events else []
    {
      RowsKept.WithAttemptLog(db, a, row, events, b);
      assert Of(db.log, b) + [] == Of(db.log, b);
    }
  }

  // ----- Starting -----

  predicate RunsFor(row: Attempt, q: QuizId, s: UserId, now: Time) {
    row.quiz == q && row.student == s && row.status == InProgress && row.deadlineAt > now
  }

  /** The student's own rows on the quiz, and those among them that were readmitted. */
  function OwnRows(attempts: seq<Attempt>, q: QuizId, s: UserId): set<nat> {
    set i | 0 <= i < |attempts| && attempts[i].quiz == q && attempts[i].student == s
  }

  function ReadmittedRows(attempts: seq<Attempt>, q: QuizId, s: UserId): set<nat> {
    set i | 0 <= i < |attempts| && attempts[i].quiz == q && attempts[i].student == s && attempts[i].readmittedAt.Some?
  }

  lemma {:induction false} UsedAreRows(attempts: seq<Attempt>, q: QuizId, s: UserId)
    ensures Used(attempts, q, s) == |OwnRows(attempts, q, s)|
  {
    if attempts != [] {
      var init, n := attempts[..|attempts| - 1], |attempts| - 1;
      UsedAreRows(init, q, s);
      assert OwnRows(attempts, q, s) == OwnRows(init, q, s) + if Same(attempts[n], q, s) then {n} else {};
    }
  }

  lemma {:induction false} GrantedAreRows(attempts: seq<Attempt>, q: QuizId, s: UserId)
    ensures Granted(attempts, q, s) == |ReadmittedRows(attempts, q, s)|
  {
    if attempts != [] {
      var init, n := attempts[..|attempts| - 1], |attempts| - 1;
      GrantedAreRows(init, q, s);
      assert ReadmittedRows(attempts, q, s)
          == ReadmittedRows(init, q, s)
             + if Same(attempts[n], q, s) && attempts[n].readmittedAt.Some? then {n} else {};
    }
  }

  lemma {:induction false} OpenIsNewest(attempts: seq<Attempt>, q: QuizId, s: UserId, now: Time)
    ensures match OpenAttempt(attempts, q, s, now)
            case None => forall i | 0 <= i < |attempts| :: !RunsFor(attempts[i], q, s, now)
            case Some(a) =>
              && a < |attempts| && RunsFor(attempts[a], q, s, now)
              && forall i | a < i < |attempts| :: !RunsFor(attempts[i], q, s, now)
  {
    if attempts != [] && !Open(attempts[|attempts| - 1], q, s, now) {
      OpenIsNewest(attempts[..|attempts| - 1], q, s, now);
      assert forall i | 0 <= i < |attempts| - 1 :: attempts[..|attempts| - 1][i] == attempts[i];
    }
  }

  predicate Visible(db: DB, actor: Actor, q: QuizId) {
    q < |db.quizzes| && actor.id in db.quizzes[q].audience && db.quizzes[q].status != Draft
  }

  predicate WindowOpen(z: Quiz, now: Time) {
    && (z.status == Scheduled || z.status == Live)
    && z.startsAt.Some? && z.endsAt.Some? && z.startsAt.value <= now < z.endsAt.value
  }

  predicate NoneRuns(db: DB, q: QuizId, s: UserId) {
    forall i | 0 <= i < |db.attempts| :: !RunsFor(db.attempts[i], q, s, db.now)
  }

  predicate NewestRuns(db: DB, q: QuizId, s: UserId, a: AttemptId) {
    && a < |db.attempts| && RunsFor(db.attempts[a], q, s, db.now)
    && forall i | a < i < |db.attempts| :: !RunsFor(db.attempts[i], q, s, db.now)
  }

  predicate SlotLeft(db: DB, q: QuizId, s: UserId)
    requires q < |db.quizzes|
  {
    |OwnRows(db.attempts, q, s)| < db.quizzes[q].maxAttempts + |ReadmittedRows(db.attempts, q, s)|
  }

  /** To an assigned student in the window: the newest running attempt is resumed and nothing is written;
      with none running an attempt begins exactly if a slot is left. Everybody else is refused. */
  lemma StartAnswers(db: DB, actor: Actor, q: QuizId)
    ensures var out := Start(db, actor, q).out;
            && (forall a :: out == Resumed(a) <==>
                  Visible(db, actor, q) && WindowOpen(db.quizzes[q], db.now) && NewestRuns(db, q, actor.id, a))
            && (out.Began? <==>
                  && Visible(db, actor, q) && WindowOpen(db.quizzes[q], db.now) && NoneRuns(db, q, actor.id)
                  && SlotLeft(db, q, actor.id))
            && (out == Refused(AttemptLimit) <==>
                  && Visible(db, actor, q) && WindowOpen(db.quizzes[q], db.now) && NoneRuns(db, q, actor.id)
                  && !SlotLeft(db, q, actor.id))
            && (out == Refused(QuizNotLive) <==> Visible(db, actor, q) && !WindowOpen(db.quizzes[q], db.now))
            && (out == Refused(NotFound) <==> !Visible(db, actor, q))
            && (!out.Began? ==> Start(db, actor, q).db == db)
  {
    OpenIsNewest(db.attempts, q, actor.id, db.now);
    UsedAreRows(db.attempts, q, actor.id);
    GrantedAreRows(db.attempts, q, actor.id);
    var open := OpenAttempt(db.attempts, q, actor.id, db.now);
    forall a | NewestRuns(db, q, actor.id, a)
      ensures open == Some(a)
    {
      assert open.Some? && !(a < open.value) && !(open.value < a);
    }
  }

  /** A new row: the student's own, at the current version, with the budget clamped to the window and
      nothing in it yet. */
  predicate FreshRow(z: Quiz, row: Attempt, q: QuizId, s: UserId, now: Time)
    requires z.endsAt.Some?
  {
    && row.quiz == q && row.student == s && row.version == |z.versions| && row.startedAt == now
    && row.deadlineAt <= now + z.durationSec * 1_000_000 && row.deadlineAt <= z.endsAt.value
    && (row.deadlineAt == now + z.durationSec * 1_000_000 || row.deadlineAt == z.endsAt.value)
    && row.status == InProgress && row.kind == None && row.submittedAt == None && row.violations == 0
    && row.question == None && row.score == None && row.answers == map[] && row.kickedBy == None
    && row.readmittedAt == None && row.overriddenAt == None
  }

  lemma StartBegins(db: DB, actor: Actor, q: QuizId)
    requires Start(db, actor, q).out.Began?
    ensures var db', n := Start(db, actor, q).db, |db.attempts|;
            && Start(db, actor, q).out == Began(n) && q < |db.quizzes| && db.quizzes[q].endsAt.Some?
            && |db'.attempts| == n + 1 && db'.attempts[..n] == db.attempts
            && FreshRow(db.quizzes[q], db'.attempts[n], q, actor.id, db.now)
            && (db.quizzes[q].versions != [] ==>
                  PinnedSnapshot(db'.quizzes, db'.attempts[n])
                  == Some(db.quizzes[q].versions[|db.quizzes[q].versions| - 1]))
            && (forall b: AttemptId :: Of(db'.log, b) == Of(db.log, b)
                  + if b == n then [Started(actor.id, db'.attempts[n].deadlineAt)] else [])
            && db'.now == db.now && db'.quizzes == db.quizzes && db'.audit == db.audit
  {
    var db', n := Start(db, actor, q).db, |db.attempts|;
    forall b: AttemptId
      ensures Of(db'.log, b) == Of(db.log, b)
                                + if b == n then [Started(actor.id, db'.attempts[n].deadlineAt)] else []
    {
      RowsKept.OfSnoc(db.log, Entry(n, Started(actor.id, db'.attempts[n].deadlineAt)), b);
      assert Of(db.log, b) + [] == Of(db.log, b);
    }
  }

  // ----- What a write of one's own meets -----

  predicate Mine(db: DB, actor: Actor, a: AttemptId) {
    a < |db.attempts| && db.attempts[a].student == actor.id
  }

  /** Five seconds of slack after the deadline. */
  predicate InGrace(db: DB, a: AttemptId)
    requires a < |db.attempts|
  {
    db.now <= db.attempts[a].deadlineAt + 5_000_000
  }

  // ----- Submitting -----

  /** A running attempt of one's own, by the deadline and its grace, becomes a manual submission, with its
      answers as they are and one event; one that has been submitted already stays as it is; anything else
      is refused, and writes nothing. */
  lemma SubmitManualEffect(db: DB, actor: Actor, a: AttemptId)
    ensures var step := SubmitManual(db, actor, a);
            if Mine(db, actor, a) && db.attempts[a].status == InProgress && InGrace(db, a) then
              var row := db.attempts[a];
              && step.out == Done && step.db.audit == db.audit
              && Rewrites(db, step.db, a,
                          row.(status := Submitted, kind := Some(ByStudent), submittedAt := Some(db.now)),
                          [SubmittedEvent(ByStudent, AnsweredCount(row.answers))])
            else
              && step.db == db
              && step.out == if !Mine(db, actor, a) then Refused(NotFound)
                             else if db.attempts[a].status == Kicked then Refused(WasKicked)
                             else if db.attempts[a].status == InProgress then Refused(DeadlinePassed)
                             else Done
  {
    if Mine(db, actor, a) {
      var row := db.attempts[a];
      WithAttemptRewrites(db, a, row.(status := Submitted, kind := Some(ByStudent), submittedAt := Some(db.now)),
                          [SubmittedEvent(ByStudent, AnsweredCount(row.answers))]);
    }
  }

  // ----- Saving -----

  predicate Asks(db: DB, row: Attempt, id: QuestionId, k: nat) {
    && PinnedSnapshot(db.quizzes, row).Some?
    && var qs := PinnedSnapshot(db.quizzes, row).value.questions;
       1 <= k <= |qs| && qs[k - 1].id == id && forall j | k <= j < |qs| :: qs[j].id != id
  }

  lemma {:induction false} OrdinalIsPlace(qs: seq<Question>, id: QuestionId)
    ensures match Ordinal(qs, id)
            case None => forall j | 0 <= j < |qs| :: qs[j].id != id
            case Some(k) => 1 <= k <= |qs| && qs[k - 1].id == id && forall j | k <= j < |qs| :: qs[j].id != id
  {
    if qs != [] && qs[|qs| - 1].id != id {
      OrdinalIsPlace(qs[..|qs| - 1], id);
      assert forall j | 0 <= j < |qs| - 1 :: qs[..|qs| - 1][j] == qs[j];
    }
  }

  ghost predicate AsksAtAll(db: DB, row: Attempt, id: QuestionId) {
    exists k: nat :: Asks(db, row, id, k)
  }

  lemma AsksIsOrdinal(db: DB, row: Attempt, id: QuestionId)
    ensures AsksAtAll(db, row, id) <==> SnapshotOrdinal(db, row, id).Some?
    ensures SnapshotOrdinal(db, row, id).Some? ==> Asks(db, row, id, SnapshotOrdinal(db, row, id).value)
  {
    if PinnedSnapshot(db.quizzes, row).Some? {
      var qs := PinnedSnapshot(db.quizzes, row).value.questions;
      OrdinalIsPlace(qs, id);
      if Ordinal(qs, id).Some? {
        assert Asks(db, row, id, Ordinal(qs, id).value);
      }
    }
  }

  lemma SaveAnswers(db: DB, actor: Actor, a: AttemptId, id: QuestionId, response: Json.Value, timeSpentMs: nat)
    ensures var step := SaveAnswer(db, actor, a, id, response, timeSpentMs);
            && (step.out == Done <==>
                  && Mine(db, actor, a) && db.attempts[a].status == InProgress && InGrace(db, a)
                  && AsksAtAll(db, db.attempts[a], id))
            && (step.out == Done
                || (step.db == db
                    && step.out == if !Mine(db, actor, a) then Refused(NotFound)
                                   else if db.attempts[a].status == Kicked then Refused(WasKicked)
                                   else if db.attempts[a].status != InProgress then Refused(AlreadySubmitted)
                                   else if !InGrace(db, a) then Refused(DeadlinePassed) else Refused(NotFound)))
  {
    if Mine(db, actor, a) {
      AsksIsOrdinal(db, db.attempts[a], id);
    }
  }

  /** The response on record is the one just sent, none for a null; every other answer stays. */
  predicate SavedIn(before: Answers, after: Answers, id: QuestionId, response: Json.Value, timeSpentMs: nat,
                    now: Time) {
    && after.Keys == before.Keys + {id}
    && (forall other | other in before && other != id :: after[other] == before[other])
    && after[id].response == (if response.Null? then None else Some(response))
    && after[id].timeSpentMs == timeSpentMs && after[id].savedAt == now
    && after[id].isCorrect == (if id in before then before[id].isCorrect else None)
    && after[id].pointsAwarded == (if id in before then before[id].pointsAwarded else None)
  }

  predicate HasResponse(answers: Answers, id: QuestionId) {
    id in answers && answers[id].response.Some?
  }

  lemma AnsweredSplit(answers: Answers, id: QuestionId)
    ensures AnsweredCount(answers) == |AnsweredIds(answers) - {id}| + if HasResponse(answers, id) then 1 else 0
  {
    if HasResponse(answers, id) {
      assert AnsweredIds(answers) == (AnsweredIds(answers) - {id}) + {id};
    } else {
      assert AnsweredIds(answers) == AnsweredIds(answers) - {id};
    }
  }

  lemma OthersAnswered(before: Answers, after: Answers, id: QuestionId)
    requires after.Keys == before.Keys + {id}
    requires forall other | other in before && other != id :: after[other] == before[other]
    ensures AnsweredIds(after) - {id} == AnsweredIds(before) - {id}
  {
    forall x
      ensures x in AnsweredIds(after) - {id} <==> x in AnsweredIds(before) - {id}
    {
      assert x in after.Keys <==> x in before.Keys || x == id;
    }
  }

  /** One save changes the answered count by what it does to its own question. */
  lemma AnsweredMoves(before: Answers, after: Answers, id: QuestionId, response: Json.Value, timeSpentMs: nat,
                      now: Time)
    requires SavedIn(before, after, id, response, timeSpentMs, now)
    ensures AnsweredCount(after) == AnsweredCount(before) + (if response.Null? then 0 else 1)
                                    - (if HasResponse(before, id) then 1 else 0)
  {
    AnsweredSplit(before, id);
    AnsweredSplit(after, id);
    OthersAnswered(before, after, id);
  }

  lemma NothingAnswered()
    ensures AnsweredCount(map[]) == 0
  {
    assert AnsweredIds(map[]) == {};
  }

  lemma SaveAnswerEffect(db: DB, actor: Actor, a: AttemptId, id: QuestionId, response: Json.Value, timeSpentMs: nat)
    requires SaveAnswer(db, actor, a, id, response, timeSpentMs).out == Done
    ensures var db' := SaveAnswer(db, actor, a, id, response, timeSpentMs).db;
            && a < |db.attempts| == |db'.attempts|
            && var row, row' := db.attempts[a], db'.attempts[a];
               && SavedIn(row.answers, row'.answers, id, response, timeSpentMs, db.now)
               && row'.question.Some? && Asks(db, row, id, row'.question.value)
               && Rewrites(db, db', a, row.(answers := row'.answers, question := row'.question),
                           [Progress(row'.question.value, AnsweredCount(row'.answers))])
               && AnsweredCount(row'.answers) == AnsweredCount(row.answers) + (if response.Null? then 0 else 1)
                                                 - (if HasResponse(row.answers, id) then 1 else 0)
               && db'.audit == db.audit
  {
    var db' := SaveAnswer(db, actor, a, id, response, timeSpentMs).db;
    var row, row' := db.attempts[a], db'.attempts[a];
    AsksIsOrdinal(db, row, id);
    AnsweredMoves(row.answers, row'.answers, id, response, timeSpentMs, db.now);
    WithAttemptRewrites(db, a, row', [Progress(row'.question.value, AnsweredCount(row'.answers))]);
  }

  // ----- Reporting a violation -----

  /** Which setting decides which report: full screen and focus their own, the clipboard its block. */
  predicate Counts(g: Guardrails, v: ViolationType) {
    (v == Fullscreen && g.fullscreen == Count) || (v == Focus && g.focusTracking == Count)
  }

  predicate OnlyWarns(g: Guardrails, v: ViolationType) {
    || (v == Fullscreen && g.fullscreen == Warn) || (v == Focus && g.focusTracking == Warn)
    || (v == Clipboard && g.blockClipboard)
  }

  /** The counted report that reaches the threshold of an auto-submit ladder. */
  predicate Submits(g: Guardrails, count: nat) {
    g.action == AutoSubmit && g.maxViolations >= 1 && count >= g.maxViolations
  }

  predicate Reportable(db: DB, actor: Actor, a: AttemptId) {
    && Mine(db, actor, a) && db.attempts[a].status == InProgress
    && PinnedSnapshot(db.quizzes, db.attempts[a]).Some?
  }

  /** A warning leaves its evidence and nothing else; a counted report adds one to the tally, and ends the
      attempt where it reaches the threshold; a report of a disabled guardrail, like any other that is
      refused, writes nothing. */
  lemma ReportViolationEffect(db: DB, actor: Actor, a: AttemptId, v: ViolationType, d: Option<nat>)
    ensures var step := ReportViolation(db, actor, a, v, d);
            if Reportable(db, actor, a)
               && OnlyWarns(PinnedSnapshot(db.quizzes, db.attempts[a]).value.guardrails, v) then
              && step.out == Done && step.db.audit == db.audit
              && Rewrites(db, step.db, a, db.attempts[a], [Violation(v, d, db.attempts[a].violations)])
            else if Reportable(db, actor, a)
                    && Counts(PinnedSnapshot(db.quizzes, db.attempts[a]).value.guardrails, v) then
              var row, n := db.attempts[a], db.attempts[a].violations + 1;
              && step.out == Done && step.db.audit == db.audit
              && if Submits(PinnedSnapshot(db.quizzes, row).value.guardrails, n)
                 then Rewrites(db, step.db, a, row.(violations := n, status := Submitted, kind := Some(ByDeadline),
                                                    submittedAt := Some(db.now)),
                               [Violation(v, d, n), SubmittedEvent(ByDeadline, AnsweredCount(row.answers))])
                 else Rewrites(db, step.db, a, row.(violations := n), [Violation(v, d, n)])
            else
              && step.db == db
              && step.out == if !Mine(db, actor, a) then Refused(NotFound)
                             else if db.attempts[a].status == Kicked then Refused(WasKicked)
                             else if db.attempts[a].status != InProgress then Refused(AlreadySubmitted)
                             else if PinnedSnapshot(db.quizzes, db.attempts[a]).None? then Refused(NotFound)
                             else Refused(GuardrailOff)
  {
    if Reportable(db, actor, a) {
      var row, n := db.attempts[a], db.attempts[a].violations + 1;
      WithAttemptRewrites(db, a, row, [Violation(v, d, row.violations)]);
      WithAttemptRewrites(db, a, row.(violations := n), [Violation(v, d, n)]);
      WithAttemptRewrites(db, a, row.(violations := n, status := Submitted, kind := Some(ByDeadline),
                                      submittedAt := Some(db.now)),
                          [Violation(v, d, n), SubmittedEvent(ByDeadline, AnsweredCount(row.answers))]);
    }
  }
}
