/** What each transaction of the lifecycle does to the tables, as a function of the state it finds:
    server/internal/attempt/service.go, server/internal/attempt/scheduler.go,
    server/internal/attempt/grade.go, server/internal/quiz/lifecycle.go,
    server/internal/quiz/scheduler.go and server/internal/quiz/results.go. Row locks make each
    transaction one atomic step. */
module Transactions {
  import opened Common
  import opened Grading
  import opened Schema
  import Json
  import Rollup

  datatype Error =
    | NotFound | QuizNotLive | AttemptLimit | DeadlinePassed | WasKicked | AlreadySubmitted
    | NotKicked | GuardrailOff | NotGraded
    | NotEditable | Invalid | Precondition | NotClosable | NotCancellable | NotExtendable
    | NotArchivable | AssignmentInProgress | QuizNotClosed

  datatype Outcome = Done | Began(attempt: AttemptId) | Resumed(attempt: AttemptId) | Refused(error: Error)

  datatype Step = Step(db: DB, out: Outcome)

  function Refuse(db: DB, error: Error): Step {
    Step(db, Refused(error))
  }

  // ----- Writing rows -----

  function Tagged(a: AttemptId, events: seq<Event>): seq<Entry> {
    if events == [] then [] else Tagged(a, events[..|events| - 1]) + [Entry(a, events[|events| - 1])]
  }

  /** One attempt row rewritten and its events appended, in the same transaction. */
  function WithAttempt(db: DB, a: AttemptId, row: Attempt, events: seq<Event>): DB
    requires a < |db.attempts|
  {
    db.(attempts := db.attempts[a := row], log := db.log + Tagged(a, events))
  }

  function WithQuiz(db: DB, q: QuizId, row: Quiz): DB
    requires q < |db.quizzes|
  {
    db.(quizzes := db.quizzes[q := row])
  }

  function Audited(db: DB, actor: Actor, action: AuditAction): DB {
    db.(audit := db.audit + [AuditRow(actor.id, action)])
  }

  // ----- Who may do what -----

  predicate MayEdit(actor: Actor, z: Quiz) {
    actor.active && actor.role == Teacher && actor.id == z.owner
  }

  predicate MayModerate(actor: Actor, z: Quiz) {
    actor.active && (actor.role == Admin || (actor.role == Teacher && actor.id == z.owner))
  }

  predicate Owns(actor: Actor, db: DB, a: AttemptId) {
    a < |db.attempts| && db.attempts[a].student == actor.id
  }

  predicate Moderates(actor: Actor, db: DB, a: AttemptId) {
    && a < |db.attempts| && db.attempts[a].quiz < |db.quizzes|
    && MayModerate(actor, db.quizzes[db.attempts[a].quiz])
  }

  predicate Edits(actor: Actor, db: DB, q: QuizId) {
    q < |db.quizzes| && MayEdit(actor, db.quizzes[q])
  }

  // ----- The lazily derived quiz status -----

  predicate Passed(t: Option<Time>, now: Time) {
    t.Some? && now >= t.value
  }

  function EffectiveStatus(z: Quiz, now: Time): QuizStatus {
    match z.status
    case Scheduled =>
      if Passed(z.endsAt, now) then Closed else if Passed(z.startsAt, now) then Live else Scheduled
    case Live =>
      if Passed(z.endsAt, now) then Closed else Live
    case _ => z.status
  }

  predicate Terminal(status: QuizStatus) {
    status == Closed || status == Archived
  }

  // ----- Student transactions -----

  predicate InWindow(z: Quiz, now: Time) {
    && (z.status == Scheduled || z.status == Live)
    && z.startsAt.Some? && z.endsAt.Some? && z.startsAt.value <= now < z.endsAt.value
  }

  function NewAttempt(q: QuizId, s: UserId, no: nat, version: nat, now: Time, deadline: Time): Attempt {
    Attempt(q, s, no, version, now, deadline, None, None, InProgress, 0, None, None, map[], None, None, None)
  }

  function Start(db: DB, actor: Actor, q: QuizId): Step {
    if q >= |db.quizzes| || actor.id !in db.quizzes[q].audience then Refuse(db, NotFound)
    else
      var z := db.quizzes[q];
      if z.status == Draft then Refuse(db, NotFound)
      else if !InWindow(z, db.now) then Refuse(db, QuizNotLive)
      else
        match OpenAttempt(db.attempts, q, actor.id, db.now)
        case Some(a) => Step(db, Resumed(a))
        case None =>
          if Used(db.attempts, q, actor.id) >= z.maxAttempts + Granted(db.attempts, q, actor.id)
          then Refuse(db, AttemptLimit)
          else
            var row := NewAttempt(q, actor.id, LastNo(db.attempts, q, actor.id) + 1, |z.versions|, db.now,
                                  Deadline(db.now, z.durationSec, z.endsAt.value));
            Step(db.(attempts := db.attempts + [row],
                 log := db.log + [Entry(|db.attempts|, Started(actor.id, row.deadlineAt))]),
                 Began(|db.attempts|))
  }

  /** What a write of its own student meets: the attempt's terminal state, then the deadline. */
  function WriteGate(db: DB, actor: Actor, a: AttemptId): Option<Error> {
    if !Owns(actor, db, a) then Some(NotFound)
    else
      match db.attempts[a].status
      case Kicked => Some(WasKicked)
      case Submitted => Some(AlreadySubmitted)
      case Graded => Some(AlreadySubmitted)
      case InProgress => if db.now > db.attempts[a].deadlineAt + WRITE_GRACE then Some(DeadlinePassed) else None
  }

  /** The 1-based position of a question in the pinned snapshot. */
  function Ordinal(qs: seq<Question>, id: QuestionId): Option<nat> {
    if qs == [] then None
    else if qs[|qs| - 1].id == id then Some(|qs|)
    else Ordinal(qs[..|qs| - 1], id)
  }

  function SnapshotOrdinal(db: DB, a: Attempt, id: QuestionId): Option<nat> {
    match PinnedSnapshot(db.quizzes, a)
    case Some(snapshot) => Ordinal(snapshot.questions, id)
    case None => None
  }

  /** A JSON null clears the answer: it is stored as no response. */
  function Stored(response: Json.Value): Option<Json.Value> {
    if response.Null? then None else Some(response)
  }

  function Saved(row: Attempt, id: QuestionId, response: Json.Value, timeSpentMs: nat, ordinal: nat,
                 now: Time): Attempt {
    var previous := if id in row.answers then row.answers[id] else Answer(None, 0, now, None, None);
    row.(answers := row.answers[id := previous.(response := Stored(response), timeSpentMs := timeSpentMs,
                                                savedAt := now)],
    question := Some(ordinal))
  }

  function SaveAnswer(db: DB, actor: Actor, a: AttemptId, id: QuestionId, response: Json.Value,
                      timeSpentMs: nat): Step {
    match WriteGate(db, actor, a)
    case Some(error) => Refuse(db, error)
    case None =>
      match SnapshotOrdinal(db, db.attempts[a], id)
      case None => Refuse(db, NotFound)
      case Some(ordinal) =>
        var row := Saved(db.attempts[a], id, response, timeSpentMs, ordinal, db.now);
        Step(WithAttempt(db, a, row, [Progress(ordinal, AnsweredCount(row.answers))]), Done)
  }

  function Terminated(row: Attempt, kind: SubmitKind, now: Time): Attempt {
    row.(status := Submitted, kind := Some(kind), submittedAt := Some(now))
  }

  function TerminatedEvent(row: Attempt, kind: SubmitKind): Event {
    SubmittedEvent(kind, AnsweredCount(row.answers))
  }

  function SubmitManual(db: DB, actor: Actor, a: AttemptId): Step {
    if !Owns(actor, db, a) then Refuse(db, NotFound)
    else
      var row := db.attempts[a];
      match row.status
      case Kicked => Refuse(db, WasKicked)
      case Submitted => Step(db, Done)
      case Graded => Step(db, Done)
      case InProgress =>
        if db.now > row.deadlineAt + WRITE_GRACE then Refuse(db, DeadlinePassed)
        else Step(WithAttempt(db, a, Terminated(row, ByStudent, db.now), [TerminatedEvent(row, ByStudent)]), Done)
  }

  function GuardrailPolicy(g: Guardrails, vtype: ViolationType): Policy {
    match vtype
    case Unknown => Off
    case Clipboard => if g.blockClipboard then Warn else Off
    case Fullscreen => g.fullscreen
    case Focus => g.focusTracking
  }

  predicate LadderFires(g: Guardrails, count: nat) {
    g.maxViolations >= 1 && count >= g.maxViolations
  }

  /** One report: its row, and, when the ladder's auto-submit fires, the termination it triggers. */
  function ReportViolation(db: DB, actor: Actor, a: AttemptId, vtype: ViolationType, durationMs: Option<nat>): Step {
    if !Owns(actor, db, a) then Refuse(db, NotFound)
    else
      var row := db.attempts[a];
      match row.status
      case Kicked => Refuse(db, WasKicked)
      case Submitted => Refuse(db, AlreadySubmitted)
      case Graded => Refuse(db, AlreadySubmitted)
      case InProgress =>
        match PinnedSnapshot(db.quizzes, row)
        case None => Refuse(db, NotFound)
        case Some(snapshot) =>
          match GuardrailPolicy(snapshot.guardrails, vtype)
          case Off => Refuse(db, GuardrailOff)
          case Warn => Step(WithAttempt(db, a, row, [Violation(vtype, durationMs, row.violations)]), Done)
          case Count =>
            var counted := row.(violations := row.violations + 1);
            var reported := Violation(vtype, durationMs, counted.violations);
            if LadderFires(snapshot.guardrails, counted.violations) && snapshot.guardrails.action == AutoSubmit
            then Step(WithAttempt(db, a, Terminated(counted, ByDeadline, db.now),
                                  [reported, TerminatedEvent(counted, ByDeadline)]), Done)
            else Step(WithAttempt(db, a, counted, [reported]), Done)
  }

  // ----- Moderation -----

  function KickedRow(row: Attempt, moderator: UserId, now: Time): Attempt {
    row.(status := Kicked, kind := Some(ByKick), submittedAt := Some(now), kickedBy := Some(moderator))
  }

  function Kick(db: DB, actor: Actor, a: AttemptId, reason: string): Step {
    if !Moderates(actor, db, a) then Refuse(db, NotFound)
    else if !db.attempts[a].status.InProgress? then Step(db, Done)
    else
      Step(Audited(WithAttempt(db, a, KickedRow(db.attempts[a], actor.id, db.now), [KickedEvent(actor.id, reason)]),
                   actor, AttemptKicked(a)), Done)
  }

  function Readmit(db: DB, actor: Actor, a: AttemptId): Step {
    if !Moderates(actor, db, a) then Refuse(db, NotFound)
    else if !db.attempts[a].status.Kicked? then Refuse(db, NotKicked)
    else if db.attempts[a].readmittedAt.Some? then Step(db, Done)
    else
      Step(Audited(WithAttempt(db, a, db.attempts[a].(readmittedAt := Some(db.now)), []),
                   actor, AttemptReadmitted(a)), Done)
  }

  function OverrideScore(db: DB, actor: Actor, a: AttemptId): Step {
    if !Moderates(actor, db, a) then Refuse(db, NotFound)
    else if db.attempts[a].kind != Some(ByKick) then Refuse(db, NotKicked)
    else if !db.attempts[a].status.Graded? then Refuse(db, NotGraded)
    else if db.attempts[a].overriddenAt.Some? then Step(db, Done)
    else
      Step(Audited(WithAttempt(db, a, db.attempts[a].(score := Some(0.0), overriddenAt := Some(db.now)), []),
                   actor, ScoreOverridden(a)), Done)
  }

  /** The gateway's narrow writes: a connectivity event, and nothing else. */
  predicate Connectivity(e: Event) {
    e.SessionInvalidated? || e.Disconnected? || e.Reconnected?
  }

  function LogConnectivity(db: DB, a: AttemptId, e: Event): Step {
    if a >= |db.attempts| || !Connectivity(e) then Step(db, Done)
    else Step(WithAttempt(db, a, db.attempts[a], [e]), Done)
  }

  // ----- Teacher transactions on a quiz -----

  datatype PublishInput = PublishInput(startsAt: Time, endsAt: Time, durationSec: nat, guardrails: Guardrails,
                                       policy: ReleasePolicy)

  /** The window and guardrail rules the request handler applies before the transaction opens. */
  predicate PublishInputOk(input: PublishInput, now: Time) {
    && now < input.startsAt < input.endsAt
    && 30 <= input.durationSec <= 86400
    && 1 <= input.guardrails.maxViolations <= 100
  }

  function Resolve(d: DraftQuestion, z: Quiz): Question {
    Question(d.id, d.kind, d.correct, d.points.GetOr(z.defaultPoints), d.penalty.GetOr(z.defaultPenalty))
  }

  function ResolveAll(ds: seq<DraftQuestion>, z: Quiz): seq<Question> {
    seq(|ds|, i requires 0 <= i < |ds| => Resolve(ds[i], z))
  }

  function Published(z: Quiz, input: PublishInput): Quiz {
    z.(status := Scheduled, startsAt := Some(input.startsAt), endsAt := Some(input.endsAt),
    durationSec := input.durationSec, releasePolicy := input.policy,
    versions := z.versions + [Snapshot(ResolveAll(z.questions, z), input.guardrails)])
  }

  function Publish(db: DB, actor: Actor, q: QuizId, input: PublishInput): Step {
    if !PublishInputOk(input, db.now) then Refuse(db, Invalid)
    else if !Edits(actor, db, q) then Refuse(db, NotFound)
    else
      var z := db.quizzes[q];
      if z.status != Draft && z.status != Scheduled then Refuse(db, NotEditable)
      else if z.questions == [] || z.audience == {} then Refuse(db, Precondition)
      else Step(Audited(WithQuiz(db, q, Published(z, input)), actor, QuizPublished(q)), Done)
  }

  function Cancel(db: DB, actor: Actor, q: QuizId): Step {
    if !Edits(actor, db, q) then Refuse(db, NotFound)
    else
      var z := db.quizzes[q];
      if z.status == Draft then Step(db, Done)
      else if z.status != Scheduled || z.startsAt.None? || z.startsAt.value <= db.now then Refuse(db, NotCancellable)
      else
        Step(Audited(WithQuiz(db, q, z.(status := Draft, startsAt := None, endsAt := None)),
                     actor, QuizCancelled(q)), Done)
  }

  function ForceClose(db: DB, actor: Actor, q: QuizId): Step {
    if !Edits(actor, db, q) then Refuse(db, NotFound)
    else
      var z := db.quizzes[q];
      if Terminal(z.status) then Step(db, Done)
      else if z.status == Draft then Refuse(db, NotClosable)
      else
        Step(Audited(WithQuiz(db, q, z.(status := Closed, endsAt := Some(db.now))), actor, QuizForceClosed(q)), Done)
  }

  /** deadline_at recomputed for every in-progress attempt of the quiz. */
  function Redeadlined(attempts: seq<Attempt>, q: QuizId, durationSec: nat, endsAt: Time): seq<Attempt> {
    seq(|attempts|, i requires 0 <= i < |attempts| =>
      if attempts[i].quiz == q && attempts[i].status.InProgress?
      then attempts[i].(deadlineAt := Deadline(attempts[i].startedAt, durationSec, endsAt))
      else attempts[i])
  }

  function Extend(db: DB, actor: Actor, q: QuizId, newEndsAt: Time): Step {
    if newEndsAt <= db.now then Refuse(db, Invalid)
    else if !Edits(actor, db, q) then Refuse(db, NotFound)
    else
      var z := db.quizzes[q];
      if EffectiveStatus(z, db.now) != Live then Refuse(db, NotExtendable)
      else if z.endsAt.Some? && newEndsAt <= z.endsAt.value then Refuse(db, Precondition)
      else
        var moved := WithQuiz(db, q, z.(endsAt := Some(newEndsAt)));
        Step(Audited(moved.(attempts := Redeadlined(db.attempts, q, z.durationSec, newEndsAt)),
                     actor, QuizExtended(q)), Done)
  }

  function Archive(db: DB, actor: Actor, q: QuizId): Step {
    if !Edits(actor, db, q) then Refuse(db, NotFound)
    else
      var z := db.quizzes[q];
      if z.status == Archived then Step(db, Done)
      else if z.status != Closed then Refuse(db, NotArchivable)
      else Step(Audited(WithQuiz(db, q, z.(status := Archived)), actor, QuizArchived(q)), Done)
  }

  predicate HasInProgress(attempts: seq<Attempt>, q: QuizId, students: set<UserId>) {
    exists i | 0 <= i < |attempts| ::
      attempts[i].quiz == q && attempts[i].student in students && attempts[i].status.InProgress?
  }

  /** students is the audience after the group ids have been expanded. */
  function SetAssignments(db: DB, actor: Actor, q: QuizId, students: set<UserId>): Step {
    if !Edits(actor, db, q) then Refuse(db, NotFound)
    else
      var z := db.quizzes[q];
      var status := EffectiveStatus(z, db.now);
      if Terminal(status) then Refuse(db, NotEditable)
      else if z.status == Scheduled && students == {} then Refuse(db, Precondition)
      else if status == Live && HasInProgress(db.attempts, q, z.audience - students)
      then Refuse(db, AssignmentInProgress)
      else Step(Audited(WithQuiz(db, q, z.(audience := students)), actor, AssignmentsSet(q)), Done)
  }

  function ReleaseResults(db: DB, actor: Actor, q: QuizId): Step {
    if !Edits(actor, db, q) then Refuse(db, NotFound)
    else
      var z := db.quizzes[q];
      if z.releasedAt.Some? then Step(db, Done)
      else if !Terminal(EffectiveStatus(z, db.now)) then Refuse(db, QuizNotClosed)
      else
        var status := if z.status == Archived then Archived else Closed;
        Step(Audited(WithQuiz(db, q, z.(status := status, releasedAt := Some(db.now))),
                     actor, ResultsReleased(q)), Done)
  }

  /** The limit the request handler lets through. */
  predicate LimitOk(maxAttempts: nat) {
    1 <= maxAttempts <= 10
  }

  /** Every draft-only edit at once: questions, marking scheme and attempt limit. */
  function EditDraft(db: DB, actor: Actor, q: QuizId, questions: seq<DraftQuestion>, maxAttempts: nat,
                     points: real, penalty: real): Step {
    if points <= 0.0 || penalty < 0.0 || !LimitOk(maxAttempts) || !DraftMarksOk(questions) || !DraftKeysOk(questions)
    then Refuse(db, Invalid)
    else if !Edits(actor, db, q) then Refuse(db, NotFound)
    else if db.quizzes[q].status != Draft then Refuse(db, NotEditable)
    else
      Step(WithQuiz(db, q, db.quizzes[q].(questions := questions, maxAttempts := maxAttempts,
                    defaultPoints := points, defaultPenalty := penalty)), Done)
  }

  /** The CHECK constraints on questions.points and questions.penalty. */
  predicate DraftMarksOk(ds: seq<DraftQuestion>) {
    forall i | 0 <= i < |ds| ::
      && (ds[i].points.Some? ==> ds[i].points.value > 0.0)
      && (ds[i].penalty.Some? ==> ds[i].penalty.value >= 0.0)
  }

  /** The primary key of questions. */
  predicate DraftKeysOk(ds: seq<DraftQuestion>) {
    forall i, j | 0 <= i < j < |ds| :: ds[i].id != ds[j].id
  }

  function CreateQuiz(db: DB, actor: Actor): Step {
    if !actor.active || actor.role != Teacher then Refuse(db, NotFound)
    else
      Step(db.(quizzes := db.quizzes + [Quiz(actor.id, Draft, None, None, 0, 1, 1.0, 0.0, [], {}, [],
                                             Automatic, None, None)]), Done)
  }

  // ----- The worker's sweeps -----

  function SweptQuiz(z: Quiz, now: Time): Quiz {
    if (z.status == Scheduled || z.status == Live) && Passed(z.endsAt, now) then z.(status := Closed)
    else if z.status == Scheduled && Passed(z.startsAt, now) && z.endsAt.Some? && z.endsAt.value > now
    then z.(status := Live)
    else z
  }

  function SweepQuizzes(db: DB): DB {
    db.(quizzes := seq(|db.quizzes|, i requires 0 <= i < |db.quizzes| => SweptQuiz(db.quizzes[i], db.now)))
  }

  predicate QuizTerminal(quizzes: seq<Quiz>, q: QuizId) {
    q < |quizzes| && Terminal(quizzes[q].status)
  }

  /** Which attempts one of the two termination statements of the attempt sweep takes. */
  predicate DueFor(db: DB, kind: SubmitKind, row: Attempt) {
    && row.status.InProgress?
    && if kind == ByDeadline then row.deadlineAt + WRITE_GRACE <= db.now else QuizTerminal(db.quizzes, row.quiz)
  }

  /** The submitted events of the rows below n that a statement took, in table order. */
  function SweptEvents(db: DB, kind: SubmitKind, n: nat): seq<Entry>
    requires n <= |db.attempts|
  {
    if n == 0 then []
    else
      SweptEvents(db, kind, n - 1) +
      (if DueFor(db, kind, db.attempts[n - 1]) then [Entry(n - 1, TerminatedEvent(db.attempts[n - 1], kind))] else [])
  }

  function SweepSubmit(db: DB, kind: SubmitKind): DB {
    db.(attempts := seq(|db.attempts|, i requires 0 <= i < |db.attempts| =>
      if DueFor(db, kind, db.attempts[i]) then Terminated(db.attempts[i], kind, db.now) else db.attempts[i]),
    log := db.log + SweptEvents(db, kind, |db.attempts|))
  }

  /** Auto before forced: an attempt that expired before its quiz closed keeps its own kind. */
  function SweepAttempts(db: DB): DB {
    SweepSubmit(SweepSubmit(db, ByDeadline), ByClose)
  }

  function GradedRow(rules: TextRules, row: Attempt, snapshot: Snapshot): Attempt {
    row.(status := Graded, score := Some(Score(rules, snapshot.questions, row.answers)),
    answers := Marked(rules, snapshot.questions, row.answers))
  }

  /** gradeOne: a submitted or kicked attempt is scored against the snapshot it pinned. */
  function GradeOne(rules: TextRules, db: DB, a: AttemptId): DB {
    if a >= |db.attempts| || !(db.attempts[a].status.Submitted? || db.attempts[a].status.Kicked?) then db
    else
      match PinnedSnapshot(db.quizzes, db.attempts[a])
      case None => db
      case Some(snapshot) =>
        var row := GradedRow(rules, db.attempts[a], snapshot);
        WithAttempt(db, a, row, [GradedEvent(row.score.value)])
  }

  /** GradeSubmitted over the first n attempts, one transaction each. */
  function GradeUpTo(rules: TextRules, db: DB, n: nat): DB {
    if n == 0 then db else GradeOne(rules, GradeUpTo(rules, db, n - 1), n - 1)
  }

  function GradeSubmitted(rules: TextRules, db: DB): DB {
    GradeUpTo(rules, db, |db.attempts|)
  }

  predicate ReleaseDue(db: DB, q: QuizId)
    requires q < |db.quizzes|
  {
    && Terminal(db.quizzes[q].status) && db.quizzes[q].releasePolicy == Automatic && db.quizzes[q].releasedAt.None?
    && forall i | 0 <= i < |db.attempts| && db.attempts[i].quiz == q ::
         !db.attempts[i].status.InProgress? && !db.attempts[i].status.Submitted?
  }

  function ReleaseDueResults(db: DB): DB {
    db.(quizzes := seq(|db.quizzes|, q requires 0 <= q < |db.quizzes| =>
      if ReleaseDue(db, q) then db.quizzes[q].(releasedAt := Some(db.now)) else db.quizzes[q]))
  }

  predicate RollupDue(db: DB, q: QuizId)
    requires q < |db.quizzes|
  {
    && Terminal(db.quizzes[q].status) && db.quizzes[q].stats.None?
    && forall i | 0 <= i < |db.attempts| && db.attempts[i].quiz == q :: db.attempts[i].status.Graded?
  }

  function RollupOne(db: DB, q: QuizId): DB {
    if q >= |db.quizzes| || !RollupDue(db, q) then db
    else WithQuiz(db, q, db.quizzes[q].(stats := Some(Rollup.Compute(Rollup.Inputs(db, q)))))
  }

  function RollupUpTo(db: DB, n: nat): DB {
    if n == 0 then db else RollupOne(RollupUpTo(db, n - 1), n - 1)
  }

  function RollupDueQuizzes(db: DB): DB {
    RollupUpTo(db, |db.quizzes|)
  }

  /** One worker pass, its sweeps in their fixed order. */
  function SweepDue(rules: TextRules, db: DB): DB {
    RollupDueQuizzes(ReleaseDueResults(GradeSubmitted(rules, SweepAttempts(SweepQuizzes(db)))))
  }
}
