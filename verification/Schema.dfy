/** The tables of the quiz and attempt lifecycle, as one value (server/internal/db/migrations).
    A row's identifier is its index: attempts are never deleted, and a fresh uuid is a fresh index.
    Attempt answers and the quiz audience, versions and stats are kept with the row they belong to. */
module Schema {
  import opened Common
  import opened Grading
  import Json

  /** Microseconds, the resolution of timestamptz. */
  type Time = int
  type UserId = nat
  type QuizId = nat
  type AttemptId = nat

  const SECOND: Time := 1_000_000
  /** Autosave slack after a deadline: five seconds. */
  const WRITE_GRACE: Time := 5 * SECOND

  datatype Role = Admin | Teacher | Student
  datatype Actor = Actor(id: UserId, role: Role, active: bool)

  // ----- quizzes, quiz_versions, quiz_assignments, quiz_stats -----

  datatype QuizStatus = Draft | Scheduled | Live | Closed | Archived
  datatype ReleasePolicy = Automatic | ByTeacher

  datatype Policy = Off | Warn | Count
  datatype LadderAction = Flag | AutoSubmit | Notify
  datatype Guardrails = Guardrails(fullscreen: Policy, focusTracking: Policy, blockClipboard: bool,
                                   maxViolations: int, action: LadderAction)

  /** One quiz_versions row: write-once, the answer key included. */
  datatype Snapshot = Snapshot(questions: seq<Question>, guardrails: Guardrails)

  /** An editable question; points and penalty may be left to the quiz defaults. */
  datatype DraftQuestion = DraftQuestion(id: QuestionId, kind: Kind, correct: Json.Value,
                                         points: Option<real>, penalty: Option<real>)

  datatype Stats = Stats(distribution: seq<nat>, mean: Option<real>, median: Option<real>, participation: real,
                         kickedAttempts: nat, totalViolations: nat)

  /** versions[v - 1] is version v, so the version column is |versions|. */
  datatype Quiz = Quiz(owner: UserId, status: QuizStatus, startsAt: Option<Time>, endsAt: Option<Time>,
                       durationSec: nat, maxAttempts: nat, defaultPoints: real, defaultPenalty: real,
                       questions: seq<DraftQuestion>, audience: set<UserId>, versions: seq<Snapshot>,
                       releasePolicy: ReleasePolicy, releasedAt: Option<Time>, stats: Option<Stats>)

  // ----- attempts, attempt_answers -----

  datatype AttemptStatus = InProgress | Submitted | Graded | Kicked
  datatype SubmitKind = ByStudent | ByDeadline | ByClose | ByKick

  datatype Attempt = Attempt(quiz: QuizId, student: UserId, no: nat, version: nat,
                             startedAt: Time, deadlineAt: Time, submittedAt: Option<Time>,
                             kind: Option<SubmitKind>, status: AttemptStatus, violations: nat,
                             question: Option<nat>, score: Option<real>, answers: Answers,
                             kickedBy: Option<UserId>, readmittedAt: Option<Time>, overriddenAt: Option<Time>)

  function AnsweredIds(answers: Answers): set<QuestionId> {
    set id | id in answers && answers[id].response.Some?
  }

  /** count(*) of the answer rows whose response is not null. */
  function AnsweredCount(answers: Answers): nat {
    |AnsweredIds(answers)|
  }

  // ----- attempt_events, audit_log -----

  datatype ViolationType = Fullscreen | Focus | Clipboard | Unknown

  datatype Event =
    | Started(student: UserId, deadlineAt: Time)
    | Progress(question: nat, answered: nat)
    | Violation(vtype: ViolationType, durationMs: Option<nat>, count: nat)
    | SubmittedEvent(kind: SubmitKind, answered: nat)
    | KickedEvent(kickedBy: UserId, reason: string)
    | GradedEvent(score: real)
    | SessionInvalidated
    | Disconnected(lastSeenAt: Time)
    | Reconnected

  datatype Entry = Entry(attempt: AttemptId, event: Event)

  datatype AuditAction =
    | QuizPublished(quiz: QuizId)
    | QuizForceClosed(quiz: QuizId)
    | QuizCancelled(quiz: QuizId)
    | QuizExtended(quiz: QuizId)
    | QuizArchived(quiz: QuizId)
    | AssignmentsSet(quiz: QuizId)
    | ResultsReleased(quiz: QuizId)
    | AttemptKicked(attempt: AttemptId)
    | AttemptReadmitted(attempt: AttemptId)
    | ScoreOverridden(attempt: AttemptId)

  datatype AuditRow = AuditRow(actor: UserId, action: AuditAction)

  datatype DB = DB(now: Time, quizzes: seq<Quiz>, attempts: seq<Attempt>, log: seq<Entry>, audit: seq<AuditRow>)

  // ----- Queries the transactions share -----

  /** The attempt_events of one attempt, in id order. */
  function Of(log: seq<Entry>, a: AttemptId): seq<Event> {
    if log == [] then []
    else
      var rest, last := Of(log[..|log| - 1], a), log[|log| - 1];
      if last.attempt == a then rest + [last.event] else rest
  }

  predicate Same(a: Attempt, q: QuizId, s: UserId) {
    a.quiz == q && a.student == s
  }

  /** count(*) of a student's attempts on a quiz. */
  function Used(attempts: seq<Attempt>, q: QuizId, s: UserId): nat {
    if attempts == [] then 0
    else
      Used(attempts[..|attempts| - 1], q, s) + (if Same(attempts[|attempts| - 1], q, s) then 1 else 0)
  }

  /** count(readmitted_at): the extra slots granted. */
  function Granted(attempts: seq<Attempt>, q: QuizId, s: UserId): nat {
    if attempts == [] then 0
    else
      var last := attempts[|attempts| - 1];
      Granted(attempts[..|attempts| - 1], q, s) + (if Same(last, q, s) && last.readmittedAt.Some? then 1 else 0)
  }

  /** coalesce(max(attempt_no), 0). */
  function LastNo(attempts: seq<Attempt>, q: QuizId, s: UserId): nat {
    if attempts == [] then 0
    else
      var rest, last := LastNo(attempts[..|attempts| - 1], q, s), attempts[|attempts| - 1];
      if Same(last, q, s) && last.no > rest then last.no else rest
  }

  predicate Open(a: Attempt, q: QuizId, s: UserId, now: Time) {
    Same(a, q, s) && a.status.InProgress? && a.deadlineAt > now
  }

  /** The attempt a start resumes: in progress and unexpired. */
  function OpenAttempt(attempts: seq<Attempt>, q: QuizId, s: UserId, now: Time): Option<AttemptId> {
    if attempts == [] then None
    else if Open(attempts[|attempts| - 1], q, s, now) then Some(|attempts| - 1)
    else OpenAttempt(attempts[..|attempts| - 1], q, s, now)
  }

  /** The student's latest attempt: the one with the highest attempt_no. */
  function LatestAttempt(attempts: seq<Attempt>, q: QuizId, s: UserId): Option<AttemptId> {
    if attempts == [] then None
    else if Same(attempts[|attempts| - 1], q, s) then Some(|attempts| - 1)
    else LatestAttempt(attempts[..|attempts| - 1], q, s)
  }

  function Min(x: Time, y: Time): Time {
    if x < y then x else y
  }

  function Deadline(startedAt: Time, durationSec: nat, endsAt: Time): Time {
    Min(startedAt + durationSec * SECOND, endsAt)
  }

  /** quiz_versions at an attempt's pinned version; a dangling pin has no row. */
  function PinnedSnapshot(quizzes: seq<Quiz>, a: Attempt): Option<Snapshot> {
    if a.quiz < |quizzes| && 1 <= a.version <= |quizzes[a.quiz].versions|
    then Some(quizzes[a.quiz].versions[a.version - 1]) else None
  }
}
