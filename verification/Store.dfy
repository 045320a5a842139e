/** The services and the worker as they run: one object holding the tables, and each transaction a
    method that reads, checks and writes them statement by statement. Every method's contract is the
    transaction it implements in Transactions, on the whole database. */
module Store {
  import opened Common
  import opened Grading
  import opened Schema
  import opened Statistics
  import Averages
  import EventLog
  import Integrity
  import T = Transactions
  import Json
  import Rollup

  lemma OfPrefix(attempts: seq<Attempt>, n: nat)
    requires n < |attempts|
    ensures attempts[..n + 1][..n] == attempts[..n]
    ensures attempts[..|attempts|] == attempts
  {
  }

  class Database {
    var now: Time
    var quizzes: seq<Quiz>
    var attempts: seq<Attempt>
    var log: seq<Entry>
    var audit: seq<AuditRow>

    function Db(): DB
      reads this
    {
      DB(now, quizzes, attempts, log, audit)
    }

    constructor (at: Time)
      ensures Db() == DB(at, [], [], [], [])
    {
      now, quizzes, attempts, log, audit := at, [], [], [], [];
    }

    // ----- Shared statements -----

    /** appendEvent: the log only ever grows at its end. */
    method AppendEvent(a: AttemptId, event: Event)
      modifies this`log
      ensures log == old(log) + [Entry(a, event)]
    {
      log := log + [Entry(a, event)];
    }

    method AppendAll(entries: seq<Entry>)
      modifies this`log
      ensures log == old(log) + entries
    {
      for i := 0 to |entries|
        invariant log == old(log) + entries[..i]
      {
        assert entries[..i + 1] == entries[..i] + [entries[i]];
        AppendEvent(entries[i].attempt, entries[i].event);
      }
      assert entries[..|entries|] == entries;
    }

    method WriteAudit(actor: Actor, action: AuditAction)
      modifies this`audit
      ensures audit == old(audit) + [AuditRow(actor.id, action)]
    {
      audit := audit + [AuditRow(actor.id, action)];
    }

    /** The row of the caller's own attempt, or not found. */
    method OwnedForUpdate(actor: Actor, a: AttemptId) returns (row: Option<Attempt>)
      ensures row == if T.Owns(actor, Db(), a) then Some(attempts[a]) else None
    {
      if a >= |attempts| || attempts[a].student != actor.id {
        return None;
      }
      return Some(attempts[a]);
    }

    method ModeratableForUpdate(actor: Actor, a: AttemptId) returns (row: Option<Attempt>)
      ensures row == if T.Moderates(actor, Db(), a) then Some(attempts[a]) else None
    {
      if a >= |attempts| || attempts[a].quiz >= |quizzes| || !T.MayModerate(actor, quizzes[attempts[a].quiz]) {
        return None;
      }
      return Some(attempts[a]);
    }

    method EditableForUpdate(actor: Actor, q: QuizId) returns (row: Option<Quiz>)
      ensures row == if T.Edits(actor, Db(), q) then Some(quizzes[q]) else None
    {
      if q >= |quizzes| || !T.MayEdit(actor, quizzes[q]) {
        return None;
      }
      return Some(quizzes[q]);
    }

    // ----- Start -----

    /** The newest unexpired attempt in progress, scanning from the newest back. */
    method FindOpenAttempt(q: QuizId, s: UserId) returns (found: Option<AttemptId>)
      ensures found == OpenAttempt(attempts, q, s, now)
      ensures found.Some? ==> found.value < |attempts|
    {
      var n := |attempts|;
      assert attempts[..n] == attempts;
      while n > 0
        invariant n <= |attempts|
        invariant OpenAttempt(attempts, q, s, now) == OpenAttempt(attempts[..n], q, s, now)
      {
        OfPrefix(attempts, n - 1);
        if Open(attempts[n - 1], q, s, now) {
          return Some(n - 1);
        }
        n := n - 1;
      }
      return None;
    }

    /** count(*), max(attempt_no) and count(readmitted_at), in one scan. */
    method CountAttempts(q: QuizId, s: UserId) returns (used: nat, lastNo: nat, granted: nat)
      ensures used == Used(attempts, q, s)
      ensures lastNo == LastNo(attempts, q, s)
      ensures granted == Granted(attempts, q, s)
    {
      used, lastNo, granted := 0, 0, 0;
      for i := 0 to |attempts|
        invariant used == Used(attempts[..i], q, s)
        invariant lastNo == LastNo(attempts[..i], q, s)
        invariant granted == Granted(attempts[..i], q, s)
      {
        OfPrefix(attempts, i);
        if Same(attempts[i], q, s) {
          used := used + 1;
          if attempts[i].no > lastNo {
            lastNo := attempts[i].no;
          }
          if attempts[i].readmittedAt.Some? {
            granted := granted + 1;
          }
        }
      }
      assert attempts[..|attempts|] == attempts;
    }

    method Start(actor: Actor, q: QuizId) returns (out: T.Outcome)
      modifies this`attempts, this`log
      ensures T.Step(Db(), out) == T.Start(old(Db()), actor, q)
    {
      if q >= |quizzes| || actor.id !in quizzes[q].audience {
        return T.Refused(T.NotFound);
      }
      var z := quizzes[q];
      if z.status == Draft {
        return T.Refused(T.NotFound);
      }
      if z.status != Scheduled && z.status != Live {
        return T.Refused(T.QuizNotLive);
      }
      if z.startsAt.None? || z.endsAt.None? || now < z.startsAt.value || now >= z.endsAt.value {
        return T.Refused(T.QuizNotLive);
      }
      var open := FindOpenAttempt(q, actor.id);
      if open.Some? {
        return T.Resumed(open.value);
      }
      var used, lastNo, granted := CountAttempts(q, actor.id);
      if used >= z.maxAttempts + granted {
        return T.Refused(T.AttemptLimit);
      }
      var a := |attempts|;
      var deadlineAt := Min(now + z.durationSec * SECOND, z.endsAt.value);
      attempts := attempts + [T.NewAttempt(q, actor.id, lastNo + 1, |z.versions|, now, deadlineAt)];
      AppendEvent(a, Started(actor.id, deadlineAt));
      return T.Began(a);
    }

    // ----- Autosave and submit -----

    method FindOrdinal(questions: seq<Question>, id: QuestionId) returns (ordinal: Option<nat>)
      ensures ordinal == T.Ordinal(questions, id)
    {
      ordinal := None;
      for i := 0 to |questions|
        invariant ordinal == T.Ordinal(questions[..i], id)
      {
        assert questions[..i + 1][..i] == questions[..i];
        if questions[i].id == id {
          ordinal := Some(i + 1);
        }
      }
      assert questions[..|questions|] == questions;
    }

    method SaveAnswer(actor: Actor, a: AttemptId, id: QuestionId, response: Json.Value, timeSpentMs: nat)
      returns (out: T.Outcome)
      modifies this`attempts, this`log
      ensures T.Step(Db(), out) == T.SaveAnswer(old(Db()), actor, a, id, response, timeSpentMs)
    {
      var owned := OwnedForUpdate(actor, a);
      if owned.None? {
        return T.Refused(T.NotFound);
      }
      var row := owned.value;
      match row.status {
        case Kicked => return T.Refused(T.WasKicked);
        case Submitted => return T.Refused(T.AlreadySubmitted);
        case Graded => return T.Refused(T.AlreadySubmitted);
        case InProgress =>
      }
      if now > row.deadlineAt + WRITE_GRACE {
        return T.Refused(T.DeadlinePassed);
      }
      var pinned := PinnedSnapshot(quizzes, row);
      if pinned.None? {
        return T.Refused(T.NotFound);
      }
      var ordinal := FindOrdinal(pinned.value.questions, id);
      if ordinal.None? {
        return T.Refused(T.NotFound);
      }
      var stored := if response.Null? then None else Some(response);
      if id in row.answers {
        row := row.(answers := row.answers[id := row.answers[id].(response := stored, timeSpentMs := timeSpentMs,
                                                                  savedAt := now)]);
      } else {
        row := row.(answers := row.answers[id := Answer(stored, timeSpentMs, now, None, None)]);
      }
      row := row.(question := ordinal);
      attempts := attempts[a := row];
      AppendEvent(a, Progress(ordinal.value, AnsweredCount(row.answers)));
      TaggedOne(a, Progress(ordinal.value, AnsweredCount(row.answers)));
      return T.Done;
    }

    /** submit: the termination funnel of the student-driven kinds, behind the in-progress guard. */
    method Submit(a: AttemptId, kind: SubmitKind) returns (out: T.Outcome)
      requires a < |attempts|
      modifies this`attempts, this`log
      ensures match old(attempts[a].status)
              case Kicked => Db() == old(Db()) && out == T.Refused(T.WasKicked)
              case Submitted => Db() == old(Db()) && out == T.Done
              case Graded => Db() == old(Db()) && out == T.Done
              case InProgress =>
                if kind == ByStudent && now > old(attempts[a].deadlineAt) + WRITE_GRACE
                then Db() == old(Db()) && out == T.Refused(T.DeadlinePassed)
                else
                  && out == T.Done
                  && Db() == T.WithAttempt(old(Db()), a, T.Terminated(old(attempts[a]), kind, now),
                                           [T.TerminatedEvent(old(attempts[a]), kind)])
    {
      var row := attempts[a];
      match row.status {
        case Kicked => return T.Refused(T.WasKicked);
        case Submitted => return T.Done;
        case Graded => return T.Done;
        case InProgress =>
      }
      if kind == ByStudent {
        var late := now > row.deadlineAt + WRITE_GRACE;
        if late {
          return T.Refused(T.DeadlinePassed);
        }
      }
      attempts := attempts[a := row.(status := Submitted, kind := Some(kind), submittedAt := Some(now))];
      var answered := AnsweredCount(row.answers);
      AppendEvent(a, SubmittedEvent(kind, answered));
      TaggedOne(a, SubmittedEvent(kind, answered));
      return T.Done;
    }

    method SubmitManual(actor: Actor, a: AttemptId) returns (out: T.Outcome)
      modifies this`attempts, this`log
      ensures T.Step(Db(), out) == T.SubmitManual(old(Db()), actor, a)
    {
      var owned := OwnedForUpdate(actor, a);
      if owned.None? {
        return T.Refused(T.NotFound);
      }
      out := Submit(a, ByStudent);
    }

    // ----- Violations -----

    method ReportViolation(actor: Actor, a: AttemptId, vtype: ViolationType, durationMs: Option<nat>)
      returns (out: T.Outcome)
      modifies this`attempts, this`log
      ensures T.Step(Db(), out) == T.ReportViolation(old(Db()), actor, a, vtype, durationMs)
    {
      var owned := OwnedForUpdate(actor, a);
      if owned.None? {
        return T.Refused(T.NotFound);
      }
      var row := owned.value;
      match row.status {
        case Kicked => return T.Refused(T.WasKicked);
        case Submitted => return T.Refused(T.AlreadySubmitted);
        case Graded => return T.Refused(T.AlreadySubmitted);
        case InProgress =>
      }
      var pinned := PinnedSnapshot(quizzes, row);
      if pinned.None? {
        return T.Refused(T.NotFound);
      }
      var policy := T.GuardrailPolicy(pinned.value.guardrails, vtype);
      if policy == Off {
        return T.Refused(T.GuardrailOff);
      }
      var counted := policy == Count;
      var newCount := row.violations;
      if counted {
        newCount := newCount + 1;
        attempts := attempts[a := row.(violations := newCount)];
      }
      AppendEvent(a, Violation(vtype, durationMs, newCount));
      TaggedOne(a, Violation(vtype, durationMs, newCount));
      if counted {
        var fires := pinned.value.guardrails.maxViolations >= 1 && newCount >= pinned.value.guardrails.maxViolations;
        if fires && pinned.value.guardrails.action == AutoSubmit {
          var submitted := Submit(a, ByDeadline);
          TaggedTwo(a, Violation(vtype, durationMs, newCount),
                    T.TerminatedEvent(row.(violations := newCount), ByDeadline));
        }
      }
      return T.Done;
    }

    // ----- Moderation -----

    method Kick(actor: Actor, a: AttemptId, reason: string) returns (out: T.Outcome)
      modifies this`attempts, this`log, this`audit
      ensures T.Step(Db(), out) == T.Kick(old(Db()), actor, a, reason)
    {
      var row := ModeratableForUpdate(actor, a);
      if row.None? {
        return T.Refused(T.NotFound);
      }
      if !row.value.status.InProgress? {
        return T.Done;
      }
      attempts := attempts[a := row.value.(status := Kicked, kind := Some(ByKick), submittedAt := Some(now),
                                           kickedBy := Some(actor.id))];
      AppendEvent(a, KickedEvent(actor.id, reason));
      TaggedOne(a, KickedEvent(actor.id, reason));
      WriteAudit(actor, AttemptKicked(a));
      return T.Done;
    }

    method Readmit(actor: Actor, a: AttemptId) returns (out: T.Outcome)
      modifies this`attempts, this`audit
      ensures T.Step(Db(), out) == T.Readmit(old(Db()), actor, a)
    {
      var row := ModeratableForUpdate(actor, a);
      if row.None? {
        return T.Refused(T.NotFound);
      }
      if row.value.status != Kicked {
        return T.Refused(T.NotKicked);
      }
      var rows := 0;
      if row.value.readmittedAt.None? {
        attempts := attempts[a := row.value.(readmittedAt := Some(now))];
        rows := 1;
      }
      if rows == 1 {
        WriteAudit(actor, AttemptReadmitted(a));
      }
      return T.Done;
    }

    method OverrideScore(actor: Actor, a: AttemptId) returns (out: T.Outcome)
      modifies this`attempts, this`audit
      ensures T.Step(Db(), out) == T.OverrideScore(old(Db()), actor, a)
    {
      var row := ModeratableForUpdate(actor, a);
      if row.None? {
        return T.Refused(T.NotFound);
      }
      if row.value.kind.None? || row.value.kind.value != ByKick {
        return T.Refused(T.NotKicked);
      }
      if row.value.status != Graded {
        return T.Refused(T.NotGraded);
      }
      var rows := 0;
      if row.value.overriddenAt.None? {
        attempts := attempts[a := row.value.(score := Some(0.0), overriddenAt := Some(now))];
        rows := 1;
      }
      if rows == 1 {
        WriteAudit(actor, ScoreOverridden(a));
      }
      return T.Done;
    }

    // ----- Quiz transactions -----

    /** The snapshot: every question with its effective points and penalty. */
    method BuildSnapshot(z: Quiz) returns (questions: seq<Question>)
      ensures questions == T.ResolveAll(z.questions, z)
    {
      questions := [];
      for i := 0 to |z.questions|
        invariant |questions| == i
        invariant forall k | 0 <= k < i :: questions[k] == T.Resolve(z.questions[k], z)
      {
        var d := z.questions[i];
        var points := if d.points.Some? then d.points.value else z.defaultPoints;
        var penalty := if d.penalty.Some? then d.penalty.value else z.defaultPenalty;
        questions := questions + [Question(d.id, d.kind, d.correct, points, penalty)];
      }
    }

    method Publish(actor: Actor, q: QuizId, input: T.PublishInput) returns (out: T.Outcome)
      modifies this`quizzes, this`audit
      ensures T.Step(Db(), out) == T.Publish(old(Db()), actor, q, input)
    {
      if !T.PublishInputOk(input, now) {
        return T.Refused(T.Invalid);
      }
      var found := EditableForUpdate(actor, q);
      if found.None? {
        return T.Refused(T.NotFound);
      }
      var z := found.value;
      if z.status != Draft && z.status != Scheduled {
        return T.Refused(T.NotEditable);
      }
      if |z.questions| == 0 || |z.audience| == 0 {
        return T.Refused(T.Precondition);
      }
      var questions := BuildSnapshot(z);
      z := z.(versions := z.versions + [Snapshot(questions, input.guardrails)]);
      z := z.(status := Scheduled, startsAt := Some(input.startsAt), endsAt := Some(input.endsAt),
      durationSec := input.durationSec, releasePolicy := input.policy);
      quizzes := quizzes[q := z];
      WriteAudit(actor, QuizPublished(q));
      return T.Done;
    }

    method Cancel(actor: Actor, q: QuizId) returns (out: T.Outcome)
      modifies this`quizzes, this`audit
      ensures T.Step(Db(), out) == T.Cancel(old(Db()), actor, q)
    {
      var found := EditableForUpdate(actor, q);
      if found.None? {
        return T.Refused(T.NotFound);
      }
      var z := found.value;
      match z.status {
        case Draft => return T.Done;
        case Scheduled =>
        case _ => return T.Refused(T.NotCancellable);
      }
      if z.startsAt.None? || z.startsAt.value <= now {
        return T.Refused(T.NotCancellable);
      }
      quizzes := quizzes[q := z.(status := Draft, startsAt := None, endsAt := None)];
      WriteAudit(actor, QuizCancelled(q));
      return T.Done;
    }

    method ForceClose(actor: Actor, q: QuizId) returns (out: T.Outcome)
      modifies this`quizzes, this`audit
      ensures T.Step(Db(), out) == T.ForceClose(old(Db()), actor, q)
    {
      var found := EditableForUpdate(actor, q);
      if found.None? {
        return T.Refused(T.NotFound);
      }
      match found.value.status {
        case Closed => return T.Done;
        case Archived => return T.Done;
        case Draft => return T.Refused(T.NotClosable);
        case _ =>
      }
      quizzes := quizzes[q := found.value.(status := Closed, endsAt := Some(now))];
      WriteAudit(actor, QuizForceClosed(q));
      return T.Done;
    }

    method Extend(actor: Actor, q: QuizId, newEndsAt: Time) returns (out: T.Outcome)
      modifies this`quizzes, this`attempts, this`audit
      ensures T.Step(Db(), out) == T.Extend(old(Db()), actor, q, newEndsAt)
    {
      if newEndsAt <= now {
        return T.Refused(T.Invalid);
      }
      var found := EditableForUpdate(actor, q);
      if found.None? {
        return T.Refused(T.NotFound);
      }
      var z := found.value;
      if T.EffectiveStatus(z, now) != Live {
        return T.Refused(T.NotExtendable);
      }
      if z.endsAt.Some? && newEndsAt <= z.endsAt.value {
        return T.Refused(T.Precondition);
      }
      quizzes := quizzes[q := z.(endsAt := Some(newEndsAt))];
      RecomputeDeadlines(q, z.durationSec, newEndsAt);
      WriteAudit(actor, QuizExtended(q));
      return T.Done;
    }

    /** deadline_at = least(started_at + duration, the new end), row by row. */
    method RecomputeDeadlines(q: QuizId, durationSec: nat, endsAt: Time)
      modifies this`attempts
      ensures attempts == T.Redeadlined(old(attempts), q, durationSec, endsAt)
    {
      for i := 0 to |attempts|
        invariant |attempts| == |old(attempts)|
        invariant forall k | i <= k < |attempts| :: attempts[k] == old(attempts)[k]
        invariant forall k | 0 <= k < i :: attempts[k] == T.Redeadlined(old(attempts), q, durationSec, endsAt)[k]
      {
        if attempts[i].quiz == q && attempts[i].status == InProgress {
          var budget := attempts[i].startedAt + durationSec * SECOND;
          attempts := attempts[i := attempts[i].(deadlineAt := if budget < endsAt then budget else endsAt)];
        }
      }
    }

    method Archive(actor: Actor, q: QuizId) returns (out: T.Outcome)
      modifies this`quizzes, this`audit
      ensures T.Step(Db(), out) == T.Archive(old(Db()), actor, q)
    {
      var found := EditableForUpdate(actor, q);
      if found.None? {
        return T.Refused(T.NotFound);
      }
      match found.value.status {
        case Archived => return T.Done;
        case Closed =>
        case _ => return T.Refused(T.NotArchivable);
      }
      quizzes := quizzes[q := found.value.(status := Archived)];
      WriteAudit(actor, QuizArchived(q));
      return T.Done;
    }

    method CountBlocked(q: QuizId, removed: set<UserId>) returns (blocked: nat)
      ensures blocked > 0 <==> T.HasInProgress(attempts, q, removed)
    {
      blocked := 0;
      for i := 0 to |attempts|
        invariant blocked > 0 <==> T.HasInProgress(attempts[..i], q, removed)
      {
        var hit := attempts[i].quiz == q && attempts[i].student in removed && attempts[i].status == InProgress;
        BlockedStep(attempts, i, q, removed);
        if hit {
          blocked := blocked + 1;
        }
      }
      assert attempts[..|attempts|] == attempts;
    }

    method SetAssignments(actor: Actor, q: QuizId, students: set<UserId>) returns (out: T.Outcome)
      modifies this`quizzes, this`audit
      ensures T.Step(Db(), out) == T.SetAssignments(old(Db()), actor, q, students)
    {
      var found := EditableForUpdate(actor, q);
      if found.None? {
        return T.Refused(T.NotFound);
      }
      var z := found.value;
      var es := T.EffectiveStatus(z, now);
      if es != Draft && es != Scheduled && es != Live {
        return T.Refused(T.NotEditable);
      }
      if z.status == Scheduled && |students| == 0 {
        return T.Refused(T.Precondition);
      }
      if es == Live {
        var removed := z.audience - students;
        var blocked := CountBlocked(q, removed);
        if blocked > 0 {
          return T.Refused(T.AssignmentInProgress);
        }
      }
      quizzes := quizzes[q := z.(audience := students)];
      WriteAudit(actor, AssignmentsSet(q));
      return T.Done;
    }

    method ReleaseResults(actor: Actor, q: QuizId) returns (out: T.Outcome)
      modifies this`quizzes, this`audit
      ensures T.Step(Db(), out) == T.ReleaseResults(old(Db()), actor, q)
    {
      var found := EditableForUpdate(actor, q);
      if found.None? {
        return T.Refused(T.NotFound);
      }
      var z := found.value;
      if z.releasedAt.Some? {
        return T.Done;
      }
      var es := T.EffectiveStatus(z, now);
      if es != Closed && es != Archived {
        return T.Refused(T.QuizNotClosed);
      }
      quizzes := quizzes[q := z.(status := if z.status == Archived then Archived else Closed, releasedAt := Some(now))];
      WriteAudit(actor, ResultsReleased(q));
      return T.Done;
    }

    // ----- The live roster -----

    /** One row per assigned student, each read from the attempt the student is on. */
    method LiveRoster(q: QuizId) returns (rows: map<UserId, EventLog.LiveRow>)
      requires q < |quizzes|
      ensures rows.Keys == quizzes[q].audience
      ensures forall s | s in rows :: rows[s] == EventLog.LiveRosterRow(Db(), q, s)
    {
      rows := map[];
      var left := quizzes[q].audience;
      while left != {}
        invariant left <= quizzes[q].audience && rows.Keys == quizzes[q].audience - left
        invariant forall s | s in rows :: rows[s] == EventLog.LiveRosterRow(Db(), q, s)
        decreases left
      {
        var s :| s in left;
        left := left - {s};
        var row := EventLog.NEVER_STARTED;
        var latest := LatestAttempt(attempts, q, s);
        if latest.Some? && latest.value < |attempts| {
          row := EventLog.RowFromTables(latest.value, attempts[latest.value], Of(log, latest.value));
        }
        rows := rows[s := row];
      }
    }

    // ----- The worker -----

    /** Two statements, closing before opening, so that a window that is already over never opens. */
    method SweepDueQuizzes()
      modifies this`quizzes
      ensures Db() == T.SweepQuizzes(old(Db()))
    {
      for q := 0 to |quizzes|
        invariant |quizzes| == |old(quizzes)|
        invariant forall k | q <= k < |quizzes| :: quizzes[k] == old(quizzes)[k]
        invariant forall k | 0 <= k < q :: quizzes[k] == Closing(old(quizzes)[k], now)
      {
        var z := quizzes[q];
        if (z.status == Scheduled || z.status == Live) && z.endsAt.Some? && z.endsAt.value <= now {
          quizzes := quizzes[q := z.(status := Closed)];
        }
      }
      ghost var closed := quizzes;
      for q := 0 to |quizzes|
        invariant |quizzes| == |closed|
        invariant forall k | q <= k < |quizzes| :: quizzes[k] == closed[k]
        invariant forall k | 0 <= k < q :: quizzes[k] == T.SweptQuiz(old(quizzes)[k], now)
      {
        var z := quizzes[q];
        if z.status == Scheduled && z.startsAt.Some? && z.startsAt.value <= now
           && z.endsAt.Some? && z.endsAt.value > now {
          quizzes := quizzes[q := z.(status := Live)];
        }
      }
      assert quizzes == T.SweepQuizzes(old(Db())).quizzes;
    }

    /** sweepSubmit: one set-based termination, its rows drained before the first event is appended. */
    method SweepSubmit(kind: SubmitKind)
      modifies this`attempts, this`log
      ensures Db() == T.SweepSubmit(old(Db()), kind)
    {
      ghost var before := Db();
      var swept: seq<Entry> := [];
      for i := 0 to |attempts|
        invariant quizzes == before.quizzes && now == before.now && log == before.log && audit == before.audit
        invariant |attempts| == |before.attempts|
        invariant forall k | i <= k < |attempts| :: attempts[k] == before.attempts[k]
        invariant forall k | 0 <= k < i ::
                    attempts[k] == if T.DueFor(before, kind, before.attempts[k])
                                   then T.Terminated(before.attempts[k], kind, now) else before.attempts[k]
        invariant swept == T.SweptEvents(before, kind, i)
      {
        var row := attempts[i];
        var due := if kind == ByDeadline then row.deadlineAt + WRITE_GRACE <= now
                   else row.quiz < |quizzes|
                        && (quizzes[row.quiz].status == Closed || quizzes[row.quiz].status == Archived);
        if row.status == InProgress && due {
          attempts := attempts[i := row.(status := Submitted, kind := Some(kind), submittedAt := Some(now))];
          swept := swept + [Entry(i, SubmittedEvent(kind, AnsweredCount(row.answers)))];
        }
      }
      assert attempts == T.SweepSubmit(before, kind).attempts;
      AppendAll(swept);
    }

    method SweepDueAttempts()
      modifies this`attempts, this`log
      ensures Db() == T.SweepAttempts(old(Db()))
    {
      SweepSubmit(ByDeadline);
      SweepSubmit(ByClose);
    }

    method GradeOne(rules: TextRules, a: AttemptId)
      modifies this`attempts, this`log
      ensures Db() == T.GradeOne(rules, old(Db()), a)
    {
      if a >= |attempts| || (attempts[a].status != Submitted && attempts[a].status != Kicked) {
        return;
      }
      var row := attempts[a];
      var pinned := PinnedSnapshot(quizzes, row);
      if pinned.None? {
        return;
      }
      var score, answers := GradeAnswers(rules, pinned.value.questions, row.answers);
      attempts := attempts[a := row.(status := Graded, score := Some(score), answers := answers)];
      AppendEvent(a, GradedEvent(score));
      TaggedOne(a, GradedEvent(score));
    }

    method GradeSubmitted(rules: TextRules)
      modifies this`attempts, this`log
      ensures Db() == T.GradeSubmitted(rules, old(Db()))
    {
      ghost var before := Db();
      for a := 0 to |attempts|
        invariant Db() == T.GradeUpTo(rules, before, a)
        invariant |attempts| == |before.attempts|
      {
        GradeOne(rules, a);
      }
    }

    method AllGraded(q: QuizId, alsoKicked: bool) returns (settled: bool)
      ensures settled == forall i | 0 <= i < |attempts| && attempts[i].quiz == q ::
                           attempts[i].status.Graded? || (alsoKicked && attempts[i].status.Kicked?)
    {
      for i := 0 to |attempts|
        invariant forall k | 0 <= k < i && attempts[k].quiz == q ::
                    attempts[k].status.Graded? || (alsoKicked && attempts[k].status.Kicked?)
      {
        if attempts[i].quiz == q && attempts[i].status != Graded && !(alsoKicked && attempts[i].status == Kicked) {
          return false;
        }
      }
      return true;
    }

    method ReleaseDueResults()
      modifies this`quizzes
      ensures Db() == T.ReleaseDueResults(old(Db()))
    {
      ghost var before := Db();
      for q := 0 to |quizzes|
        invariant |quizzes| == |before.quizzes|
        invariant forall k | q <= k < |quizzes| :: quizzes[k] == before.quizzes[k]
        invariant forall k | 0 <= k < q :: quizzes[k] == T.ReleaseDueResults(before).quizzes[k]
      {
        var z := quizzes[q];
        if (z.status == Closed || z.status == Archived) && z.releasePolicy == Automatic && z.releasedAt.None? {
          var settled := AllGraded(q, true);
          if settled {
            quizzes := quizzes[q := z.(releasedAt := Some(now))];
          }
        }
      }
      assert quizzes == T.ReleaseDueResults(before).quizzes;
    }

    /** rollupOne: the score summary of one quiz, written once. */
    method RollupOne(q: QuizId)
      modifies this`quizzes
      ensures Db() == T.RollupOne(old(Db()), q)
    {
      if q >= |quizzes| || (quizzes[q].status != Closed && quizzes[q].status != Archived) || quizzes[q].stats.Some? {
        return;
      }
      var settled := AllGraded(q, false);
      if !settled {
        return;
      }
      var source := Rollup.Inputs(Db(), q);
      var rows := Rollup.ScoredRows(Rollup.Best(source.attempts), source.versions);
      var buckets := Rollup.FillBuckets(rows);
      var mean, median := Averages.MeanMedian(Rollup.Scores(rows));
      var participation := 0.0;
      if |source.audience| > 0 {
        participation := |Rollup.Attempted(source.attempts)| as real / |source.audience| as real;
      }
      var integrity := Integrity.IntegritySummary(source.attempts);
      var stats := Stats(buckets, mean, median, participation, integrity.kickedAttempts, integrity.totalViolations);
      quizzes := quizzes[q := quizzes[q].(stats := Some(stats))];
    }

    method RollupDue()
      modifies this`quizzes
      ensures Db() == T.RollupDueQuizzes(old(Db()))
    {
      ghost var before := Db();
      for q := 0 to |quizzes|
        invariant Db() == T.RollupUpTo(before, q)
        invariant |quizzes| == |before.quizzes|
      {
        RollupOne(q);
      }
    }

    /** The worker pass, its five sweeps in their fixed order. */
    method SweepDue(rules: TextRules)
      modifies this`quizzes, this`attempts, this`log
      ensures Db() == T.SweepDue(rules, old(Db()))
    {
      SweepDueQuizzes();
      SweepDueAttempts();
      GradeSubmitted(rules);
      ReleaseDueResults();
      RollupDue();
    }
  }

  // ----- Steps of the loops -----

  /** The first of the two quiz statements, on one row. */
  function Closing(z: Quiz, now: Time): Quiz {
    if (z.status == Scheduled || z.status == Live) && T.Passed(z.endsAt, now) then z.(status := Closed) else z
  }

  lemma TaggedOne(a: AttemptId, e: Event)
    ensures T.Tagged(a, [e]) == [Entry(a, e)]
  {
    assert [e][..0] == [];
  }

  lemma TaggedTwo(a: AttemptId, e: Event, f: Event)
    ensures T.Tagged(a, [e, f]) == [Entry(a, e), Entry(a, f)]
  {
    assert [e, f][..1] == [e];
    TaggedOne(a, e);
  }

  lemma BlockedStep(attempts: seq<Attempt>, i: nat, q: QuizId, removed: set<UserId>)
    requires i < |attempts|
    ensures T.HasInProgress(attempts[..i + 1], q, removed) <==>
            T.HasInProgress(attempts[..i], q, removed)
            || (attempts[i].quiz == q && attempts[i].student in removed && attempts[i].status.InProgress?)
  {
    var now, before := attempts[..i + 1], attempts[..i];
    assert forall k | 0 <= k < i :: now[k] == before[k];
    assert now[i] == attempts[i];
  }
}
