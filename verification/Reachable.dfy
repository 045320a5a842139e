/** What every reachable state has, for every interleaving: the main results of the lifecycle. */
module Reachable {
  import opened Common
  import opened Grading
  import opened Schema
  import opened Transactions
  import opened EventLog
  import opened RowInvariant
  import opened RowMoves
  import opened Runs
  import RowsKept
  import TwoOpen
  import Windows

  // ----- Attempt numbers, on every run -----

  lemma StartKeepsNumbers(db: DB, actor: Actor, q: QuizId)
    requires Windows.Numbered(db.attempts) && Start(db, actor, q).out.Began?
    ensures Windows.Numbered(Start(db, actor, q).db.attempts)
  {
    var after := Start(db, actor, q).db.attempts;
    Windows.LastNoIsUsed(db.attempts, q, actor.id);
    forall i | 0 <= i < |after|
      ensures after[i].no == Used(after[..i], after[i].quiz, after[i].student) + 1
    {
      assert after[..i] == db.attempts[..i];
      assert db.attempts[..|db.attempts|] == db.attempts;
    }
  }

  lemma MovesKeepNumbers(rules: TextRules, db: DB, after: seq<Attempt>)
    requires Windows.Numbered(db.attempts) && AllMove(rules, db, after) && |after| == |db.attempts|
    ensures Windows.Numbered(after)
  {
    MovesKeepIdentity(rules, db, after);
    Windows.NumbersSettle(db.attempts, after);
  }

  lemma ApplyKeepsNumbers(rules: TextRules, db: DB, act: Action)
    requires Windows.Numbered(db.attempts)
    ensures Windows.Numbered(Apply(rules, db, act).attempts)
  {
    ApplyMoves(rules, db, act);
    if |Apply(rules, db, act).attempts| == |db.attempts| {
      MovesKeepNumbers(rules, db, Apply(rules, db, act).attempts);
    } else {
      OnlyStartsAdd(rules, db, act);
      StartKeepsNumbers(db, act.actor, act.q);
    }
  }

  lemma {:induction false} NumberedAlways(rules: TextRules, now: Time, run: seq<Action>)
    ensures Windows.Numbered(Exec(rules, Empty(now), run).attempts)
  {
    if run != [] {
      NumberedAlways(rules, now, run[..|run| - 1]);
      ApplyKeepsNumbers(rules, Exec(rules, Empty(now), run[..|run| - 1]), run[|run| - 1]);
    }
  }

  lemma NumberedPrefix(attempts: seq<Attempt>, n: nat)
    requires Windows.Numbered(attempts) && n <= |attempts|
    ensures Windows.Numbered(attempts[..n])
  {
    forall i | 0 <= i < n
      ensures attempts[i].no == Used(attempts[..n][..i], attempts[i].quiz, attempts[i].student) + 1
    {
      assert attempts[..n][..i] == attempts[..i];
    }
  }

  lemma {:induction false} LatestScan(attempts: seq<Attempt>, q: QuizId, s: UserId)
    ensures match LatestAttempt(attempts, q, s)
            case None => Used(attempts, q, s) == 0 && forall i | 0 <= i < |attempts| :: !Same(attempts[i], q, s)
            case Some(a) =>
              && a < |attempts| && Same(attempts[a], q, s) && Used(attempts, q, s) == Used(attempts[..a], q, s) + 1
              && forall i | a < i < |attempts| :: !Same(attempts[i], q, s)
  {
    if attempts != [] {
      var n := |attempts| - 1;
      LatestScan(attempts[..n], q, s);
      var latest := LatestAttempt(attempts, q, s);
      if latest.Some? && latest.value < n {
        assert attempts[..n][..latest.value] == attempts[..latest.value];
      }
    }
  }

  lemma {:induction false} UsedGrows(attempts: seq<Attempt>, q: QuizId, s: UserId, i: nat, j: nat)
    requires i < j <= |attempts| && Same(attempts[i], q, s)
    ensures Used(attempts[..i], q, s) < Used(attempts[..j], q, s)
  {
    assert attempts[..j][..j - 1] == attempts[..j - 1];
    if i < j - 1 {
      UsedGrows(attempts, q, s, i, j - 1);
    }
  }

  /** The attempt the roster picks is the one with the highest number, which is the attempt count. */
  lemma {:induction false} LatestIsHighest(attempts: seq<Attempt>, q: QuizId, s: UserId)
    requires Windows.Numbered(attempts)
    ensures match LatestAttempt(attempts, q, s)
            case None => Used(attempts, q, s) == 0 && forall i | 0 <= i < |attempts| :: !Same(attempts[i], q, s)
            case Some(a) =>
              && a < |attempts| && Same(attempts[a], q, s) && attempts[a].no == Used(attempts, q, s)
              && forall i | 0 <= i < |attempts| && Same(attempts[i], q, s) && i != a :: attempts[i].no < attempts[a].no
  {
    LatestScan(attempts, q, s);
    if LatestAttempt(attempts, q, s).Some? {
      var a := LatestAttempt(attempts, q, s).value;
      forall i | 0 <= i < a && Same(attempts[i], q, s)
        ensures attempts[i].no < attempts[a].no
      {
        UsedGrows(attempts, q, s, i, a);
      }
    }
  }

  predicate HasNumber(attempts: seq<Attempt>, q: QuizId, s: UserId, k: nat) {
    exists i | 0 <= i < |attempts| :: Same(attempts[i], q, s) && attempts[i].no == k
  }

  lemma {:induction false} NumberIsThere(attempts: seq<Attempt>, q: QuizId, s: UserId, k: nat)
    requires Windows.Numbered(attempts) && 1 <= k <= Used(attempts, q, s)
    ensures HasNumber(attempts, q, s, k)
  {
    var n := |attempts| - 1;
    if k == Used(attempts[..n], q, s) + 1 {
      assert Same(attempts[n], q, s) && attempts[n].no == k;
    } else {
      NumberedPrefix(attempts, n);
      NumberIsThere(attempts[..n], q, s, k);
      var i :| 0 <= i < n && Same(attempts[..n][i], q, s) && attempts[..n][i].no == k;
      assert Same(attempts[i], q, s) && attempts[i].no == k;
    }
  }

  /** A student's attempt numbers on a quiz are exactly 1 up to their count, none twice. */
  lemma NumbersAreOneToCount(attempts: seq<Attempt>, q: QuizId, s: UserId)
    requires Windows.Numbered(attempts)
    ensures forall k: nat :: HasNumber(attempts, q, s, k) <==> 1 <= k <= Used(attempts, q, s)
    ensures forall i, j | 0 <= i < j < |attempts| && Same(attempts[i], q, s) && Same(attempts[j], q, s) ::
              attempts[i].no != attempts[j].no
  {
    forall k: nat
      ensures HasNumber(attempts, q, s, k) <==> 1 <= k <= Used(attempts, q, s)
    {
      if 1 <= k <= Used(attempts, q, s) {
        NumberIsThere(attempts, q, s, k);
      }
      if HasNumber(attempts, q, s, k) {
        var i :| 0 <= i < |attempts| && Same(attempts[i], q, s) && attempts[i].no == k;
        UsedGrows(attempts, q, s, i, |attempts|);
        assert attempts[..|attempts|] == attempts;
      }
    }
    forall i, j | 0 <= i < j < |attempts| && Same(attempts[i], q, s) && Same(attempts[j], q, s)
      ensures attempts[i].no != attempts[j].no
    {
      UsedGrows(attempts, q, s, i, j);
    }
  }

  // ----- The roster and the log -----

  /** In every reachable state, each roster row, read from the tables, is the fold of the events of the
      student's highest-numbered attempt: state, answered count, question, violations and tallies. */
  lemma {:induction false} RosterIsFoldOfLog(rules: TextRules, now: Time, run: seq<Action>, q: QuizId, s: UserId)
    ensures var db := Exec(rules, Empty(now), run);
            match LatestAttempt(db.attempts, q, s)
            case None => LiveRosterRow(db, q, s) == NEVER_STARTED && !HasNumber(db.attempts, q, s, 1)
            case Some(a) =>
              && a < |db.attempts| && Same(db.attempts[a], q, s)
              && (forall i | 0 <= i < |db.attempts| && Same(db.attempts[i], q, s) ::
                    db.attempts[i].no <= db.attempts[a].no)
              && LiveRosterRow(db, q, s) == RowFromLog(a, Replay(Of(db.log, a)))
  {
    var db := Exec(rules, Empty(now), run);
    RowsHoldAlways(rules, now, run);
    NumberedAlways(rules, now, run);
    LatestIsHighest(db.attempts, q, s);
    NumbersAreOneToCount(db.attempts, q, s);
    match LatestAttempt(db.attempts, q, s)
    case None =>
    case Some(a) =>
      assert RowsKept.RowHolds(db, a);
      AgreementShowsOnRoster(a, db.attempts[a], Of(db.log, a));
  }

  /** One attempt's events, whoever raced for the row: one started first; exactly one submitted or
      kicked, of the row's own kind, once the attempt is no longer in progress; exactly one graded once it
      is graded; and after the terminal event nothing of the lifecycle but the graded one. */
  predicate LifecycleRecorded(row: Attempt, events: seq<Event>) {
    && events != [] && events[0].Started? && CountStarted(events) == 1
    && CountTerminal(events) == One(!row.status.InProgress?)
    && CountGraded(events) == One(row.status.Graded?)
    && (forall i | 0 <= i < |events| && Terminating(events[i]) :: row.kind == Some(KindOf(events[i])))
    && (forall i, j | 0 <= i < j < |events| && Terminating(events[i]) && Lifecycle(events[j]) :: events[j].GradedEvent?)
  }

  lemma {:induction false} LifecycleIsRecordedOnce(rules: TextRules, now: Time, run: seq<Action>, a: AttemptId)
    ensures var db := Exec(rules, Empty(now), run);
            if a < |db.attempts| then LifecycleRecorded(db.attempts[a], Of(db.log, a)) else Of(db.log, a) == []
  {
    var db := Exec(rules, Empty(now), run);
    RowsHoldAlways(rules, now, run);
    if a < |db.attempts| {
      assert RowsKept.RowHolds(db, a);
      UnbrokenStreamGrammar(Of(db.log, a));
      StreamCounts(Of(db.log, a));
    } else {
      assert RowsKept.NothingAbout(db, a);
    }
  }

  // ----- The violation ladder and the score -----

  /** Under auto-submit at m violations the count never passes m, and an attempt still running is
      below it; a score lies between zero and the maximum of the version the attempt pinned. */
  lemma {:induction false} LadderAndScoreBounds(rules: TextRules, now: Time, run: seq<Action>, a: AttemptId)
    ensures var db := Exec(rules, Empty(now), run);
            a < |db.attempts| ==>
              var row, pinned := db.attempts[a], PinnedSnapshot(db.quizzes, db.attempts[a]);
              && pinned.Some?
              && (pinned.value.guardrails.action == AutoSubmit && pinned.value.guardrails.maxViolations >= 1 ==>
                    && row.violations <= pinned.value.guardrails.maxViolations
                    && (row.status.InProgress? ==> row.violations < pinned.value.guardrails.maxViolations))
              && (row.status.Graded? <==> row.score.Some?)
              && (row.score.Some? ==> 0.0 <= row.score.value <= MaxScore(pinned.value.questions))
  {
    var db := Exec(rules, Empty(now), run);
    RowsHoldAlways(rules, now, run);
    if a < |db.attempts| {
      assert RowsKept.RowHolds(db, a);
    }
  }

  /** The violation count of any attempt is the number of its reports on record that the pinned policy
      counts, and no report of a disabled guardrail is on record. */
  lemma {:induction false} CountIsTheEvidence(rules: TextRules, now: Time, run: seq<Action>, a: AttemptId)
    ensures var db := Exec(rules, Empty(now), run);
            a < |db.attempts| ==>
              PinnedSnapshot(db.quizzes, db.attempts[a]).Some?
              && EvidenceOk(PinnedSnapshot(db.quizzes, db.attempts[a]).value.guardrails, db.attempts[a], Of(db.log, a))
  {
    RowsHoldAlways(rules, now, run);
    if a < |Exec(rules, Empty(now), run).attempts| {
      assert RowsKept.RowHolds(Exec(rules, Empty(now), run), a);
    }
  }

  /** A report that ends its attempt: of its own student, of a counted type, and the one that reaches m. */
  predicate ReachesThreshold(g: Guardrails, row: Attempt, actor: Actor, v: ViolationType) {
    actor.id == row.student && GuardrailPolicy(g, v).Count? && row.violations + 1 == g.maxViolations
  }

  lemma LadderStep(db: DB, actor: Actor, a: AttemptId, v: ViolationType, d: Option<nat>)
    requires a < |db.attempts| && RowsKept.RowHolds(db, a) && db.attempts[a].status.InProgress?
    ensures var g := PinnedSnapshot(db.quizzes, db.attempts[a]).value.guardrails;
            g.action == AutoSubmit && g.maxViolations >= 1 ==>
              var after := ReportViolation(db, actor, a, v, d).db.attempts;
              && |after| == |db.attempts|
              && (!after[a].status.InProgress? <==> ReachesThreshold(g, db.attempts[a], actor, v))
  {
  }

  /** Under auto-submit, a report ends its attempt exactly when it is the one that brings the count to the
      threshold: neither earlier, nor after it has been passed. */
  lemma {:induction false} LadderFiresAtTheThreshold(rules: TextRules, now: Time, run: seq<Action>, actor: Actor,
                                                     a: AttemptId, v: ViolationType, d: Option<nat>)
    ensures var db := Exec(rules, Empty(now), run);
            var pinned := if a < |db.attempts| then PinnedSnapshot(db.quizzes, db.attempts[a]) else None;
            && pinned.Some? && pinned.value.guardrails.action == AutoSubmit
            && pinned.value.guardrails.maxViolations >= 1 && db.attempts[a].status.InProgress? ==>
              var after := ReportViolation(db, actor, a, v, d).db.attempts;
              && |after| == |db.attempts|
              && (!after[a].status.InProgress? <==>
                    ReachesThreshold(pinned.value.guardrails, db.attempts[a], actor, v))
  {
    var db := Exec(rules, Empty(now), run);
    RowsHoldAlways(rules, now, run);
    if a < |db.attempts| && db.attempts[a].status.InProgress? {
      assert RowsKept.RowHolds(db, a);
      LadderStep(db, actor, a, v, d);
    }
  }

  // ----- Audit conservation -----

  datatype Mark = KickMark | ReadmitMark | OverrideMark

  function ActionOf(m: Mark, a: AttemptId): AuditAction {
    match m
    case KickMark => AttemptKicked(a)
    case ReadmitMark => AttemptReadmitted(a)
    case OverrideMark => ScoreOverridden(a)
  }

  predicate Bears(m: Mark, row: Attempt) {
    match m
    case KickMark => row.kind == Some(ByKick)
    case ReadmitMark => row.readmittedAt.Some?
    case OverrideMark => row.overriddenAt.Some?
  }

  predicate Records(m: Mark, action: AuditAction) {
    match m
    case KickMark => action.AttemptKicked?
    case ReadmitMark => action.AttemptReadmitted?
    case OverrideMark => action.ScoreOverridden?
  }

  function RowsBearing(m: Mark, attempts: seq<Attempt>): nat {
    if attempts == [] then 0
    else RowsBearing(m, attempts[..|attempts| - 1]) + One(Bears(m, attempts[|attempts| - 1]))
  }

  function RowsRecording(m: Mark, audit: seq<AuditRow>): nat {
    if audit == [] then 0
    else RowsRecording(m, audit[..|audit| - 1]) + One(Records(m, audit[|audit| - 1].action))
  }

  /** The audit rows of one kind, counted attempt by attempt. */
  function PerAttempt(m: Mark, audit: seq<AuditRow>, n: nat): nat {
    if n == 0 then 0 else PerAttempt(m, audit, n - 1) + CountAction(audit, ActionOf(m, n - 1))
  }

  lemma {:induction false} PerAttemptStep(m: Mark, audit: seq<AuditRow>, n: nat, b: AttemptId)
    requires audit != []
    requires Records(m, audit[|audit| - 1].action) ==> audit[|audit| - 1].action == ActionOf(m, b)
    ensures PerAttempt(m, audit, n) == PerAttempt(m, audit[..|audit| - 1], n)
                                     + One(Records(m, audit[|audit| - 1].action) && b < n)
  {
    if n > 0 {
      PerAttemptStep(m, audit, n - 1, b);
    }
  }

  lemma {:induction false} NeverCounted(audit: seq<AuditRow>, action: AuditAction, i: nat)
    requires i < |audit| && audit[i].action == action
    ensures CountAction(audit, action) > 0
  {
    if i < |audit| - 1 {
      NeverCounted(audit[..|audit| - 1], action, i);
    }
  }

  lemma {:induction false} RecordsSplit(m: Mark, audit: seq<AuditRow>, n: nat)
    requires forall i | 0 <= i < |audit| && Records(m, audit[i].action) :: audit[i].action.attempt < n
    ensures RowsRecording(m, audit) == PerAttempt(m, audit, n)
  {
    if audit == [] {
      NoneCounted(m, n);
    } else {
      var last := audit[|audit| - 1];
      RecordsSplit(m, audit[..|audit| - 1], n);
      PerAttemptStep(m, audit, n, if Records(m, last.action) then last.action.attempt else 0);
    }
  }

  lemma {:induction false} NoneCounted(m: Mark, n: nat)
    ensures PerAttempt(m, [], n) == 0
  {
    if n > 0 {
      NoneCounted(m, n - 1);
    }
  }

  lemma {:induction false} BearingSplit(m: Mark, attempts: seq<Attempt>, audit: seq<AuditRow>)
    requires forall a | 0 <= a < |attempts| :: CountAction(audit, ActionOf(m, a)) == One(Bears(m, attempts[a]))
    ensures PerAttempt(m, audit, |attempts|) == RowsBearing(m, attempts)
  {
    if attempts != [] {
      BearingSplit(m, attempts[..|attempts| - 1], audit);
    }
  }

  /** The audit trail holds exactly one row per kicked, readmitted or overridden attempt. */
  lemma {:induction false} AuditMatchesMarks(rules: TextRules, now: Time, run: seq<Action>, m: Mark)
    ensures var db := Exec(rules, Empty(now), run);
            && RowsRecording(m, db.audit) == RowsBearing(m, db.attempts)
            && forall a: nat | a < |db.attempts| ::
                 CountAction(db.audit, ActionOf(m, a)) == One(Bears(m, db.attempts[a]))
  {
    var db := Exec(rules, Empty(now), run);
    RowsHoldAlways(rules, now, run);
    forall a: nat | a < |db.attempts|
      ensures CountAction(db.audit, ActionOf(m, a)) == One(Bears(m, db.attempts[a]))
    {
      assert RowsKept.RowHolds(db, a);
    }
    forall i | 0 <= i < |db.audit| && Records(m, db.audit[i].action)
      ensures db.audit[i].action.attempt < |db.attempts|
    {
      var a := db.audit[i].action.attempt;
      NeverCounted(db.audit, ActionOf(m, a), i);
      assert a >= |db.attempts| ==> RowsKept.NothingAbout(db, a);
    }
    RecordsSplit(m, db.audit, |db.attempts|);
    BearingSplit(m, db.attempts, db.audit);
  }

  // ----- Deadlines, on careful runs -----

  /** While publishes of the quiz can give nobody two, a student never has two unexpired attempts on it. */
  lemma {:induction false} OneOpenAtATime(rules: TextRules, now: Time, run: seq<Action>, q: QuizId, s: UserId,
                                          i: AttemptId, j: AttemptId)
    requires TwoOpen.OneCareful(rules, Empty(now), run, q)
    ensures var db := Exec(rules, Empty(now), run);
            && i < |db.attempts| && j < |db.attempts|
            && Open(db.attempts[i], q, s, db.now) && Open(db.attempts[j], q, s, db.now) ==>
              i == j
  {
    var db := Exec(rules, Empty(now), run);
    TwoOpen.OneOpenAlways(rules, now, run, q);
    var first, second := if i < j then i else j, if i < j then j else i;
    if first < second < |db.attempts| && Same(db.attempts[first], q, s) && Same(db.attempts[second], q, s) {
      assert !Windows.BothOpen(db.attempts[first], db.attempts[second], db.now);
    }
  }

  /** While publishes find no running attempt: every running attempt is on a quiz that has opened, and as
      long as that is scheduled or live its deadline is the personal budget clamped to the window. */
  lemma {:induction false} DeadlinesAreClamped(rules: TextRules, now: Time, run: seq<Action>, i: AttemptId, q: QuizId)
    requires Careful(Windows.FindsNoneRunning, rules, Empty(now), run, q)
    ensures var db := Exec(rules, Empty(now), run);
            i < |db.attempts| && db.attempts[i].quiz == q && db.attempts[i].status.InProgress? ==>
              && q < |db.quizzes| && !Windows.Unopened(db.quizzes[q], db.now)
              && (Windows.Opening(db.quizzes[q].status) ==>
                    db.quizzes[q].endsAt.Some?
                    && db.attempts[i].deadlineAt
                       == Deadline(db.attempts[i].startedAt, db.quizzes[q].durationSec, db.quizzes[q].endsAt.value))
  {
    WindowsHoldOnCarefulRuns(Windows.FindsNoneRunning, rules, now, run, q);
  }
}
