/** The row invariant, kept for every attempt of the database by every transaction. No assumption on
    what the callers ask for or in what order. */
module RowsKept {
  import opened Common
  import opened Grading
  import opened Schema
  import opened Transactions
  import opened EventLog
  import opened RowInvariant
  import Json

  // ----- The log and the audit trail, per attempt -----

  lemma {:induction false} OfConcat(l: seq<Entry>, m: seq<Entry>, a: AttemptId)
    ensures Of(l + m, a) == Of(l, a) + Of(m, a)
  {
    if m == [] {
      assert l + m == l;
    } else {
      OfConcat(l, m[..|m| - 1], a);
      assert (l + m)[..|l + m| - 1] == l + m[..|m| - 1];
    }
  }

  lemma OfSnoc(l: seq<Entry>, e: Entry, a: AttemptId)
    ensures Of(l + [e], a) == if e.attempt == a then Of(l, a) + [e.event] else Of(l, a)
  {
    assert (l + [e])[..|l|] == l;
  }

  lemma {:induction false} OfTagged(b: AttemptId, events: seq<Event>, a: AttemptId)
    ensures Of(Tagged(b, events), a) == if a == b then events else []
  {
    if events != [] {
      OfTagged(b, events[..|events| - 1], a);
      var t := Tagged(b, events);
      assert t[..|t| - 1] == Tagged(b, events[..|events| - 1]);
    }
  }

  lemma {:induction false} CountConcat(l: seq<AuditRow>, m: seq<AuditRow>, action: AuditAction)
    ensures CountAction(l + m, action) == CountAction(l, action) + CountAction(m, action)
  {
    if m == [] {
      assert l + m == l;
    } else {
      CountConcat(l, m[..|m| - 1], action);
      assert (l + m)[..|l + m| - 1] == l + m[..|m| - 1];
    }
  }

  lemma MarksAppend(audit: seq<AuditRow>, row: AuditRow, a: AttemptId)
    ensures MarksOf(audit + [row], a) ==
            var m := MarksOf(audit, a);
            Marks(m.kicks + One(row.action == AttemptKicked(a)), m.readmits + One(row.action == AttemptReadmitted(a)),
                  m.overrides + One(row.action == ScoreOverridden(a)))
  {
    assert (audit + [row])[..|audit|] == audit;
  }

  // ----- The invariant -----

  predicate QuizSound(z: Quiz) {
    && (z.status != Draft ==> z.versions != [])
    && z.defaultPoints > 0.0 && z.defaultPenalty >= 0.0 && DraftMarksOk(z.questions)
    && forall v | 0 <= v < |z.versions| :: FairMarks(z.versions[v].questions)
  }

  predicate RowHolds(db: DB, i: AttemptId)
    requires i < |db.attempts|
  {
    && PinnedSnapshot(db.quizzes, db.attempts[i]).Some?
    && RowOk(PinnedSnapshot(db.quizzes, db.attempts[i]).value, db.attempts[i], Of(db.log, i), MarksOf(db.audit, i))
  }

  /** Every event and every audit row about an attempt is about one that exists. */
  predicate NothingAbout(db: DB, a: AttemptId) {
    Of(db.log, a) == [] && MarksOf(db.audit, a) == Marks(0, 0, 0)
  }

  ghost predicate RowsOk(db: DB) {
    && (forall q | 0 <= q < |db.quizzes| :: QuizSound(db.quizzes[q]))
    && (forall i: nat | i < |db.attempts| :: RowHolds(db, i))
    && (forall a: nat | a >= |db.attempts| :: NothingAbout(db, a))
  }

  // ----- Frames -----

  /** The published versions only ever grow. */
  predicate VersionsGrow(before: seq<Quiz>, after: seq<Quiz>) {
    && |before| <= |after|
    && forall q | 0 <= q < |before| :: before[q].versions <= after[q].versions
  }

  lemma PinnedStays(before: seq<Quiz>, after: seq<Quiz>, row: Attempt)
    requires VersionsGrow(before, after) && PinnedSnapshot(before, row).Some?
    ensures PinnedSnapshot(after, row) == PinnedSnapshot(before, row)
  {
  }

  /** Nothing about attempt a moved. */
  predicate Untouched(db: DB, db': DB, a: AttemptId) {
    && (a < |db.attempts| <==> a < |db'.attempts|)
    && (a < |db.attempts| ==> db'.attempts[a] == db.attempts[a])
    && Of(db'.log, a) == Of(db.log, a)
    && MarksOf(db'.audit, a) == MarksOf(db.audit, a)
  }

  /** If every attempt is either untouched or shown to hold again, the invariant is kept. */
  lemma Carry(db: DB, db': DB)
    requires RowsOk(db) && VersionsGrow(db.quizzes, db'.quizzes)
    requires forall q | 0 <= q < |db'.quizzes| :: QuizSound(db'.quizzes[q])
    requires forall a: nat :: Untouched(db, db', a) || (a < |db'.attempts| && RowHolds(db', a))
    ensures RowsOk(db')
  {
    forall i: nat | i < |db'.attempts|
      ensures RowHolds(db', i)
    {
      if Untouched(db, db', i) {
        assert RowHolds(db, i);
        PinnedStays(db.quizzes, db'.quizzes, db.attempts[i]);
      }
    }
    forall a: nat | a >= |db'.attempts|
      ensures NothingAbout(db', a)
    {
      assert Untouched(db, db', a);
      assert NothingAbout(db, a);
    }
  }

  lemma WithAttemptLog(db: DB, a: AttemptId, row: Attempt, events: seq<Event>, i: AttemptId)
    requires a < |db.attempts|
    ensures Of(WithAttempt(db, a, row, events).log, i) == if i == a then Of(db.log, i) + events else Of(db.log, i)
  {
    OfConcat(db.log, Tagged(a, events), i);
    OfTagged(a, events, i);
  }

  /** Rewriting one attempt. */
  lemma RewriteKeeps(db: DB, a: AttemptId, row: Attempt, events: seq<Event>)
    requires RowsOk(db) && a < |db.attempts| && RowHolds(db, a)
    requires row.quiz == db.attempts[a].quiz && row.version == db.attempts[a].version
    requires RowOk(PinnedSnapshot(db.quizzes, db.attempts[a]).value, row, Of(db.log, a) + events, MarksOf(db.audit, a))
    ensures RowsOk(WithAttempt(db, a, row, events))
  {
    var db' := WithAttempt(db, a, row, events);
    forall i: nat
      ensures Untouched(db, db', i) || (i < |db'.attempts| && RowHolds(db', i))
    {
      WithAttemptLog(db, a, row, events, i);
    }
    Carry(db, db');
  }

  /** Rewriting one attempt with the audit row that records it. */
  lemma AuditedRewriteKeeps(db: DB, a: AttemptId, row: Attempt, events: seq<Event>, actor: Actor, action: AuditAction)
    requires RowsOk(db) && a < |db.attempts| && RowHolds(db, a)
    requires action in {AttemptKicked(a), AttemptReadmitted(a), ScoreOverridden(a)}
    requires row.quiz == db.attempts[a].quiz && row.version == db.attempts[a].version
    requires RowOk(PinnedSnapshot(db.quizzes, db.attempts[a]).value, row, Of(db.log, a) + events,
                   MarksOf(db.audit + [AuditRow(actor.id, action)], a))
    ensures RowsOk(Audited(WithAttempt(db, a, row, events), actor, action))
  {
    var db' := Audited(WithAttempt(db, a, row, events), actor, action);
    forall i: nat
      ensures Untouched(db, db', i) || (i < |db'.attempts| && RowHolds(db', i))
    {
      WithAttemptLog(db, a, row, events, i);
      if i == a {
        assert RowHolds(db', a);
      } else {
        MarksAppend(db.audit, AuditRow(actor.id, action), i);
        assert Untouched(db, db', i);
      }
    }
    Carry(db, db');
  }

  predicate AboutQuiz(action: AuditAction) {
    !action.AttemptKicked? && !action.AttemptReadmitted? && !action.ScoreOverridden?
  }

  /** Rewriting one quiz, audited or not. */
  lemma QuizRewriteKeeps(db: DB, q: QuizId, z: Quiz, actor: Actor, action: AuditAction)
    requires RowsOk(db) && q < |db.quizzes| && AboutQuiz(action)
    requires db.quizzes[q].versions <= z.versions && QuizSound(z)
    ensures RowsOk(WithQuiz(db, q, z)) && RowsOk(Audited(WithQuiz(db, q, z), actor, action))
  {
    var plain := WithQuiz(db, q, z);
    var audited := Audited(plain, actor, action);
    assert forall i: nat :: Untouched(db, plain, i);
    Carry(db, plain);
    forall i: nat
      ensures Untouched(db, audited, i)
    {
      MarksAppend(db.audit, AuditRow(actor.id, action), i);
    }
    Carry(db, audited);
  }

  // ----- One lemma per transaction -----

  lemma TickKeeps(db: DB, now: Time)
    requires RowsOk(db)
    ensures RowsOk(db.(now := now))
  {
    assert forall i: nat :: Untouched(db, db.(now := now), i);
    Carry(db, db.(now := now));
  }

  lemma StartKeeps(db: DB, actor: Actor, q: QuizId)
    requires RowsOk(db)
    ensures RowsOk(Start(db, actor, q).db)
  {
    var db' := Start(db, actor, q).db;
    if Start(db, actor, q).out.Began? {
      var a := |db.attempts|;
      var row := db'.attempts[a];
      assert QuizSound(db.quizzes[q]);
      forall i: nat
        ensures Untouched(db, db', i) || (i < |db'.attempts| && RowHolds(db', i))
      {
        var added := Entry(a, Started(actor.id, row.deadlineAt));
        assert (db.log + [added])[..|db.log|] == db.log;
        if i == a {
          assert NothingAbout(db, a);
          StartedRowOk(PinnedSnapshot(db.quizzes, row).value, q, actor.id, row.no, row.version, db.now, row.deadlineAt);
        }
      }
      Carry(db, db');
    }
  }

  lemma SaveAnswerKeeps(db: DB, actor: Actor, a: AttemptId, id: QuestionId, response: Json.Value, ms: nat)
    requires RowsOk(db)
    ensures RowsOk(SaveAnswer(db, actor, a, id, response, ms).db)
  {
    if WriteGate(db, actor, a).None? && SnapshotOrdinal(db, db.attempts[a], id).Some? {
      var row, ordinal := db.attempts[a], SnapshotOrdinal(db, db.attempts[a], id).value;
      assert RowHolds(db, a);
      SavedRowOk(PinnedSnapshot(db.quizzes, row).value, row, Of(db.log, a), MarksOf(db.audit, a),
                 id, response, ms, ordinal, db.now);
      var row' := Saved(row, id, response, ms, ordinal, db.now);
      RewriteKeeps(db, a, row', [Progress(ordinal, AnsweredCount(row'.answers))]);
    }
  }

  lemma TerminateKeeps(db: DB, a: AttemptId, kind: SubmitKind)
    requires RowsOk(db) && a < |db.attempts| && db.attempts[a].status.InProgress? && kind != ByKick
    ensures RowsOk(WithAttempt(db, a, Terminated(db.attempts[a], kind, db.now),
                               [TerminatedEvent(db.attempts[a], kind)]))
  {
    var row := db.attempts[a];
    assert RowHolds(db, a);
    TerminatedRowOk(PinnedSnapshot(db.quizzes, row).value, row, Of(db.log, a), MarksOf(db.audit, a), kind, db.now);
    RewriteKeeps(db, a, Terminated(row, kind, db.now), [TerminatedEvent(row, kind)]);
  }

  lemma SubmitManualKeeps(db: DB, actor: Actor, a: AttemptId)
    requires RowsOk(db)
    ensures RowsOk(SubmitManual(db, actor, a).db)
  {
    if Owns(actor, db, a) && db.attempts[a].status.InProgress? {
      TerminateKeeps(db, a, ByStudent);
    }
  }

  lemma ReportViolationKeeps(db: DB, actor: Actor, a: AttemptId, v: ViolationType, d: Option<nat>)
    requires RowsOk(db)
    ensures RowsOk(ReportViolation(db, actor, a, v, d).db)
  {
    if Owns(actor, db, a) && db.attempts[a].status.InProgress? {
      var row := db.attempts[a];
      assert RowHolds(db, a);
      var snapshot := PinnedSnapshot(db.quizzes, row).value;
      var events, marks := Of(db.log, a), MarksOf(db.audit, a);
      match GuardrailPolicy(snapshot.guardrails, v)
      case Off =>
      case Warn =>
        ReportedRowOk(snapshot, row, events, marks, v, d, false);
        RewriteKeeps(db, a, row, [Violation(v, d, row.violations)]);
      case Count =>
        var counted := row.(violations := row.violations + 1);
        var reported := Violation(v, d, counted.violations);
        if LadderFires(snapshot.guardrails, counted.violations) && snapshot.guardrails.action == AutoSubmit {
          AutoSubmittedRowOk(snapshot, row, events, marks, v, d, db.now);
          RewriteKeeps(db, a, Terminated(counted, ByDeadline, db.now),
                       [reported, TerminatedEvent(counted, ByDeadline)]);
        } else {
          ReportedRowOk(snapshot, row, events, marks, v, d, true);
          RewriteKeeps(db, a, counted, [reported]);
        }
    }
  }

  lemma KickKeeps(db: DB, actor: Actor, a: AttemptId, reason: string)
    requires RowsOk(db)
    ensures RowsOk(Kick(db, actor, a, reason).db)
  {
    if Moderates(actor, db, a) && db.attempts[a].status.InProgress? {
      var row := db.attempts[a];
      assert RowHolds(db, a);
      KickedRowOk(PinnedSnapshot(db.quizzes, row).value, row, Of(db.log, a), MarksOf(db.audit, a), actor.id, reason,
                  db.now);
      MarksAppend(db.audit, AuditRow(actor.id, AttemptKicked(a)), a);
      AuditedRewriteKeeps(db, a, KickedRow(row, actor.id, db.now), [KickedEvent(actor.id, reason)], actor,
                          AttemptKicked(a));
    }
  }

  lemma ReadmitKeeps(db: DB, actor: Actor, a: AttemptId)
    requires RowsOk(db)
    ensures RowsOk(Readmit(db, actor, a).db)
  {
    if Moderates(actor, db, a) && db.attempts[a].status.Kicked? && db.attempts[a].readmittedAt.None? {
      var row := db.attempts[a];
      assert RowHolds(db, a) && Of(db.log, a) + [] == Of(db.log, a);
      ReadmittedRowOk(PinnedSnapshot(db.quizzes, row).value, row, Of(db.log, a), MarksOf(db.audit, a), db.now);
      MarksAppend(db.audit, AuditRow(actor.id, AttemptReadmitted(a)), a);
      AuditedRewriteKeeps(db, a, row.(readmittedAt := Some(db.now)), [], actor, AttemptReadmitted(a));
    }
  }

  lemma PinnedIsFair(db: DB, a: AttemptId)
    requires RowsOk(db) && a < |db.attempts|
    ensures PinnedSnapshot(db.quizzes, db.attempts[a]).Some?
    ensures FairMarks(PinnedSnapshot(db.quizzes, db.attempts[a]).value.questions)
  {
    assert RowHolds(db, a);
    assert QuizSound(db.quizzes[db.attempts[a].quiz]);
  }

  lemma OverrideScoreKeeps(db: DB, actor: Actor, a: AttemptId)
    requires RowsOk(db)
    ensures RowsOk(OverrideScore(db, actor, a).db)
  {
    if Moderates(actor, db, a) && db.attempts[a].kind == Some(ByKick) && db.attempts[a].status.Graded?
       && db.attempts[a].overriddenAt.None? {
      var row := db.attempts[a];
      assert RowHolds(db, a) && Of(db.log, a) + [] == Of(db.log, a);
      PinnedIsFair(db, a);
      OverriddenRowOk(PinnedSnapshot(db.quizzes, row).value, row, Of(db.log, a), MarksOf(db.audit, a), db.now);
      MarksAppend(db.audit, AuditRow(actor.id, ScoreOverridden(a)), a);
      AuditedRewriteKeeps(db, a, row.(score := Some(0.0), overriddenAt := Some(db.now)), [], actor, ScoreOverridden(a));
    }
  }

  lemma LogConnectivityKeeps(db: DB, a: AttemptId, e: Event)
    requires RowsOk(db)
    ensures RowsOk(LogConnectivity(db, a, e).db)
  {
    if a < |db.attempts| && Connectivity(e) {
      var row := db.attempts[a];
      assert RowHolds(db, a);
      ConnectionRowOk(PinnedSnapshot(db.quizzes, row).value, row, Of(db.log, a), MarksOf(db.audit, a), e);
      RewriteKeeps(db, a, row, [e]);
    }
  }

  lemma GradeOneKeeps(rules: TextRules, db: DB, a: AttemptId)
    requires RowsOk(db)
    ensures RowsOk(GradeOne(rules, db, a))
  {
    if a < |db.attempts| && (db.attempts[a].status.Submitted? || db.attempts[a].status.Kicked?) {
      var row := db.attempts[a];
      assert RowHolds(db, a);
      PinnedIsFair(db, a);
      var snapshot := PinnedSnapshot(db.quizzes, row).value;
      GradedRowOk(rules, snapshot, row, Of(db.log, a), MarksOf(db.audit, a));
      var row' := GradedRow(rules, row, snapshot);
      RewriteKeeps(db, a, row', [GradedEvent(row'.score.value)]);
    }
  }

  lemma PublishKeeps(db: DB, actor: Actor, q: QuizId, input: PublishInput)
    requires RowsOk(db)
    ensures RowsOk(Publish(db, actor, q, input).db)
  {
    if Publish(db, actor, q, input).out.Done? {
      var z := db.quizzes[q];
      assert QuizSound(z);
      var resolved := ResolveAll(z.questions, z);
      forall x | x in resolved
        ensures x.points >= 0.0 && x.penalty >= 0.0
      {
        var i :| 0 <= i < |resolved| && resolved[i] == x;
        assert resolved[i] == Resolve(z.questions[i], z);
      }
      assert QuizSound(Published(z, input));
      QuizRewriteKeeps(db, q, Published(z, input), actor, QuizPublished(q));
    }
  }

  /** Every quiz transaction that leaves the versions and the marking scheme alone. */
  lemma QuizStatusKeeps(db: DB, actor: Actor, q: QuizId, students: set<UserId>)
    requires RowsOk(db)
    ensures RowsOk(Cancel(db, actor, q).db) && RowsOk(ForceClose(db, actor, q).db)
    ensures RowsOk(Archive(db, actor, q).db) && RowsOk(ReleaseResults(db, actor, q).db)
    ensures RowsOk(SetAssignments(db, actor, q, students).db)
  {
    if q < |db.quizzes| {
      var z := db.quizzes[q];
      assert QuizSound(z);
      QuizRewriteKeeps(db, q, z.(status := Draft, startsAt := None, endsAt := None), actor, QuizCancelled(q));
      if z.status != Draft {
        QuizRewriteKeeps(db, q, z.(status := Closed, endsAt := Some(db.now)), actor, QuizForceClosed(q));
        QuizRewriteKeeps(db, q, z.(status := Archived), actor, QuizArchived(q));
        var status := if z.status == Archived then Archived else Closed;
        QuizRewriteKeeps(db, q, z.(status := status, releasedAt := Some(db.now)), actor, ResultsReleased(q));
      }
      QuizRewriteKeeps(db, q, z.(audience := students), actor, AssignmentsSet(q));
    }
  }

  lemma ExtendKeeps(db: DB, actor: Actor, q: QuizId, newEndsAt: Time)
    requires RowsOk(db)
    ensures RowsOk(Extend(db, actor, q, newEndsAt).db)
  {
    if Extend(db, actor, q, newEndsAt).out.Done? {
      var db' := Extend(db, actor, q, newEndsAt).db;
      forall i: nat
        ensures Untouched(db, db', i) || (i < |db'.attempts| && RowHolds(db', i))
      {
        MarksAppend(db.audit, AuditRow(actor.id, QuizExtended(q)), i);
        if i < |db.attempts| {
          assert RowHolds(db, i);
          PinnedStays(db.quizzes, db'.quizzes, db.attempts[i]);
          RedeadlinedRowOk(PinnedSnapshot(db.quizzes, db.attempts[i]).value, db.attempts[i], Of(db.log, i),
                           MarksOf(db.audit, i), db'.attempts[i].deadlineAt);
        }
      }
      assert QuizSound(db.quizzes[q]);
      Carry(db, db');
    }
  }

  lemma EditDraftKeeps(db: DB, actor: Actor, q: QuizId, questions: seq<DraftQuestion>, maxAttempts: nat,
                       points: real, penalty: real)
    requires RowsOk(db)
    ensures RowsOk(EditDraft(db, actor, q, questions, maxAttempts, points, penalty).db)
  {
    var step := EditDraft(db, actor, q, questions, maxAttempts, points, penalty);
    if step.out.Done? {
      assert QuizSound(db.quizzes[q]);
      QuizRewriteKeeps(db, q, step.db.quizzes[q], actor, AssignmentsSet(q));
    }
  }

  lemma CreateQuizKeeps(db: DB, actor: Actor)
    requires RowsOk(db)
    ensures RowsOk(CreateQuiz(db, actor).db)
  {
    var db' := CreateQuiz(db, actor).db;
    assert forall i: nat :: Untouched(db, db', i);
    Carry(db, db');
  }

  /** A sweep over the quizzes that leaves versions and marking schemes alone. */
  lemma QuizSweepKeeps(db: DB, db': DB)
    requires RowsOk(db) && db' == db.(quizzes := db'.quizzes) && |db'.quizzes| == |db.quizzes|
    requires forall q | 0 <= q < |db.quizzes| ::
               QuizSound(db'.quizzes[q]) && db'.quizzes[q].versions == db.quizzes[q].versions
    ensures RowsOk(db')
  {
    assert forall i: nat :: Untouched(db, db', i);
    Carry(db, db');
  }

  lemma SweepQuizzesKeeps(db: DB)
    requires RowsOk(db)
    ensures RowsOk(SweepQuizzes(db))
  {
    QuizSweepKeeps(db, SweepQuizzes(db));
  }

  lemma ReleaseDueResultsKeeps(db: DB)
    requires RowsOk(db)
    ensures RowsOk(ReleaseDueResults(db))
  {
    QuizSweepKeeps(db, ReleaseDueResults(db));
  }

  lemma RollupOneKeeps(db: DB, q: QuizId)
    requires RowsOk(db)
    ensures RowsOk(RollupOne(db, q))
  {
    if q < |db.quizzes| {
      assert QuizSound(db.quizzes[q]);
    }
    QuizSweepKeeps(db, RollupOne(db, q));
  }

  lemma {:induction false} OfSweptEvents(db: DB, kind: SubmitKind, n: nat, a: AttemptId)
    requires n <= |db.attempts|
    ensures Of(SweptEvents(db, kind, n), a) ==
            if a < n && DueFor(db, kind, db.attempts[a]) then [TerminatedEvent(db.attempts[a], kind)] else []
  {
    if n > 0 {
      OfSweptEvents(db, kind, n - 1, a);
      if DueFor(db, kind, db.attempts[n - 1]) {
        var added := Entry(n - 1, TerminatedEvent(db.attempts[n - 1], kind));
        assert SweptEvents(db, kind, n) == SweptEvents(db, kind, n - 1) + [added];
        OfSnoc(SweptEvents(db, kind, n - 1), added, a);
      } else {
        assert SweptEvents(db, kind, n) == SweptEvents(db, kind, n - 1);
      }
    }
  }

  lemma OfSwept(db: DB, kind: SubmitKind, i: nat)
    ensures Of(SweepSubmit(db, kind).log, i) ==
            if i < |db.attempts| && DueFor(db, kind, db.attempts[i])
            then Of(db.log, i) + [TerminatedEvent(db.attempts[i], kind)] else Of(db.log, i)
  {
    OfConcat(db.log, SweptEvents(db, kind, |db.attempts|), i);
    OfSweptEvents(db, kind, |db.attempts|, i);
    assert Of(db.log, i) + [] == Of(db.log, i);
  }

  lemma SweptRow(db: DB, kind: SubmitKind, i: nat)
    requires RowsOk(db) && kind != ByKick
    ensures var db' := SweepSubmit(db, kind);
            Untouched(db, db', i) || (i < |db'.attempts| && RowHolds(db', i))
  {
    OfSwept(db, kind, i);
    if i < |db.attempts| && DueFor(db, kind, db.attempts[i]) {
      var row := db.attempts[i];
      assert RowHolds(db, i);
      TerminatedRowOk(PinnedSnapshot(db.quizzes, row).value, row, Of(db.log, i), MarksOf(db.audit, i), kind, db.now);
      assert RowHolds(SweepSubmit(db, kind), i);
    } else {
      assert Untouched(db, SweepSubmit(db, kind), i);
    }
  }

  /** A set-based termination ends each due attempt once and appends one event for it. */
  lemma SweepSubmitKeeps(db: DB, kind: SubmitKind)
    requires RowsOk(db) && kind != ByKick
    ensures RowsOk(SweepSubmit(db, kind))
  {
    forall i: nat {
      SweptRow(db, kind, i);
    }
    Carry(db, SweepSubmit(db, kind));
  }

  lemma SweepAttemptsKeeps(db: DB)
    requires RowsOk(db)
    ensures RowsOk(SweepAttempts(db))
  {
    SweepSubmitKeeps(db, ByDeadline);
    SweepSubmitKeeps(SweepSubmit(db, ByDeadline), ByClose);
  }
}
