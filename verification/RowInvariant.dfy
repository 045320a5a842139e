/** What every attempt row keeps through every transaction, whatever the interleaving: agreement with
    its event stream and audit rows, the shape of each status, the violation ladder and the score bounds. */
module RowInvariant {
  import opened Common
  import opened Grading
  import opened Schema
  import opened Transactions
  import opened EventLog
  import Json

  // ----- Audit rows about one attempt -----

  function CountAction(audit: seq<AuditRow>, action: AuditAction): nat {
    if audit == [] then 0
    else CountAction(audit[..|audit| - 1], action) + (if audit[|audit| - 1].action == action then 1 else 0)
  }

  datatype Marks = Marks(kicks: nat, readmits: nat, overrides: nat)

  function MarksOf(audit: seq<AuditRow>, a: AttemptId): Marks {
    Marks(CountAction(audit, AttemptKicked(a)), CountAction(audit, AttemptReadmitted(a)),
          CountAction(audit, ScoreOverridden(a)))
  }

  function One(b: bool): nat {
    if b then 1 else 0
  }

  function MarksOn(row: Attempt): Marks {
    Marks(One(row.kind == Some(ByKick)), One(row.readmittedAt.Some?), One(row.overriddenAt.Some?))
  }

  // ----- The row invariant -----

  predicate ShapeOk(row: Attempt) {
    && (row.status.InProgress? <==> row.kind.None?)
    && (row.status.InProgress? <==> row.submittedAt.None?)
    && (row.status.Graded? <==> row.score.Some?)
    && (row.status.Kicked? ==> row.kind == Some(ByKick))
    && (row.status.Submitted? ==> row.kind != Some(ByKick))
    && (row.readmittedAt.Some? ==> row.kind == Some(ByKick))
    && (row.overriddenAt.Some? ==> row.kind == Some(ByKick) && row.score == Some(0.0))
  }

  predicate LadderOk(g: Guardrails, row: Attempt) {
    g.action == AutoSubmit && g.maxViolations >= 1 ==>
      && row.violations <= g.maxViolations
      && (row.status.InProgress? ==> row.violations < g.maxViolations)
  }

  predicate ScoreOk(snapshot: Snapshot, row: Attempt) {
    row.score.Some? ==> 0.0 <= row.score.value <= MaxScore(snapshot.questions)
  }

  /** The reports on record that the pinned policy counts. */
  function CountedReports(g: Guardrails, events: seq<Event>): nat {
    if events == [] then 0
    else
      var last := events[|events| - 1];
      CountedReports(g, events[..|events| - 1])
      + One(last.Violation? && GuardrailPolicy(g, last.vtype).Count?)
  }

  /** The tally is the counted reports, and nothing a guardrail has off is on record. */
  predicate EvidenceOk(g: Guardrails, row: Attempt, events: seq<Event>) {
    && row.violations == CountedReports(g, events)
    && forall i | 0 <= i < |events| && events[i].Violation? :: !GuardrailPolicy(g, events[i].vtype).Off?
  }

  lemma CountedSnoc(g: Guardrails, events: seq<Event>, e: Event)
    ensures CountedReports(g, events + [e])
         == CountedReports(g, events) + One(e.Violation? && GuardrailPolicy(g, e.vtype).Count?)
  {
    assert (events + [e])[..|events|] == events;
  }

  predicate RowOk(snapshot: Snapshot, row: Attempt, events: seq<Event>, marks: Marks) {
    && Agrees(row, Replay(events))
    && ShapeOk(row)
    && marks == MarksOn(row)
    && LadderOk(snapshot.guardrails, row)
    && EvidenceOk(snapshot.guardrails, row, events)
    && ScoreOk(snapshot, row)
  }

  // ----- Each transaction on its own row -----

  lemma StartedRowOk(snapshot: Snapshot, q: QuizId, s: UserId, no: nat, version: nat, now: Time, deadline: Time)
    ensures RowOk(snapshot, NewAttempt(q, s, no, version, now, deadline), [Started(s, deadline)], Marks(0, 0, 0))
  {
    assert [Started(s, deadline)][..0] == [];
    assert Replay([Started(s, deadline)]) == Fold(NOTHING, Started(s, deadline));
    assert AnsweredIds(map[]) == {};
    assert CountedReports(snapshot.guardrails, []) == 0;
  }

  lemma SavedRowOk(snapshot: Snapshot, row: Attempt, events: seq<Event>, marks: Marks,
                   id: QuestionId, response: Json.Value, timeSpentMs: nat, ordinal: nat, now: Time)
    requires RowOk(snapshot, row, events, marks) && row.status.InProgress?
    ensures var row' := Saved(row, id, response, timeSpentMs, ordinal, now);
            RowOk(snapshot, row', events + [Progress(ordinal, AnsweredCount(row'.answers))], marks)
  {
    ReplayAppend(events, Progress(ordinal, AnsweredCount(Saved(row, id, response, timeSpentMs, ordinal, now).answers)));
    CountedSnoc(snapshot.guardrails, events,
                Progress(ordinal, AnsweredCount(Saved(row, id, response, timeSpentMs, ordinal, now).answers)));
  }

  lemma TerminatedRowOk(snapshot: Snapshot, row: Attempt, events: seq<Event>, marks: Marks, kind: SubmitKind, now: Time)
    requires RowOk(snapshot, row, events, marks) && row.status.InProgress? && kind != ByKick
    ensures RowOk(snapshot, Terminated(row, kind, now), events + [TerminatedEvent(row, kind)], marks)
  {
    ReplayAppend(events, TerminatedEvent(row, kind));
    CountedSnoc(snapshot.guardrails, events, TerminatedEvent(row, kind));
  }

  /** A report that leaves the attempt running: the ladder bound survives because a firing
      auto-submit would have ended it. */
  lemma ReportedRowOk(snapshot: Snapshot, row: Attempt, events: seq<Event>, marks: Marks,
                      v: ViolationType, d: Option<nat>, counted: bool)
    requires RowOk(snapshot, row, events, marks) && row.status.InProgress?
    requires GuardrailPolicy(snapshot.guardrails, v) == if counted then Count else Warn
    requires counted ==> !(LadderFires(snapshot.guardrails, row.violations + 1)
                           && snapshot.guardrails.action == AutoSubmit)
    ensures var row' := if counted then row.(violations := row.violations + 1) else row;
            RowOk(snapshot, row', events + [Violation(v, d, row'.violations)], marks)
  {
    var row' := if counted then row.(violations := row.violations + 1) else row;
    ReplayAppend(events, Violation(v, d, row'.violations));
    CountedSnoc(snapshot.guardrails, events, Violation(v, d, row'.violations));
  }

  lemma AutoSubmittedRowOk(snapshot: Snapshot, row: Attempt, events: seq<Event>, marks: Marks,
                           v: ViolationType, d: Option<nat>, now: Time)
    requires RowOk(snapshot, row, events, marks) && row.status.InProgress?
    requires GuardrailPolicy(snapshot.guardrails, v).Count?
    ensures var counted := row.(violations := row.violations + 1);
            RowOk(snapshot, Terminated(counted, ByDeadline, now),
                  events + [Violation(v, d, counted.violations), TerminatedEvent(counted, ByDeadline)], marks)
  {
    var counted := row.(violations := row.violations + 1);
    var reported := Violation(v, d, counted.violations);
    ReplayAppend(events, reported);
    CountedSnoc(snapshot.guardrails, events, reported);
    ReplayAppend(events + [reported], TerminatedEvent(counted, ByDeadline));
    CountedSnoc(snapshot.guardrails, events + [reported], TerminatedEvent(counted, ByDeadline));
    assert events + [reported, TerminatedEvent(counted, ByDeadline)]
        == (events + [reported]) + [TerminatedEvent(counted, ByDeadline)];
  }

  lemma KickedRowOk(snapshot: Snapshot, row: Attempt, events: seq<Event>, marks: Marks,
                    moderator: UserId, reason: string, now: Time)
    requires RowOk(snapshot, row, events, marks) && row.status.InProgress?
    ensures RowOk(snapshot, KickedRow(row, moderator, now), events + [KickedEvent(moderator, reason)],
                  marks.(kicks := marks.kicks + 1))
  {
    ReplayAppend(events, KickedEvent(moderator, reason));
    CountedSnoc(snapshot.guardrails, events, KickedEvent(moderator, reason));
  }

  lemma ReadmittedRowOk(snapshot: Snapshot, row: Attempt, events: seq<Event>, marks: Marks, now: Time)
    requires RowOk(snapshot, row, events, marks) && row.status.Kicked? && row.readmittedAt.None?
    ensures RowOk(snapshot, row.(readmittedAt := Some(now)), events, marks.(readmits := marks.readmits + 1))
  {
  }

  lemma OverriddenRowOk(snapshot: Snapshot, row: Attempt, events: seq<Event>, marks: Marks, now: Time)
    requires RowOk(snapshot, row, events, marks) && FairMarks(snapshot.questions)
    requires row.status.Graded? && row.kind == Some(ByKick) && row.overriddenAt.None?
    ensures RowOk(snapshot, row.(score := Some(0.0), overriddenAt := Some(now)), events,
                  marks.(overrides := marks.overrides + 1))
  {
  }

  lemma ConnectionRowOk(snapshot: Snapshot, row: Attempt, events: seq<Event>, marks: Marks, e: Event)
    requires RowOk(snapshot, row, events, marks) && Connectivity(e)
    ensures RowOk(snapshot, row, events + [e], marks)
  {
    ReplayAppend(events, e);
    CountedSnoc(snapshot.guardrails, events, e);
  }

  lemma GradedRowOk(rules: TextRules, snapshot: Snapshot, row: Attempt, events: seq<Event>, marks: Marks)
    requires RowOk(snapshot, row, events, marks) && FairMarks(snapshot.questions)
    requires row.status.Submitted? || row.status.Kicked?
    ensures var row' := GradedRow(rules, row, snapshot);
            RowOk(snapshot, row', events + [GradedEvent(row'.score.value)], marks)
  {
    var row' := GradedRow(rules, row, snapshot);
    ReplayAppend(events, GradedEvent(row'.score.value));
    CountedSnoc(snapshot.guardrails, events, GradedEvent(row'.score.value));
    ScoreWithinBounds(rules, snapshot.questions, row.answers);
    assert AnsweredIds(row'.answers) == AnsweredIds(row.answers);
  }

  lemma RedeadlinedRowOk(snapshot: Snapshot, row: Attempt, events: seq<Event>, marks: Marks, deadline: Time)
    requires RowOk(snapshot, row, events, marks)
    ensures RowOk(snapshot, row.(deadlineAt := deadline), events, marks)
  {
  }
}
