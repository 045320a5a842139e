/** The append-only attempt_events log as a source of truth (server/internal/attempt/events.go), and
    the live roster that must agree with it (server/internal/quiz/live.go). */
module EventLog {
  import opened Common
  import opened Schema

  // ----- Folding the log -----

  /** Where the fold has taken an attempt. Broken is the sink every impossible order falls into. */
  datatype Phase = Absent | Running | Ended(kind: SubmitKind) | Scored(kind: SubmitKind) | Broken

  /** Evidence of one violation type: how many reports, and the sum of the durations reported. */
  datatype Tally = Tally(count: nat, durationMs: Option<nat>)

  datatype Replayed = Replayed(phase: Phase, answered: nat, question: Option<nat>, violations: nat,
                               disconnected: bool, tallies: map<ViolationType, Tally>)

  const NOTHING := Replayed(Absent, 0, None, 0, false, map[])

  function AddDuration(total: Option<nat>, more: Option<nat>): Option<nat> {
    match more
    case None => total
    case Some(d) => Some(total.GetOr(0) + d)
  }

  function Counted(tallies: map<ViolationType, Tally>, v: ViolationType, d: Option<nat>): map<ViolationType, Tally> {
    var before := if v in tallies then tallies[v] else Tally(0, None);
    tallies[v := Tally(before.count + 1, AddDuration(before.durationMs, d))]
  }

  function Next(phase: Phase, e: Event): Phase {
    match (phase, e)
    case (Absent, Started(_, _)) => Running
    case (Running, Progress(_, _)) => Running
    case (Running, Violation(_, _, _)) => Running
    case (Running, SubmittedEvent(kind, _)) => if kind == ByKick then Broken else Ended(kind)
    case (Running, KickedEvent(_, _)) => Ended(ByKick)
    case (Ended(kind), GradedEvent(_)) => Scored(kind)
    case (Absent, _) => Broken
    case (_, SessionInvalidated) => phase
    case (_, Disconnected(_)) => phase
    case (_, Reconnected) => phase
    case _ => Broken
  }

  function Fold(r: Replayed, e: Event): Replayed {
    var moved := r.(phase := Next(r.phase, e));
    match e
    case Progress(question, answered) => moved.(question := Some(question), answered := answered)
    case Violation(v, d, count) => moved.(violations := count, tallies := Counted(r.tallies, v, d))
    case SubmittedEvent(_, answered) => moved.(answered := answered)
    case Disconnected(_) => moved.(disconnected := true)
    case Reconnected => moved.(disconnected := false)
    case _ => moved
  }

  function Replay(events: seq<Event>): Replayed {
    if events == [] then NOTHING else Fold(Replay(events[..|events| - 1]), events[|events| - 1])
  }

  lemma ReplayAppend(events: seq<Event>, e: Event)
    ensures Replay(events + [e]) == Fold(Replay(events), e)
  {
    assert (events + [e])[..|events|] == events;
  }

  // ----- The roster, read from the tables -----

  datatype RosterState = NotStarted | Active | AwayFromSocket | Finished | Removed

  function RosterStateOf(status: Option<AttemptStatus>, kind: Option<SubmitKind>, disconnected: bool): RosterState {
    match status
    case None => NotStarted
    case Some(s) =>
      if kind == Some(ByKick) then Removed
      else
        match s
        case InProgress => if disconnected then AwayFromSocket else Active
        case Submitted => Finished
        case Graded => Finished
        case Kicked => Removed
  }

  predicate ConnectionEvent(e: Event) {
    e.Disconnected? || e.Reconnected?
  }

  /** The lateral join on the newest connection event. */
  function LastConnection(events: seq<Event>): Option<Event> {
    if events == [] then None
    else if ConnectionEvent(events[|events| - 1]) then Some(events[|events| - 1])
    else LastConnection(events[..|events| - 1])
  }

  function Reports(events: seq<Event>, v: ViolationType): seq<Option<nat>> {
    if events == [] then []
    else
      var rest, last := Reports(events[..|events| - 1], v), events[|events| - 1];
      if last.Violation? && last.vtype == v then rest + [last.durationMs] else rest
  }

  function DurationSum(ds: seq<Option<nat>>): Option<nat> {
    if ds == [] then None else AddDuration(DurationSum(ds[..|ds| - 1]), ds[|ds| - 1])
  }

  function Reported(ds: seq<Option<nat>>): nat {
    if ds == [] then 0 else Reported(ds[..|ds| - 1]) + ds[|ds| - 1].GetOr(0)
  }

  /** SUM over a nullable column: absent when no report carries a duration, and else the sum of those that do. */
  lemma {:induction false} DurationSumIsNullable(ds: seq<Option<nat>>)
    ensures DurationSum(ds) == None <==> forall i | 0 <= i < |ds| :: ds[i] == None
    ensures DurationSum(ds).GetOr(0) == Reported(ds)
  {
    if ds != [] {
      DurationSumIsNullable(ds[..|ds| - 1]);
    }
  }

  /** GROUP BY type over the violation rows. */
  function TalliesOf(events: seq<Event>): map<ViolationType, Tally> {
    map v: ViolationType | Reports(events, v) != [] ::
      Tally(|Reports(events, v)|, DurationSum(Reports(events, v)))
  }

  datatype LiveRow = LiveRow(attempt: Option<AttemptId>, state: RosterState, answered: nat, question: Option<nat>,
                             violations: nat, tallies: map<ViolationType, Tally>)

  const NEVER_STARTED := LiveRow(None, NotStarted, 0, None, 0, map[])

  /** One roster row, its columns read from the attempt, the answers and the two event joins. */
  function RowFromTables(a: AttemptId, row: Attempt, events: seq<Event>): LiveRow {
    var connection := LastConnection(events);
    LiveRow(Some(a),
            RosterStateOf(Some(row.status), row.kind, connection.Some? && connection.value.Disconnected?),
            AnsweredCount(row.answers), row.question, row.violations, TalliesOf(events))
  }

  function LiveRosterRow(db: DB, q: QuizId, s: UserId): LiveRow {
    match LatestAttempt(db.attempts, q, s)
    case None => NEVER_STARTED
    case Some(a) => if a < |db.attempts| then RowFromTables(a, db.attempts[a], Of(db.log, a)) else NEVER_STARTED
  }

  /** The same row rebuilt from nothing but the student's event stream. */
  function RowFromLog(a: AttemptId, r: Replayed): LiveRow {
    var state := match r.phase
      case Running => if r.disconnected then AwayFromSocket else Active
      case Ended(kind) => if kind == ByKick then Removed else Finished
      case Scored(kind) => if kind == ByKick then Removed else Finished
      case _ => NotStarted;
    LiveRow(Some(a), state, r.answered, r.question, r.violations, r.tallies)
  }

  // ----- Agreement of one row with its stream -----

  function PhaseOf(row: Attempt): Phase {
    match (row.status, row.kind)
    case (InProgress, None) => Running
    case (Submitted, Some(kind)) => if kind == ByKick then Broken else Ended(kind)
    case (Kicked, Some(kind)) => if kind == ByKick then Ended(ByKick) else Broken
    case (Graded, Some(kind)) => Scored(kind)
    case _ => Broken
  }

  predicate Agrees(row: Attempt, r: Replayed) {
    && PhaseOf(row) != Broken && r.phase == PhaseOf(row)
    && r.answered == AnsweredCount(row.answers)
    && r.question == row.question
    && r.violations == row.violations
  }

  lemma {:induction false} ReplayConnection(events: seq<Event>)
    ensures var c := LastConnection(events); Replay(events).disconnected == (c.Some? && c.value.Disconnected?)
  {
    if events != [] {
      ReplayConnection(events[..|events| - 1]);
    }
  }

  lemma ReportsStep(rest: seq<Event>, e: Event, v: ViolationType)
    ensures Reports(rest + [e], v) ==
            if e.Violation? && e.vtype == v then Reports(rest, v) + [e.durationMs] else Reports(rest, v)
  {
    assert (rest + [e])[..|rest|] == rest;
  }

  lemma DurationSumStep(ds: seq<Option<nat>>, d: Option<nat>)
    ensures DurationSum(ds + [d]) == AddDuration(DurationSum(ds), d)
  {
    assert (ds + [d])[..|ds|] == ds;
  }

  lemma {:induction false} TallyStep(rest: seq<Event>, e: Event, v: ViolationType)
    ensures var before, after := TalliesOf(rest), TalliesOf(rest + [e]);
            if e.Violation? && e.vtype == v
            then v in after && after[v] == Counted(before, v, e.durationMs)[v]
            else (v in after <==> v in before) && (v in before ==> after[v] == before[v])
  {
    ReportsStep(rest, e, v);
    if e.Violation? && e.vtype == v {
      DurationSumStep(Reports(rest, v), e.durationMs);
    }
  }

  lemma {:induction false} TalliesStep(rest: seq<Event>, e: Event)
    ensures TalliesOf(rest + [e]) ==
            if e.Violation? then Counted(TalliesOf(rest), e.vtype, e.durationMs) else TalliesOf(rest)
  {
    var before, after := TalliesOf(rest), TalliesOf(rest + [e]);
    var want := if e.Violation? then Counted(before, e.vtype, e.durationMs) else before;
    forall v: ViolationType
      ensures (v in after <==> v in want) && (v in want ==> after[v] == want[v])
    {
      TallyStep(rest, e, v);
    }
    assert after == want;
  }

  lemma {:induction false} ReplayTallies(events: seq<Event>)
    ensures Replay(events).tallies == TalliesOf(events)
  {
    if events != [] {
      var rest, last := events[..|events| - 1], events[|events| - 1];
      ReplayTallies(rest);
      TalliesStep(rest, last);
      assert rest + [last] == events;
    }
  }

  /** A row that agrees with its stream shows on the roster exactly what the stream folds to. */
  lemma AgreementShowsOnRoster(a: AttemptId, row: Attempt, events: seq<Event>)
    requires Agrees(row, Replay(events))
    ensures RowFromTables(a, row, events) == RowFromLog(a, Replay(events))
  {
    ReplayConnection(events);
    ReplayTallies(events);
  }

  // ----- What a stream that is not broken looks like -----

  function CountStarted(events: seq<Event>): nat {
    if events == [] then 0
    else CountStarted(events[..|events| - 1]) + (if events[|events| - 1].Started? then 1 else 0)
  }

  function CountTerminal(events: seq<Event>): nat {
    if events == [] then 0
    else
      var last := events[|events| - 1];
      CountTerminal(events[..|events| - 1]) + (if last.SubmittedEvent? || last.KickedEvent? then 1 else 0)
  }

  function CountGraded(events: seq<Event>): nat {
    if events == [] then 0
    else CountGraded(events[..|events| - 1]) + (if events[|events| - 1].GradedEvent? then 1 else 0)
  }

  predicate Lifecycle(e: Event) {
    !e.SessionInvalidated? && !e.Disconnected? && !e.Reconnected?
  }

  predicate Terminating(e: Event) {
    e.SubmittedEvent? || e.KickedEvent?
  }

  function KindOf(e: Event): SubmitKind
    requires Terminating(e)
  {
    if e.SubmittedEvent? then e.kind else ByKick
  }

  predicate Over(phase: Phase) {
    phase.Ended? || phase.Scored?
  }

  lemma {:induction false} UnbrokenPrefix(events: seq<Event>, n: nat)
    requires n <= |events| && Replay(events).phase != Broken
    ensures Replay(events[..n]).phase != Broken
  {
    if n < |events| {
      UnbrokenPrefix(events[..|events| - 1], n);
      assert events[..|events| - 1][..n] == events[..n];
    } else {
      assert events[..n] == events;
    }
  }

  lemma {:induction false} StreamCounts(events: seq<Event>)
    requires Replay(events).phase != Broken
    ensures CountStarted(events) == if Replay(events).phase == Absent then 0 else 1
    ensures CountTerminal(events) == if Over(Replay(events).phase) then 1 else 0
    ensures CountGraded(events) == if Replay(events).phase.Scored? then 1 else 0
  {
    if events != [] {
      UnbrokenPrefix(events, |events| - 1);
      StreamCounts(events[..|events| - 1]);
    }
  }

  lemma {:induction false} OverStaysOver(events: seq<Event>, i: nat)
    requires i < |events| && Replay(events).phase != Broken && Terminating(events[i])
    ensures Over(Replay(events).phase) && Replay(events).phase.kind == KindOf(events[i])
    ensures forall j | i < j < |events| && Lifecycle(events[j]) :: events[j].GradedEvent?
  {
    var n := |events| - 1;
    UnbrokenPrefix(events, n);
    if i < n {
      OverStaysOver(events[..n], i);
    }
  }

  /** The grammar of an unbroken stream: it opens with its one started event, its one terminal event
      comes before its one graded event and names the kind the fold ends with, and after the terminal
      event nothing else of the lifecycle follows. */
  lemma UnbrokenStreamGrammar(events: seq<Event>)
    requires Replay(events).phase != Broken && Replay(events).phase != Absent
    ensures events != [] && events[0].Started?
    ensures CountStarted(events) == 1 && CountTerminal(events) <= 1 && CountGraded(events) <= CountTerminal(events)
    ensures forall i, j | 0 <= i < j < |events| && Terminating(events[i]) && Lifecycle(events[j]) ::
              events[j].GradedEvent?
    ensures forall i | 0 <= i < |events| && Terminating(events[i]) ::
              Over(Replay(events).phase) && Replay(events).phase.kind == KindOf(events[i])
  {
    StreamCounts(events);
    UnbrokenPrefix(events, 1);
    assert events[..1] == [events[0]] && [events[0]][..0] == [];
    assert Replay([events[0]]) == Fold(NOTHING, events[0]);
    forall i | 0 <= i < |events| && Terminating(events[i])
      ensures forall j | i < j < |events| && Lifecycle(events[j]) :: events[j].GradedEvent?
      ensures Over(Replay(events).phase) && Replay(events).phase.kind == KindOf(events[i])
    {
      OverStaysOver(events, i);
    }
  }
}
