/** The moves an attempt row can make, whatever transaction makes them. Every invariant of single rows
    is proved move by move, and holds of every run because every transaction moves rows only so. */
module RowMoves {
  import opened Common
  import opened Grading
  import opened Schema
  import opened Transactions
  import opened Runs
  import Json
  import RowsKept
  import SweepFixpoint
  import Windows

  datatype RowMove =
    | Stays
    | Saves(id: QuestionId, response: Json.Value, timeSpentMs: nat, ordinal: nat)
    | Ends(kind: SubmitKind)
    | Counts(ends: bool)
    | Kicked(moderator: UserId)
    | Readmitted
    | Overridden
    | Graded
    | Redeadlined(deadlineAt: Time)

  /** The guard each move passes, on the state it is made in. */
  predicate May(db: DB, row: Attempt, move: RowMove) {
    match move
    case Stays => true
    case Saves(id, _, _, ordinal) =>
      row.status.InProgress? && db.now <= row.deadlineAt + WRITE_GRACE && SnapshotOrdinal(db, row, id) == Some(ordinal)
    case Ends(kind) =>
      row.status.InProgress? && kind != ByKick && (kind == ByStudent ==> db.now <= row.deadlineAt + WRITE_GRACE)
    case Counts(_) => row.status.InProgress?
    case Kicked(_) => row.status.InProgress?
    case Readmitted => row.status.Kicked? && row.readmittedAt.None?
    case Overridden => row.status.Graded? && row.kind == Some(ByKick) && row.overriddenAt.None?
    case Graded => (row.status.Submitted? || row.status.Kicked?) && PinnedSnapshot(db.quizzes, row).Some?
    case Redeadlined(_) => row.status.InProgress?
  }

  function Moved(rules: TextRules, db: DB, row: Attempt, move: RowMove): Attempt
    requires May(db, row, move)
  {
    match move
    case Stays => row
    case Saves(id, response, ms, ordinal) => Saved(row, id, response, ms, ordinal, db.now)
    case Ends(kind) => Terminated(row, kind, db.now)
    case Counts(ends) =>
      var counted := row.(violations := row.violations + 1);
      if ends then Terminated(counted, ByDeadline, db.now) else counted
    case Kicked(moderator) => KickedRow(row, moderator, db.now)
    case Readmitted => row.(readmittedAt := Some(db.now))
    case Overridden => row.(score := Some(0.0), overriddenAt := Some(db.now))
    case Graded => GradedRow(rules, row, PinnedSnapshot(db.quizzes, row).value)
    case Redeadlined(deadlineAt) => row.(deadlineAt := deadlineAt)
  }

  ghost predicate Moves(rules: TextRules, db: DB, before: Attempt, after: Attempt) {
    exists move: RowMove :: May(db, before, move) && after == Moved(rules, db, before, move)
  }

  lemma MovesBy(rules: TextRules, db: DB, before: Attempt, after: Attempt, move: RowMove)
    requires May(db, before, move) && after == Moved(rules, db, before, move)
    ensures Moves(rules, db, before, after)
  {
  }

  /** How the attempts of two states compare: the old rows have moved, and what is new was just started. */
  ghost predicate AllMove(rules: TextRules, db: DB, after: seq<Attempt>) {
    && |db.attempts| <= |after| <= |db.attempts| + 1
    && (forall i | 0 <= i < |db.attempts| :: Moves(rules, db, db.attempts[i], after[i]))
    && (|after| > |db.attempts| ==> JustStarted(db, after[|db.attempts|]))
  }

  predicate JustStarted(db: DB, row: Attempt) {
    && row.quiz < |db.quizzes| && row.student in db.quizzes[row.quiz].audience
    && InWindow(db.quizzes[row.quiz], db.now)
    && row == NewAttempt(row.quiz, row.student, row.no, |db.quizzes[row.quiz].versions|, db.now,
                         Deadline(db.now, db.quizzes[row.quiz].durationSec, db.quizzes[row.quiz].endsAt.value))
  }

  lemma NothingMoves(rules: TextRules, db: DB, after: seq<Attempt>)
    requires after == db.attempts
    ensures AllMove(rules, db, after)
  {
    forall i | 0 <= i < |db.attempts| {
      MovesBy(rules, db, db.attempts[i], after[i], Stays);
    }
  }

  /** One row moves, the others stay. */
  lemma OneMoves(rules: TextRules, db: DB, a: AttemptId, after: seq<Attempt>, move: RowMove)
    requires a < |db.attempts| && May(db, db.attempts[a], move)
    requires after == db.attempts[a := Moved(rules, db, db.attempts[a], move)]
    ensures AllMove(rules, db, after)
  {
    forall i | 0 <= i < |db.attempts| {
      MovesBy(rules, db, db.attempts[i], after[i], if i == a then move else Stays);
    }
  }

  lemma StudentsMove(rules: TextRules, db: DB, act: Action)
    requires ByStudents(act)
    ensures AllMove(rules, db, Apply(rules, db, act).attempts)
  {
    var after := Apply(rules, db, act).attempts;
    if after == db.attempts {
      NothingMoves(rules, db, after);
    } else {
      match act
      case Saves(actor, a, id, response, ms) =>
        OneMoves(rules, db, a, after, RowMove.Saves(id, response, ms, SnapshotOrdinal(db, db.attempts[a], id).value));
      case Submits(actor, a) => OneMoves(rules, db, a, after, Ends(ByStudent));
      case Reports(actor, a, vtype, d) => OneMoves(rules, db, a, after, Counts(!after[a].status.InProgress?));
      case Connects(a, event) => NothingMoves(rules, db, after);
    }
  }

  lemma ModeratorsMove(rules: TextRules, db: DB, act: Action)
    requires ByModerators(act)
    ensures AllMove(rules, db, Apply(rules, db, act).attempts)
  {
    var after := Apply(rules, db, act).attempts;
    if after == db.attempts {
      NothingMoves(rules, db, after);
    } else {
      match act
      case Kicks(actor, a, reason) => OneMoves(rules, db, a, after, RowMove.Kicked(actor.id));
      case Readmits(actor, a) => OneMoves(rules, db, a, after, Readmitted);
      case Overrides(actor, a) => OneMoves(rules, db, a, after, Overridden);
      case Assigns(actor, q, students) => NothingMoves(rules, db, after);
    }
  }

  lemma SweepMoves(rules: TextRules, db: DB)
    ensures AllMove(rules, db, SweepAttempts(db).attempts)
  {
    SweepFixpoint.SweptAttempts(db);
    forall i | 0 <= i < |db.attempts|
      ensures Moves(rules, db, db.attempts[i], SweepAttempts(db).attempts[i])
    {
      var row, after := db.attempts[i], SweepAttempts(db).attempts[i];
      var move := if after == row then Stays
                  else if row.deadlineAt + WRITE_GRACE <= db.now then Ends(ByDeadline) else Ends(ByClose);
      MovesBy(rules, db, row, after, move);
    }
  }

  lemma GradeMoves(rules: TextRules, db: DB, a: AttemptId)
    ensures AllMove(rules, db, GradeOne(rules, db, a).attempts)
  {
    var after := GradeOne(rules, db, a).attempts;
    if after == db.attempts {
      NothingMoves(rules, db, after);
    } else {
      OneMoves(rules, db, a, after, RowMove.Graded);
    }
  }

  lemma ExtendMoves(rules: TextRules, db: DB, actor: Actor, q: QuizId, newEndsAt: Time)
    ensures AllMove(rules, db, Extend(db, actor, q, newEndsAt).db.attempts)
  {
    var after := Extend(db, actor, q, newEndsAt).db.attempts;
    forall i | 0 <= i < |db.attempts|
      ensures Moves(rules, db, db.attempts[i], after[i])
    {
      MovesBy(rules, db, db.attempts[i], after[i],
              if after[i] == db.attempts[i] then Stays else Redeadlined(after[i].deadlineAt));
    }
  }

  lemma StartMoves(rules: TextRules, db: DB, actor: Actor, q: QuizId)
    ensures AllMove(rules, db, Start(db, actor, q).db.attempts)
  {
    var after := Start(db, actor, q).db.attempts;
    forall i | 0 <= i < |db.attempts| {
      MovesBy(rules, db, db.attempts[i], after[i], Stays);
    }
  }

  lemma QuizActionsMoveNothing(rules: TextRules, db: DB, act: Action)
    requires OnQuizzes(act) && !act.Extends?
    ensures Apply(rules, db, act).attempts == db.attempts
  {
  }

  /** Every action, in whatever state, moves rows only by these moves and starts at most one. */
  lemma ApplyMoves(rules: TextRules, db: DB, act: Action)
    ensures AllMove(rules, db, Apply(rules, db, act).attempts)
  {
    if ByStudents(act) {
      StudentsMove(rules, db, act);
    } else if ByModerators(act) {
      ModeratorsMove(rules, db, act);
    } else if act.SweepsAttempts? {
      SweepMoves(rules, db);
    } else if act.Grades? {
      GradeMoves(rules, db, act.a);
    } else if act.Extends? {
      ExtendMoves(rules, db, act.actor, act.q, act.newEndsAt);
    } else if act.Starts? {
      StartMoves(rules, db, act.actor, act.q);
    } else {
      QuizActionsMoveNothing(rules, db, act);
      NothingMoves(rules, db, Apply(rules, db, act).attempts);
    }
  }

  /** Whose attempt it is, on which quiz and of which number never changes, nor is a readmission undone. */
  lemma MovesKeepIdentity(rules: TextRules, db: DB, after: seq<Attempt>)
    requires AllMove(rules, db, after)
    ensures forall i | 0 <= i < |db.attempts| :: Windows.SameIdentity(db.attempts[i], after[i])
  {
    forall i | 0 <= i < |db.attempts|
      ensures Windows.SameIdentity(db.attempts[i], after[i])
    {
      assert Moves(rules, db, db.attempts[i], after[i]);
      var move: RowMove :| May(db, db.attempts[i], move) && after[i] == Moved(rules, db, db.attempts[i], move);
    }
  }

  lemma NewIsRunning(rules: TextRules, db: DB, act: Action, a: AttemptId)
    requires |db.attempts| <= a < |Apply(rules, db, act).attempts|
    ensures Apply(rules, db, act).attempts[a].status.InProgress?
  {
    ApplyMoves(rules, db, act);
    assert JustStarted(db, Apply(rules, db, act).attempts[a]);
  }

  lemma OnlyStartsAdd(rules: TextRules, db: DB, act: Action)
    requires |Apply(rules, db, act).attempts| != |db.attempts|
    ensures act.Starts? && Start(db, act.actor, act.q).out.Began?
  {
  }

  // ----- Published versions -----

  lemma QuizActionsKeepVersions(rules: TextRules, db: DB, act: Action)
    requires OnQuizzes(act)
    ensures RowsKept.VersionsGrow(db.quizzes, Apply(rules, db, act).quizzes)
  {
  }

  lemma AttemptActionsKeepQuizzes(rules: TextRules, db: DB, act: Action)
    requires !OnQuizzes(act)
    ensures Apply(rules, db, act).quizzes == db.quizzes
  {
  }

  lemma ApplyKeepsVersions(rules: TextRules, db: DB, act: Action)
    ensures RowsKept.VersionsGrow(db.quizzes, Apply(rules, db, act).quizzes)
  {
    if OnQuizzes(act) {
      QuizActionsKeepVersions(rules, db, act);
    } else {
      AttemptActionsKeepQuizzes(rules, db, act);
    }
  }

  /** A version once written is never rewritten, by any run: what an attempt pinned is what it is graded,
      judged and shown against for good. */
  lemma {:induction false} VersionsAreWriteOnce(rules: TextRules, db: DB, run: seq<Action>)
    ensures RowsKept.VersionsGrow(db.quizzes, Exec(rules, db, run).quizzes)
  {
    if run != [] {
      var before := Exec(rules, db, run[..|run| - 1]);
      VersionsAreWriteOnce(rules, db, run[..|run| - 1]);
      ApplyKeepsVersions(rules, before, run[|run| - 1]);
      forall q | 0 <= q < |db.quizzes|
        ensures db.quizzes[q].versions <= Exec(rules, db, run).quizzes[q].versions
      {
        assert before.quizzes[q].versions <= Exec(rules, db, run).quizzes[q].versions;
      }
    }
  }
}
