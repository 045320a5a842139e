/** Whole runs: any interleaving of the transactions of students, teachers, the gateway, the worker and
    the clock, from the empty database. What one transaction keeps becomes what every reachable state has. */
module Runs {
  import opened Common
  import opened Grading
  import opened Schema
  import opened Transactions
  import opened EventLog
  import opened RowInvariant
  import RowsKept
  import Windows
  import Json

  datatype Action =
    | Tick(elapsed: nat)
    | Creates(actor: Actor)
    | EditsDraft(actor: Actor, q: QuizId, questions: seq<DraftQuestion>, maxAttempts: nat, points: real, penalty: real)
    | Publishes(actor: Actor, q: QuizId, input: PublishInput)
    | Cancels(actor: Actor, q: QuizId)
    | Closes(actor: Actor, q: QuizId)
    | Extends(actor: Actor, q: QuizId, newEndsAt: Time)
    | Archives(actor: Actor, q: QuizId)
    | Assigns(actor: Actor, q: QuizId, students: set<UserId>)
    | Releases(actor: Actor, q: QuizId)
    | Starts(actor: Actor, q: QuizId)
    | Saves(actor: Actor, a: AttemptId, id: QuestionId, response: Json.Value, timeSpentMs: nat)
    | Submits(actor: Actor, a: AttemptId)
    | Reports(actor: Actor, a: AttemptId, vtype: ViolationType, durationMs: Option<nat>)
    | Kicks(actor: Actor, a: AttemptId, reason: string)
    | Readmits(actor: Actor, a: AttemptId)
    | Overrides(actor: Actor, a: AttemptId)
    | Connects(a: AttemptId, event: Event)
    | SweepsQuizzes
    | SweepsAttempts
    | Grades(a: AttemptId)
    | ReleasesDue
    | RollsUp(q: QuizId)

  function Apply(rules: TextRules, db: DB, act: Action): DB {
    match act
    case Tick(elapsed) => db.(now := db.now + elapsed)
    case Creates(actor) => CreateQuiz(db, actor).db
    case EditsDraft(actor, q, questions, maxAttempts, points, penalty) =>
      EditDraft(db, actor, q, questions, maxAttempts, points, penalty).db
    case Publishes(actor, q, input) => Publish(db, actor, q, input).db
    case Cancels(actor, q) => Cancel(db, actor, q).db
    case Closes(actor, q) => ForceClose(db, actor, q).db
    case Extends(actor, q, newEndsAt) => Extend(db, actor, q, newEndsAt).db
    case Archives(actor, q) => Archive(db, actor, q).db
    case Assigns(actor, q, students) => SetAssignments(db, actor, q, students).db
    case Releases(actor, q) => ReleaseResults(db, actor, q).db
    case Starts(actor, q) => Start(db, actor, q).db
    case Saves(actor, a, id, response, ms) => SaveAnswer(db, actor, a, id, response, ms).db
    case Submits(actor, a) => SubmitManual(db, actor, a).db
    case Reports(actor, a, vtype, d) => ReportViolation(db, actor, a, vtype, d).db
    case Kicks(actor, a, reason) => Kick(db, actor, a, reason).db
    case Readmits(actor, a) => Readmit(db, actor, a).db
    case Overrides(actor, a) => OverrideScore(db, actor, a).db
    case Connects(a, event) => LogConnectivity(db, a, event).db
    case SweepsQuizzes => SweepQuizzes(db)
    case SweepsAttempts => SweepAttempts(db)
    case Grades(a) => GradeOne(rules, db, a)
    case ReleasesDue => ReleaseDueResults(db)
    case RollsUp(q) => RollupOne(db, q)
  }

  function Exec(rules: TextRules, db: DB, run: seq<Action>): DB {
    if run == [] then db else Apply(rules, Exec(rules, db, run[..|run| - 1]), run[|run| - 1])
  }

  function Empty(now: Time): DB {
    DB(now, [], [], [], [])
  }

  /** Every publish of q that succeeds in the run finds on it what care says. */
  predicate Careful(care: Windows.Care, rules: TextRules, db: DB, run: seq<Action>, q: QuizId) {
    run == [] ||
    (Careful(care, rules, db, run[..|run| - 1], q)
     && StepCareful(care, Exec(rules, db, run[..|run| - 1]), run[|run| - 1], q))
  }

  predicate StepCareful(care: Windows.Care, db: DB, act: Action, q: QuizId) {
    act.Publishes? && act.q == q && Publish(db, act.actor, q, act.input).out.Done? ==>
      Windows.Finds(care, db, q, act.input)
  }

  // ----- A worker pass is a run -----

  function GradeActions(n: nat): seq<Action> {
    if n == 0 then [] else GradeActions(n - 1) + [Grades(n - 1)]
  }

  function RollupActions(n: nat): seq<Action> {
    if n == 0 then [] else RollupActions(n - 1) + [RollsUp(n - 1)]
  }

  function PassActions(db: DB): seq<Action> {
    [SweepsQuizzes, SweepsAttempts] + GradeActions(|db.attempts|) + [ReleasesDue] + RollupActions(|db.quizzes|)
  }

  lemma {:induction false} ExecConcat(rules: TextRules, db: DB, r: seq<Action>, s: seq<Action>)
    ensures Exec(rules, db, r + s) == Exec(rules, Exec(rules, db, r), s)
  {
    if s == [] {
      assert r + s == r;
    } else {
      ExecConcat(rules, db, r, s[..|s| - 1]);
      assert (r + s)[..|r + s| - 1] == r + s[..|s| - 1];
    }
  }

  lemma Then(rules: TextRules, db: DB, r: seq<Action>, mid: DB, s: seq<Action>, end: DB)
    requires Exec(rules, db, r) == mid && Exec(rules, mid, s) == end
    ensures Exec(rules, db, r + s) == end
  {
    ExecConcat(rules, db, r, s);
  }

  lemma ExecSnoc(rules: TextRules, db: DB, r: seq<Action>, act: Action)
    ensures Exec(rules, db, r + [act]) == Apply(rules, Exec(rules, db, r), act)
  {
    assert (r + [act])[..|r|] == r;
  }

  lemma ExecShort(rules: TextRules, db: DB, x: Action, y: Action)
    ensures Exec(rules, db, [x]) == Apply(rules, db, x)
    ensures Exec(rules, db, [x, y]) == Apply(rules, Apply(rules, db, x), y)
  {
    ExecSnoc(rules, db, [], x);
    ExecSnoc(rules, db, [x], y);
    assert [] + [x] == [x] && [x] + [y] == [x, y];
  }

  lemma {:induction false} GradingFrame(rules: TextRules, db: DB, n: nat)
    ensures |GradeUpTo(rules, db, n).attempts| == |db.attempts|
    ensures GradeUpTo(rules, db, n).quizzes == db.quizzes
  {
    if n > 0 {
      GradingFrame(rules, db, n - 1);
    }
  }

  lemma ThenGrades(rules: TextRules, db: DB, n: nat)
    requires Exec(rules, db, GradeActions(n)) == GradeUpTo(rules, db, n)
    ensures Exec(rules, db, GradeActions(n + 1)) == GradeUpTo(rules, db, n + 1)
  {
    ExecSnoc(rules, db, GradeActions(n), Grades(n));
  }

  lemma ThenRollsUp(rules: TextRules, db: DB, n: nat)
    requires Exec(rules, db, RollupActions(n)) == RollupUpTo(db, n)
    ensures Exec(rules, db, RollupActions(n + 1)) == RollupUpTo(db, n + 1)
  {
    ExecSnoc(rules, db, RollupActions(n), RollsUp(n));
  }

  lemma {:induction false} ExecGrades(rules: TextRules, db: DB, n: nat)
    ensures Exec(rules, db, GradeActions(n)) == GradeUpTo(rules, db, n)
  {
    if n > 0 {
      ExecGrades(rules, db, n - 1);
      ThenGrades(rules, db, n - 1);
    }
  }

  lemma {:induction false} ExecRollups(rules: TextRules, db: DB, n: nat)
    ensures Exec(rules, db, RollupActions(n)) == RollupUpTo(db, n)
  {
    if n > 0 {
      ExecRollups(rules, db, n - 1);
      ThenRollsUp(rules, db, n - 1);
    }
  }

  lemma ExecSweeps(rules: TextRules, db: DB)
    ensures Exec(rules, db, [SweepsQuizzes, SweepsAttempts]) == SweepAttempts(SweepQuizzes(db))
  {
    ExecShort(rules, db, SweepsQuizzes, SweepsAttempts);
  }

  /** So every property of runs holds through a pass, and through one that stops half way. */
  lemma PassIsARun(rules: TextRules, db: DB)
    ensures SweepDue(rules, db) == Exec(rules, db, PassActions(db))
  {
    var n, m := |db.attempts|, |db.quizzes|;
    var swept := SweepAttempts(SweepQuizzes(db));
    var graded := GradeUpTo(rules, swept, n);
    var released := ReleaseDueResults(graded);
    var sweeps: seq<Action> := [SweepsQuizzes, SweepsAttempts];
    ExecSweeps(rules, db);
    ExecGrades(rules, swept, n);
    Then(rules, db, sweeps, swept, GradeActions(n), graded);
    ExecSnoc(rules, db, sweeps + GradeActions(n), ReleasesDue);
    ExecRollups(rules, released, m);
    Then(rules, db, sweeps + GradeActions(n) + [ReleasesDue], released, RollupActions(m), RollupUpTo(released, m));
    PassStages(rules, db, swept, graded);
  }

  lemma PassStages(rules: TextRules, db: DB, swept: DB, graded: DB)
    requires swept == SweepAttempts(SweepQuizzes(db)) && graded == GradeUpTo(rules, swept, |db.attempts|)
    ensures SweepDue(rules, db) == RollupUpTo(ReleaseDueResults(graded), |db.quizzes|)
  {
    GradingFrame(rules, swept, |db.attempts|);
  }

  // ----- The row invariant along every run -----

  /** Actions on quizzes, and the clock. */
  predicate OnQuizzes(act: Action) {
    || act.Tick? || act.Creates? || act.EditsDraft? || act.Publishes? || act.Cancels? || act.Closes? || act.Extends?
    || act.Archives? || act.Assigns? || act.Releases? || act.SweepsQuizzes? || act.ReleasesDue? || act.RollsUp?
  }

  lemma QuizActionsKeepRows(rules: TextRules, db: DB, act: Action)
    requires RowsKept.RowsOk(db) && OnQuizzes(act)
    ensures RowsKept.RowsOk(Apply(rules, db, act))
  {
    match act
    case Tick(elapsed) => RowsKept.TickKeeps(db, db.now + elapsed);
    case Creates(actor) => RowsKept.CreateQuizKeeps(db, actor);
    case EditsDraft(actor, q, questions, maxAttempts, points, penalty) =>
      RowsKept.EditDraftKeeps(db, actor, q, questions, maxAttempts, points, penalty);
    case Publishes(actor, q, input) => RowsKept.PublishKeeps(db, actor, q, input);
    case Extends(actor, q, newEndsAt) => RowsKept.ExtendKeeps(db, actor, q, newEndsAt);
    case SweepsQuizzes => RowsKept.SweepQuizzesKeeps(db);
    case ReleasesDue => RowsKept.ReleaseDueResultsKeeps(db);
    case RollsUp(q) => RowsKept.RollupOneKeeps(db, q);
    case Assigns(actor, q, students) => RowsKept.QuizStatusKeeps(db, actor, q, students);
    case Cancels(actor, q) => RowsKept.QuizStatusKeeps(db, actor, q, {});
    case Closes(actor, q) => RowsKept.QuizStatusKeeps(db, actor, q, {});
    case Archives(actor, q) => RowsKept.QuizStatusKeeps(db, actor, q, {});
    case Releases(actor, q) => RowsKept.QuizStatusKeeps(db, actor, q, {});
  }

  lemma AttemptActionsKeepRows(rules: TextRules, db: DB, act: Action)
    requires RowsKept.RowsOk(db) && !OnQuizzes(act)
    ensures RowsKept.RowsOk(Apply(rules, db, act))
  {
    match act
    case Starts(actor, q) => RowsKept.StartKeeps(db, actor, q);
    case Saves(actor, a, id, response, ms) => RowsKept.SaveAnswerKeeps(db, actor, a, id, response, ms);
    case Submits(actor, a) => RowsKept.SubmitManualKeeps(db, actor, a);
    case Reports(actor, a, vtype, d) => RowsKept.ReportViolationKeeps(db, actor, a, vtype, d);
    case Kicks(actor, a, reason) => RowsKept.KickKeeps(db, actor, a, reason);
    case Readmits(actor, a) => RowsKept.ReadmitKeeps(db, actor, a);
    case Overrides(actor, a) => RowsKept.OverrideScoreKeeps(db, actor, a);
    case Connects(a, event) => RowsKept.LogConnectivityKeeps(db, a, event);
    case SweepsAttempts => RowsKept.SweepAttemptsKeeps(db);
    case Grades(a) => RowsKept.GradeOneKeeps(rules, db, a);
  }

  lemma ApplyKeepsRows(rules: TextRules, db: DB, act: Action)
    requires RowsKept.RowsOk(db)
    ensures RowsKept.RowsOk(Apply(rules, db, act))
  {
    if OnQuizzes(act) {
      QuizActionsKeepRows(rules, db, act);
    } else {
      AttemptActionsKeepRows(rules, db, act);
    }
  }

  lemma {:induction false} RowsHoldAlways(rules: TextRules, now: Time, run: seq<Action>)
    ensures RowsKept.RowsOk(Exec(rules, Empty(now), run))
  {
    if run != [] {
      RowsHoldAlways(rules, now, run[..|run| - 1]);
      ApplyKeepsRows(rules, Exec(rules, Empty(now), run[..|run| - 1]), run[|run| - 1]);
    }
  }

  // ----- The window invariant along every careful run -----

  predicate ByStudents(act: Action) {
    act.Saves? || act.Submits? || act.Reports? || act.Connects?
  }

  predicate ByModerators(act: Action) {
    act.Kicks? || act.Readmits? || act.Overrides? || act.Assigns?
  }

  predicate ByWorker(act: Action) {
    act.SweepsAttempts? || act.Grades? || act.ReleasesDue? || act.RollsUp?
  }

  predicate SettledBy(db: DB, db': DB) {
    && db'.now == db.now && |db'.attempts| == |db.attempts| && |db'.quizzes| == |db.quizzes|
    && (forall i | 0 <= i < |db.attempts| :: Windows.Settles(db.attempts[i], db'.attempts[i]))
    && (forall q | 0 <= q < |db.quizzes| :: Windows.SameWindow(db.quizzes[q], db'.quizzes[q]))
  }

  lemma SavingSettles(rules: TextRules, db: DB, act: Action)
    requires act.Saves? || act.Connects?
    ensures SettledBy(db, Apply(rules, db, act))
  {
  }

  lemma SubmittingSettles(rules: TextRules, db: DB, act: Action)
    requires act.Submits?
    ensures SettledBy(db, Apply(rules, db, act))
  {
  }

  lemma ReportingSettles(rules: TextRules, db: DB, act: Action)
    requires act.Reports?
    ensures SettledBy(db, Apply(rules, db, act))
  {
  }

  lemma StudentsSettle(rules: TextRules, db: DB, act: Action)
    requires ByStudents(act)
    ensures SettledBy(db, Apply(rules, db, act))
  {
    if act.Submits? {
      SubmittingSettles(rules, db, act);
    } else if act.Reports? {
      ReportingSettles(rules, db, act);
    } else {
      SavingSettles(rules, db, act);
    }
  }

  lemma AssigningSettles(rules: TextRules, db: DB, act: Action)
    requires act.Assigns?
    ensures SettledBy(db, Apply(rules, db, act))
  {
  }

  lemma ModeratorsSettle(rules: TextRules, db: DB, act: Action)
    requires ByModerators(act)
    ensures SettledBy(db, Apply(rules, db, act))
  {
    if act.Assigns? {
      AssigningSettles(rules, db, act);
    }
  }

  lemma WorkerSettles(rules: TextRules, db: DB, act: Action)
    requires ByWorker(act)
    ensures SettledBy(db, Apply(rules, db, act))
  {
  }

  lemma ActionSettles(rules: TextRules, db: DB, act: Action)
    requires ByStudents(act) || ByModerators(act) || ByWorker(act)
    ensures SettledBy(db, Apply(rules, db, act))
  {
    if ByStudents(act) {
      StudentsSettle(rules, db, act);
    } else if ByModerators(act) {
      ModeratorsSettle(rules, db, act);
    } else {
      WorkerSettles(rules, db, act);
    }
  }

  /** A teacher's step on a quiz, or the opening of a new one. */
  predicate ByOwner(act: Action) {
    || act.Creates? || act.EditsDraft? || act.Publishes? || act.Cancels? || act.Closes? || act.Archives?
    || act.Releases?
  }

  lemma OwnersTouchOneQuiz(rules: TextRules, db: DB, act: Action, q: QuizId)
    requires ByOwner(act) && q < |db.quizzes| && (act.Creates? || act.q != q)
    ensures var db' := Apply(rules, db, act);
            && q < |db'.quizzes| && db'.quizzes[q] == db.quizzes[q]
            && db'.attempts == db.attempts && db'.now == db.now
  {
  }

  /** How an owner's step can leave a quiz: as it was, published, or no longer opening. */
  lemma OwnerMoves(rules: TextRules, db: DB, act: Action, q: QuizId)
    requires ByOwner(act) && q < |db.quizzes|
    ensures var db' := Apply(rules, db, act);
            && q < |db'.quizzes| && db'.attempts == db.attempts && db'.now == db.now
            && (|| db'.quizzes[q] == db.quizzes[q] || !Windows.Opening(db'.quizzes[q].status)
                || (act.Publishes? && act.q == q && Publish(db, act.actor, q, act.input).out.Done?
                    && db'.quizzes[q] == Published(db.quizzes[q], act.input)))
  {
  }

  lemma NewQuizIsEmpty(care: Windows.Care, rules: TextRules, db: DB, act: Action, q: QuizId)
    requires ByOwner(act) && q >= |db.quizzes| && Windows.WindowOk(care, db, q)
    ensures Windows.WindowOk(care, Apply(rules, db, act), q)
  {
  }

  lemma OwnerKeepsWindow(care: Windows.Care, rules: TextRules, db: DB, act: Action, q: QuizId)
    requires Windows.WindowOk(care, db, q) && ByOwner(act) && StepCareful(care, db, act, q)
    ensures Windows.WindowOk(care, Apply(rules, db, act), q)
  {
    if q >= |db.quizzes| {
      NewQuizIsEmpty(care, rules, db, act, q);
    } else if act.Creates? || act.q != q {
      OwnersTouchOneQuiz(rules, db, act, q);
    } else {
      match act
      case EditsDraft(actor, _, _, _, _, _) =>
      case Publishes(actor, _, input) =>
        if Publish(db, actor, q, input).out.Done? {
          Windows.PublishKeepsIff(care, db, actor, q, input);
        }
      case Cancels(actor, _) => Windows.CancelKeeps(care, db, actor, q);
      case Closes(actor, _) => Windows.EndingKeeps(care, db, actor, q);
      case Archives(actor, _) => Windows.EndingKeeps(care, db, actor, q);
      case Releases(actor, _) => Windows.EndingKeeps(care, db, actor, q);
    }
  }

  lemma {:induction false} ApplyKeepsWindow(care: Windows.Care, rules: TextRules, db: DB, act: Action, q: QuizId)
    requires Windows.WindowOk(care, db, q) && StepCareful(care, db, act, q)
    ensures Windows.WindowOk(care, Apply(rules, db, act), q)
  {
    if ByStudents(act) || ByModerators(act) || ByWorker(act) {
      ActionSettles(rules, db, act);
      Windows.SettlingKeeps(care, db, Apply(rules, db, act), q);
    } else if ByOwner(act) {
      OwnerKeepsWindow(care, rules, db, act, q);
    } else {
      match act
      case Tick(elapsed) => Windows.TickKeeps(care, db, db.now + elapsed, q);
      case Extends(actor, p, newEndsAt) => Windows.ExtendKeeps(care, db, actor, p, newEndsAt, q);
      case Starts(actor, p) => Windows.StartKeeps(care, db, actor, p, q);
      case SweepsQuizzes => Windows.SweepQuizzesKeeps(care, db, q);
    }
  }

  /** Along every run from a state that has it, as long as the publishes of the quiz are careful. */
  lemma {:induction false} WindowKept(care: Windows.Care, rules: TextRules, db: DB, run: seq<Action>, q: QuizId)
    requires Windows.WindowOk(care, db, q) && Careful(care, rules, db, run, q)
    ensures Windows.WindowOk(care, Exec(rules, db, run), q)
  {
    if run != [] {
      WindowKept(care, rules, db, run[..|run| - 1], q);
      ApplyKeepsWindow(care, rules, Exec(rules, db, run[..|run| - 1]), run[|run| - 1], q);
    }
  }

  lemma WindowsHoldOnCarefulRuns(care: Windows.Care, rules: TextRules, now: Time, run: seq<Action>, q: QuizId)
    requires Careful(care, rules, Empty(now), run, q)
    ensures Windows.WindowOk(care, Exec(rules, Empty(now), run), q)
  {
    WindowKept(care, rules, Empty(now), run, q);
  }

  predicate NoPublish(run: seq<Action>) {
    forall i | 0 <= i < |run| :: !run[i].Publishes?
  }

  lemma {:induction false} NoPublishIsCareful(care: Windows.Care, rules: TextRules, db: DB, run: seq<Action>, q: QuizId)
    requires NoPublish(run)
    ensures Careful(care, rules, db, run, q)
  {
    if run != [] {
      NoPublishIsCareful(care, rules, db, run[..|run| - 1], q);
    }
  }

  lemma CarefulSnoc(care: Windows.Care, rules: TextRules, db: DB, run: seq<Action>, act: Action, q: QuizId)
    requires Careful(care, rules, db, run, q) && StepCareful(care, Exec(rules, db, run), act, q)
    ensures Careful(care, rules, db, run + [act], q)
  {
    assert (run + [act])[..|run|] == run;
  }

  lemma {:induction false} CarefulConcat(care: Windows.Care, rules: TextRules, db: DB, before: seq<Action>,
                                         after: seq<Action>, q: QuizId)
    requires Careful(care, rules, db, before, q) && Careful(care, rules, Exec(rules, db, before), after, q)
    ensures Careful(care, rules, db, before + after, q)
  {
    if after == [] {
      assert before + after == before;
    } else {
      var init := after[..|after| - 1];
      CarefulConcat(care, rules, db, before, init, q);
      ExecConcat(rules, db, before, init);
      assert (before + after)[..|before + after| - 1] == before + init;
    }
  }

  lemma StepCarefulWeakens(db: DB, act: Action, q: QuizId)
    ensures StepCareful(Windows.FindsNoAttempt, db, act, q) ==> StepCareful(Windows.FindsNoneRunning, db, act, q)
    ensures StepCareful(Windows.FindsNoneRunning, db, act, q) ==> StepCareful(Windows.FindsHarmless, db, act, q)
  {
  }

  /** An attempt that is not running cannot be harmed, so each care implies the one before it. */
  lemma {:induction false} CarefulWeakens(rules: TextRules, db: DB, run: seq<Action>, q: QuizId)
    ensures Careful(Windows.FindsNoAttempt, rules, db, run, q) ==> Careful(Windows.FindsNoneRunning, rules, db, run, q)
    ensures Careful(Windows.FindsNoneRunning, rules, db, run, q) ==> Careful(Windows.FindsHarmless, rules, db, run, q)
  {
    if run != [] {
      CarefulWeakens(rules, db, run[..|run| - 1], q);
      StepCarefulWeakens(Exec(rules, db, run[..|run| - 1]), run[|run| - 1], q);
    }
  }

  // ----- The shape of windows, on every run -----

  lemma TeachersKeepShapes(rules: TextRules, db: DB, act: Action)
    requires Windows.ShapesOk(db) && (ByOwner(act) || act.Extends?)
    ensures Windows.ShapesOk(Apply(rules, db, act))
  {
  }

  lemma SweepKeepsShapes(db: DB)
    requires Windows.ShapesOk(db)
    ensures Windows.ShapesOk(SweepQuizzes(db))
  {
    forall q | 0 <= q < |db.quizzes|
      ensures Windows.WindowShape(SweepQuizzes(db).quizzes[q], db.now)
    {
      assert Windows.WindowShape(db.quizzes[q], db.now);
    }
  }

  lemma ApplyKeepsShapes(rules: TextRules, db: DB, act: Action)
    requires Windows.ShapesOk(db)
    ensures Windows.ShapesOk(Apply(rules, db, act))
  {
    if ByStudents(act) || ByModerators(act) || ByWorker(act) {
      ActionSettles(rules, db, act);
      forall q | 0 <= q < |db.quizzes|
        ensures Windows.WindowShape(Apply(rules, db, act).quizzes[q], db.now)
      {
        assert Windows.SameWindow(db.quizzes[q], Apply(rules, db, act).quizzes[q]);
      }
    } else if ByOwner(act) || act.Extends? {
      TeachersKeepShapes(rules, db, act);
    } else if act.SweepsQuizzes? {
      SweepKeepsShapes(db);
    }
  }

  /** In every reachable state an opening quiz has a window that ends after it starts, and a live one has
      reached its start. */
  lemma {:induction false} ShapesAlways(rules: TextRules, now: Time, run: seq<Action>)
    ensures Windows.ShapesOk(Exec(rules, Empty(now), run))
  {
    if run != [] {
      ShapesAlways(rules, now, run[..|run| - 1]);
      ApplyKeepsShapes(rules, Exec(rules, Empty(now), run[..|run| - 1]), run[|run| - 1]);
    }
  }
}
