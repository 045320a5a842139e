/** Why a rollup may be computed once and kept (server/internal/analytics/rollup.go:54-75): once a closed
    quiz has finished grading, nothing but a score override touches what its statistics are computed from. */
module RollupFrozen {
  import opened Common
  import opened Grading
  import opened Schema
  import opened Transactions
  import opened Runs
  import Rollup

  /** Closed or archived, with every attempt on it graded. */
  predicate Finished(db: DB, q: QuizId) {
    && q < |db.quizzes| && Terminal(db.quizzes[q].status)
    && forall i | 0 <= i < |db.attempts| && db.attempts[i].quiz == q :: db.attempts[i].status.Graded?
  }

  /** Only an override's zero, and its mark, may tell the rows apart. */
  predicate OnlyOverridden(before: Attempt, after: Attempt) {
    || after == before
    || (&& before.kind == Some(ByKick) && before.overriddenAt.None? && after.overriddenAt.Some?
        && after == before.(score := Some(0.0), overriddenAt := after.overriddenAt))
  }

  /** The rows of q are the same ones, and the same but for overrides of those in hit. */
  predicate SameAttempts(before: seq<Attempt>, after: seq<Attempt>, q: QuizId, hit: set<AttemptId>) {
    && |before| <= |after|
    && (forall i | 0 <= i < |before| :: after[i].quiz == before[i].quiz)
    && (forall i | 0 <= i < |before| && before[i].quiz == q ::
          if i in hit then OnlyOverridden(before[i], after[i]) else after[i] == before[i])
    && (forall i | |before| <= i < |after| :: after[i].quiz != q)
  }

  /** Nothing the statistics of q are computed from differs but the scores of attempts in hit, and a row
      already written stands. */
  predicate Undisturbed(db: DB, db': DB, q: QuizId, hit: set<AttemptId>) {
    && q < |db.quizzes| && q < |db'.quizzes|
    && SameAttempts(db.attempts, db'.attempts, q, hit)
    && db'.quizzes[q].audience == db.quizzes[q].audience
    && db'.quizzes[q].versions == db.quizzes[q].versions
    && (db.quizzes[q].stats.Some? ==> db'.quizzes[q].stats == db.quizzes[q].stats)
  }

  lemma UndisturbedTransitive(x: DB, y: DB, z: DB, q: QuizId, hit: set<AttemptId>, more: set<AttemptId>)
    requires Undisturbed(x, y, q, hit) && Undisturbed(y, z, q, more)
    ensures Undisturbed(x, z, q, hit + more)
  {
  }

  /** Row by row, the sources of two rollups differ at most in the scores of overridden attempts. */
  predicate RescoredSource(before: Rollup.Source, after: Rollup.Source) {
    && after.audience == before.audience && after.versions == before.versions
    && |after.attempts| == |before.attempts|
    && forall k | 0 <= k < |before.attempts| :: OnlyOverridden(before.attempts[k], after.attempts[k])
  }

  predicate MissesQuiz(attempts: seq<Attempt>, q: QuizId, hit: set<AttemptId>) {
    forall i | 0 <= i < |attempts| && i in hit :: attempts[i].quiz != q
  }

  /** No attempt on q has been overridden in between. */
  predicate SameMarks(before: seq<Attempt>, after: seq<Attempt>, q: QuizId)
    requires |before| <= |after|
  {
    forall i | 0 <= i < |before| && before[i].quiz == q :: after[i].overriddenAt == before[i].overriddenAt
  }

  lemma {:induction false} AttemptsOnSame(before: seq<Attempt>, after: seq<Attempt>, q: QuizId, hit: set<AttemptId>)
    requires SameAttempts(before, after, q, hit)
    ensures var b, a := Rollup.AttemptsOn(before, q), Rollup.AttemptsOn(after, q);
            && |a| == |b| && (forall k | 0 <= k < |b| :: OnlyOverridden(b[k], a[k]))
            && (a == b <==> SameMarks(before, after, q))
  {
    if |before| < |after| {
      assert after[|after| - 1].quiz != q;
      AttemptsOnSame(before, after[..|after| - 1], q, hit);
    } else if before != [] {
      var n := |before| - 1;
      AttemptsOnSame(before[..n], after[..n], q, hit);
      if before[n].quiz == q {
        var b, a := Rollup.AttemptsOn(before, q), Rollup.AttemptsOn(after, q);
        assert a == b ==> a[..|a| - 1] == b[..|b| - 1] && a[|a| - 1] == b[|b| - 1];
      }
    }
  }

  lemma InputsRescored(db: DB, db': DB, q: QuizId, hit: set<AttemptId>)
    requires Undisturbed(db, db', q, hit)
    ensures RescoredSource(Rollup.Inputs(db, q), Rollup.Inputs(db', q))
    ensures Rollup.Inputs(db', q) == Rollup.Inputs(db, q) <==> SameMarks(db.attempts, db'.attempts, q)
  {
    AttemptsOnSame(db.attempts, db'.attempts, q, hit);
  }

  // ----- One step -----

  /** Closed and archived absorb: no transaction takes a quiz back out. */
  lemma TerminalAbsorbs(rules: TextRules, db: DB, act: Action, q: QuizId)
    requires q < |db.quizzes| && Terminal(db.quizzes[q].status)
    ensures var db' := Apply(rules, db, act);
            && q < |db'.quizzes| && Terminal(db'.quizzes[q].status)
            && (db.quizzes[q].status == Archived ==> db'.quizzes[q].status == Archived)
  {
  }

  lemma ReportsCannotDisturb(rules: TextRules, db: DB, act: Action, q: QuizId)
    requires Finished(db, q) && act.Reports?
    ensures Undisturbed(db, Apply(rules, db, act), q, {})
  {
  }

  lemma StudentsCannotDisturb(rules: TextRules, db: DB, act: Action, q: QuizId)
    requires Finished(db, q) && ByStudents(act)
    ensures Undisturbed(db, Apply(rules, db, act), q, {})
  {
    if act.Reports? {
      ReportsCannotDisturb(rules, db, act, q);
    }
  }

  lemma StartsCannotDisturb(rules: TextRules, db: DB, act: Action, q: QuizId)
    requires Finished(db, q) && act.Starts?
    ensures Undisturbed(db, Apply(rules, db, act), q, {})
  {
  }

  lemma ModeratorsCannotDisturb(rules: TextRules, db: DB, act: Action, q: QuizId)
    requires Finished(db, q) && ByModerators(act) && !act.Overrides?
    ensures Undisturbed(db, Apply(rules, db, act), q, {})
  {
  }

  lemma OwnersCannotDisturb(rules: TextRules, db: DB, act: Action, q: QuizId)
    requires Finished(db, q) && (ByOwner(act) || act.Tick? || act.SweepsQuizzes?)
    ensures Undisturbed(db, Apply(rules, db, act), q, {})
  {
  }

  lemma SweepCannotDisturb(db: DB, q: QuizId)
    requires Finished(db, q)
    ensures Undisturbed(db, SweepAttempts(db), q, {})
  {
  }

  lemma WorkerCannotDisturb(rules: TextRules, db: DB, act: Action, q: QuizId)
    requires Finished(db, q) && ((ByWorker(act) && !act.SweepsAttempts?) || act.Extends?)
    ensures Undisturbed(db, Apply(rules, db, act), q, {})
  {
  }

  lemma OverrideRescores(db: DB, actor: Actor, a: AttemptId, q: QuizId)
    requires Finished(db, q)
    ensures Undisturbed(db, OverrideScore(db, actor, a).db, q, {a}) && Finished(OverrideScore(db, actor, a).db, q)
  {
  }

  /** The attempts an action sets out to override. */
  function Overridden(act: Action): set<AttemptId> {
    if act.Overrides? then {act.a} else {}
  }

  lemma FinishedCarries(db: DB, db': DB, q: QuizId, hit: set<AttemptId>)
    requires Finished(db, q) && Undisturbed(db, db', q, hit) && Terminal(db'.quizzes[q].status)
    ensures Finished(db', q)
  {
    forall i | 0 <= i < |db'.attempts| && db'.attempts[i].quiz == q
      ensures db'.attempts[i].status.Graded?
    {
      assert i < |db.attempts| && db.attempts[i].quiz == q;
    }
  }

  /** Every transaction leaves a finished quiz finished, and its inputs alone but for what it overrides. */
  lemma {:induction false} StepFreezes(rules: TextRules, db: DB, act: Action, q: QuizId)
    requires Finished(db, q)
    ensures Undisturbed(db, Apply(rules, db, act), q, Overridden(act)) && Finished(Apply(rules, db, act), q)
  {
    TerminalAbsorbs(rules, db, act, q);
    if act.Overrides? {
      OverrideRescores(db, act.actor, act.a, q);
    } else {
      if ByStudents(act) {
        StudentsCannotDisturb(rules, db, act, q);
      } else if act.Starts? {
        StartsCannotDisturb(rules, db, act, q);
      } else if ByModerators(act) {
        ModeratorsCannotDisturb(rules, db, act, q);
      } else if act.SweepsAttempts? {
        SweepCannotDisturb(db, q);
      } else if ByWorker(act) || act.Extends? {
        WorkerCannotDisturb(rules, db, act, q);
      } else {
        OwnersCannotDisturb(rules, db, act, q);
      }
      FinishedCarries(db, Apply(rules, db, act), q, {});
    }
  }

  // ----- Whole runs -----

  /** A statistics row only ever exists on a finished quiz. */
  ghost predicate StatsOnlyWhenFinished(db: DB) {
    forall q: QuizId | q < |db.quizzes| && db.quizzes[q].stats.Some? :: Finished(db, q)
  }

  /** Only the rollup writes a statistics row. */
  lemma StatsAppear(rules: TextRules, db: DB, act: Action, q: QuizId)
    requires var db' := Apply(rules, db, act); q < |db'.quizzes| && db'.quizzes[q].stats.Some?
    requires q < |db.quizzes| ==> db.quizzes[q].stats.None?
    ensures act == RollsUp(q) && q < |db.quizzes| && RollupDue(db, q)
    ensures Apply(rules, db, act).quizzes[q].stats == Some(Rollup.Compute(Rollup.Inputs(db, q)))
    ensures Apply(rules, db, act).attempts == db.attempts
  {
  }

  lemma StatsKept(rules: TextRules, db: DB, act: Action)
    requires StatsOnlyWhenFinished(db)
    ensures StatsOnlyWhenFinished(Apply(rules, db, act))
  {
    var db' := Apply(rules, db, act);
    forall q: QuizId | q < |db'.quizzes| && db'.quizzes[q].stats.Some?
      ensures Finished(db', q)
    {
      if q < |db.quizzes| && db.quizzes[q].stats.Some? {
        StepFreezes(rules, db, act, q);
      } else {
        StatsAppear(rules, db, act, q);
      }
    }
  }

  lemma {:induction false} StatsOnlyWhenFinishedAlways(rules: TextRules, now: Time, run: seq<Action>)
    ensures StatsOnlyWhenFinished(Exec(rules, Empty(now), run))
  {
    if run != [] {
      StatsOnlyWhenFinishedAlways(rules, now, run[..|run| - 1]);
      StatsKept(rules, Exec(rules, Empty(now), run[..|run| - 1]), run[|run| - 1]);
    }
  }

  /** The attempts a run sets out to override. */
  function OverriddenIn(run: seq<Action>): set<AttemptId> {
    if run == [] then {} else OverriddenIn(run[..|run| - 1]) + Overridden(run[|run| - 1])
  }

  lemma {:induction false} OverriddenInMeans(run: seq<Action>, a: AttemptId)
    ensures a in OverriddenIn(run) <==> exists k | 0 <= k < |run| :: run[k].Overrides? && run[k].a == a
  {
    if run != [] {
      OverriddenInMeans(run[..|run| - 1], a);
      var n := |run| - 1;
      assert a in Overridden(run[n]) <==> run[n].Overrides? && run[n].a == a;
      if k: nat :| k < n && run[..n][k].Overrides? && run[..n][k].a == a {
        assert run[k] == run[..n][k];
      }
    }
  }

  lemma {:induction false} FinishedStaysUndisturbed(rules: TextRules, db: DB, run: seq<Action>, q: QuizId)
    requires Finished(db, q)
    ensures Undisturbed(db, Exec(rules, db, run), q, OverriddenIn(run)) && Finished(Exec(rules, db, run), q)
  {
    if run != [] {
      var before := Exec(rules, db, run[..|run| - 1]);
      FinishedStaysUndisturbed(rules, db, run[..|run| - 1], q);
      StepFreezes(rules, before, run[|run| - 1], q);
      UndisturbedTransitive(db, before, Exec(rules, db, run), q,
                            OverriddenIn(run[..|run| - 1]), Overridden(run[|run| - 1]));
    }
  }

  /** A statistics row of any reachable state survives whatever follows. What it was computed from differs
      at most in the scores of attempts overridden since, and not at all exactly when no attempt on the quiz
      has been. */
  lemma StatsAreFinal(rules: TextRules, now: Time, before: seq<Action>, after: seq<Action>, q: QuizId)
    ensures var db := Exec(rules, Empty(now), before);
            var db' := Exec(rules, Empty(now), before + after);
            q < |db.quizzes| && db.quizzes[q].stats.Some? ==>
              && q < |db'.quizzes| && db'.quizzes[q].stats == db.quizzes[q].stats
              && SameAttempts(db.attempts, db'.attempts, q, OverriddenIn(after))
              && RescoredSource(Rollup.Inputs(db, q), Rollup.Inputs(db', q))
              && (Rollup.Inputs(db', q) == Rollup.Inputs(db, q) <==> SameMarks(db.attempts, db'.attempts, q))
  {
    var db := Exec(rules, Empty(now), before);
    ExecConcat(rules, Empty(now), before, after);
    StatsOnlyWhenFinishedAlways(rules, now, before);
    if q < |db.quizzes| && db.quizzes[q].stats.Some? {
      FinishedStaysUndisturbed(rules, db, after, q);
      InputsRescored(db, Exec(rules, Empty(now), before + after), q, OverriddenIn(after));
    }
  }

  // ----- Recomputing -----

  /** Step k of the run is the rollup that wrote the row of q. */
  ghost predicate RolledUpAt(rules: TextRules, now: Time, run: seq<Action>, q: QuizId, k: nat) {
    && k < |run| && run[k] == RollsUp(q)
    && var db := Exec(rules, Empty(now), run[..k]);
       q < |db.quizzes| && db.quizzes[q].stats.None? && RollupDue(db, q)
  }

  /** Every statistics row of a reachable state was written by one step of the run. */
  lemma {:induction false} RowHasARollup(rules: TextRules, now: Time, run: seq<Action>, q: QuizId) returns (k: nat)
    requires var db := Exec(rules, Empty(now), run); q < |db.quizzes| && db.quizzes[q].stats.Some?
    ensures RolledUpAt(rules, now, run, q, k)
  {
    var init, last := run[..|run| - 1], run[|run| - 1];
    var before := Exec(rules, Empty(now), init);
    if q < |before.quizzes| && before.quizzes[q].stats.Some? {
      k := RowHasARollup(rules, now, init, q);
      assert init[..k] == run[..k];
    } else {
      StatsAppear(rules, before, last, q);
      k := |run| - 1;
    }
  }

  lemma RollupWrites(db: DB, q: QuizId)
    requires q < |db.quizzes| && RollupDue(db, q)
    ensures var written := RollupOne(db, q);
            && |written.quizzes| == |db.quizzes| && written.attempts == db.attempts
            && written.quizzes[q].stats == Some(Rollup.Compute(Rollup.Inputs(db, q)))
            && Rollup.Inputs(written, q) == Rollup.Inputs(db, q)
  {
  }

  lemma AtRollup(rules: TextRules, now: Time, run: seq<Action>, k: nat, q: QuizId)
    requires k < |run| && run[k] == RollsUp(q)
    ensures Exec(rules, Empty(now), run[..k + 1]) == RollupOne(Exec(rules, Empty(now), run[..k]), q)
  {
    ExecSnoc(rules, Empty(now), run[..k], RollsUp(q));
    assert run[..k] + [RollsUp(q)] == run[..k + 1];
  }

  /** From the step that wrote the row on, the state is the one that step left, but for later overrides. */
  lemma {:induction false} SinceRollup(rules: TextRules, now: Time, run: seq<Action>, q: QuizId, k: nat)
    requires RolledUpAt(rules, now, run, q, k)
    ensures var rolled, db := Exec(rules, Empty(now), run[..k]), Exec(rules, Empty(now), run);
            && q < |db.quizzes| && db.quizzes[q].stats == Some(Rollup.Compute(Rollup.Inputs(rolled, q)))
            && RescoredSource(Rollup.Inputs(rolled, q), Rollup.Inputs(db, q))
            && SameAttempts(rolled.attempts, db.attempts, q, OverriddenIn(run[k + 1..]))
            && |rolled.attempts| <= |db.attempts|
            && (Rollup.Inputs(db, q) == Rollup.Inputs(rolled, q) <==> SameMarks(rolled.attempts, db.attempts, q))
  {
    var rolled, written := Exec(rules, Empty(now), run[..k]), Exec(rules, Empty(now), run[..k + 1]);
    AtRollup(rules, now, run, k, q);
    RollupWrites(rolled, q);
    assert run[..k + 1] + run[k + 1..] == run;
    StatsAreFinal(rules, now, run[..k + 1], run[k + 1..], q);
  }

  /** So recomputing a stored row in any later state gives the row that was written, unless an attempt on
      the quiz has been overridden since that step; overrides before it, and on other quizzes, make no
      difference. */
  lemma {:induction false} RecomputingGivesTheSameRow(rules: TextRules, now: Time, run: seq<Action>, q: QuizId)
      returns (k: nat)
    requires var db := Exec(rules, Empty(now), run); q < |db.quizzes| && db.quizzes[q].stats.Some?
    ensures RolledUpAt(rules, now, run, q, k)
    ensures var rolled, db := Exec(rules, Empty(now), run[..k]), Exec(rules, Empty(now), run);
            && |rolled.attempts| <= |db.attempts|
            && (SameMarks(rolled.attempts, db.attempts, q)
                || MissesQuiz(rolled.attempts, q, OverriddenIn(run[k + 1..])) ==>
                  db.quizzes[q].stats.value == Rollup.Compute(Rollup.Inputs(db, q)))
  {
    k := RowHasARollup(rules, now, run, q);
    SinceRollup(rules, now, run, q, k);
  }

  /** An override leaves the statistics row standing and changes one input: the score of its attempt. */
  lemma OverrideOnlyZeroesOneScore(db: DB, actor: Actor, a: AttemptId)
    ensures var db' := OverrideScore(db, actor, a).db;
            && db'.quizzes == db.quizzes && |db'.attempts| == |db.attempts|
            && (forall i | 0 <= i < |db.attempts| && i != a :: db'.attempts[i] == db.attempts[i])
            && (a < |db.attempts| && db'.attempts[a] != db.attempts[a] ==>
                  && db.attempts[a].kind == Some(ByKick) && db.attempts[a].status.Graded?
                  && db'.attempts[a] == db.attempts[a].(score := Some(0.0), overriddenAt := Some(db.now)))
  {
  }
}
