/** GradeSubmitted lists the ungraded attempts by submission time and grades them one transaction each
    (server/internal/attempt/grade.go:54-87). The order, a repeated id and a concurrent grader make no
    difference to any row or to any attempt's stream. */
module GradingOrder {
  import opened Common
  import opened Grading
  import opened Schema
  import opened Transactions
  import RowsKept
  import SweepFixpoint

  function GradeList(rules: TextRules, db: DB, ids: seq<AttemptId>): DB {
    if ids == [] then db else GradeOne(rules, GradeList(rules, db, ids[..|ids| - 1]), ids[|ids| - 1])
  }

  predicate Ungraded(db: DB, a: AttemptId) {
    && a < |db.attempts| && (db.attempts[a].status.Submitted? || db.attempts[a].status.Kicked?)
    && PinnedSnapshot(db.quizzes, db.attempts[a]).Some?
  }

  /** What grading appends to one attempt's stream. */
  function GradedEvents(rules: TextRules, db: DB, a: AttemptId): seq<Event> {
    if Ungraded(db, a) then
      [GradedEvent(Score(rules, PinnedSnapshot(db.quizzes, db.attempts[a]).value.questions, db.attempts[a].answers))]
    else []
  }

  predicate GradedExactly(rules: TextRules, db: DB, db': DB, ids: set<AttemptId>) {
    && db'.now == db.now && db'.quizzes == db.quizzes && db'.audit == db.audit && |db'.attempts| == |db.attempts|
    && forall i | 0 <= i < |db.attempts| ::
         db'.attempts[i]
         == if i in ids then SweepFixpoint.GradedIfDue(rules, db.quizzes, db.attempts[i]) else db.attempts[i]
  }

  ghost predicate StreamsExactly(rules: TextRules, db: DB, db': DB, ids: set<AttemptId>) {
    forall a: AttemptId ::
      Of(db'.log, a) == Of(db.log, a) + (if a in ids then GradedEvents(rules, db, a) else [])
  }

  lemma GradeOneExactly(rules: TextRules, db: DB, a: AttemptId)
    ensures GradedExactly(rules, db, GradeOne(rules, db, a), {a})
    ensures StreamsExactly(rules, db, GradeOne(rules, db, a), {a})
  {
    forall b: AttemptId
      ensures Of(GradeOne(rules, db, a).log, b) == Of(db.log, b) + (if b in {a} then GradedEvents(rules, db, b) else [])
    {
      assert Of(db.log, b) + [] == Of(db.log, b);
      if Ungraded(db, a) {
        var snapshot := PinnedSnapshot(db.quizzes, db.attempts[a]).value;
        var row := GradedRow(rules, db.attempts[a], snapshot);
        RowsKept.WithAttemptLog(db, a, row, [GradedEvent(row.score.value)], b);
      }
    }
  }

  lemma ThenGraded(rules: TextRules, db: DB, mid: DB, done: set<AttemptId>, a: AttemptId)
    requires GradedExactly(rules, db, mid, done) && StreamsExactly(rules, db, mid, done)
    ensures GradedExactly(rules, db, GradeOne(rules, mid, a), done + {a})
    ensures StreamsExactly(rules, db, GradeOne(rules, mid, a), done + {a})
  {
    GradeOneExactly(rules, mid, a);
    forall b: AttemptId
      ensures Of(GradeOne(rules, mid, a).log, b)
           == Of(db.log, b) + (if b in done + {a} then GradedEvents(rules, db, b) else [])
    {
      var before, now: seq<Event> := if b in done then GradedEvents(rules, db, b) else [],
                                     if b in {a} then GradedEvents(rules, mid, b) else [];
      assert Of(mid.log, b) == Of(db.log, b) + before;
      assert Of(GradeOne(rules, mid, a).log, b) == Of(mid.log, b) + now;
      assert now == [] || before == [];
      assert Of(db.log, b) + [] == Of(db.log, b);
    }
  }

  lemma {:induction false} GradeListExactly(rules: TextRules, db: DB, ids: seq<AttemptId>)
    ensures GradedExactly(rules, db, GradeList(rules, db, ids), Elements(ids))
    ensures StreamsExactly(rules, db, GradeList(rules, db, ids), Elements(ids))
  {
    if ids == [] {
      assert forall a: AttemptId :: Of(db.log, a) + [] == Of(db.log, a);
    } else {
      var init, last := ids[..|ids| - 1], ids[|ids| - 1];
      GradeListExactly(rules, db, init);
      ThenGraded(rules, db, GradeList(rules, db, init), Elements(init), last);
      assert ids == init + [last];
      assert Elements(ids) == Elements(init) + {last};
    }
  }

  function UpTo(n: nat): seq<AttemptId> {
    if n == 0 then [] else UpTo(n - 1) + [n - 1]
  }

  lemma {:induction false} GradeUpToIsAList(rules: TextRules, db: DB, n: nat)
    ensures GradeUpTo(rules, db, n) == GradeList(rules, db, UpTo(n))
    ensures forall a: AttemptId :: a in UpTo(n) <==> a < n
  {
    if n > 0 {
      GradeUpToIsAList(rules, db, n - 1);
      assert UpTo(n)[..|UpTo(n)| - 1] == UpTo(n - 1);
    }
  }

  /** Any list holding every ungraded attempt, in any order and with any repetition, grades every row and
      extends every attempt's stream exactly as the pass in table order does. */
  lemma GradingOrderDoesNotMatter(rules: TextRules, db: DB, ids: seq<AttemptId>)
    requires forall a: AttemptId | Ungraded(db, a) :: a in ids
    ensures var db', pass := GradeList(rules, db, ids), GradeSubmitted(rules, db);
            && db'.attempts == pass.attempts && db'.quizzes == pass.quizzes && db'.audit == pass.audit
            && forall a: AttemptId :: Of(db'.log, a) == Of(pass.log, a)
  {
    var all := UpTo(|db.attempts|);
    GradeUpToIsAList(rules, db, |db.attempts|);
    GradeListExactly(rules, db, ids);
    GradeListExactly(rules, db, all);
    var db', pass := GradeList(rules, db, ids), GradeSubmitted(rules, db);
    forall i | 0 <= i < |db.attempts|
      ensures db'.attempts[i] == pass.attempts[i]
    {
      assert i in all && (Ungraded(db, i) ==> i in ids);
    }
    forall a: AttemptId
      ensures Of(db'.log, a) == Of(pass.log, a)
    {
      assert Ungraded(db, a) ==> a in ids && a in all;
    }
  }
}
