/** The integrity summary of a rollup (server/internal/analytics/rollup.go, integritySummary): violations
    and kicks over every attempt of a quiz, in total and student by student. */
module Integrity {
  import opened Common
  import opened Schema
  import Rollup

  datatype Tally = Tally(violations: nat, kicked: bool)
  datatype Line = Line(student: UserId, tally: Tally)
  datatype Summary = Summary(kickedAttempts: nat, flaggedStudents: nat, totalViolations: nat, perStudent: seq<Line>)

  // ----- One student -----

  function ViolationsOf(rows: seq<Attempt>, s: UserId): nat {
    if rows == [] then 0
    else
      var last := rows[|rows| - 1];
      ViolationsOf(rows[..|rows| - 1], s) + (if last.student == s then last.violations else 0)
  }

  predicate KickedOn(rows: seq<Attempt>, s: UserId) {
    exists i | 0 <= i < |rows| :: rows[i].student == s && rows[i].kind == Some(ByKick)
  }

  function TallyOf(rows: seq<Attempt>, s: UserId): Tally {
    Tally(ViolationsOf(rows, s), KickedOn(rows, s))
  }

  predicate Listed(rows: seq<Attempt>, s: UserId) {
    ViolationsOf(rows, s) > 0 || KickedOn(rows, s)
  }

  // ----- The report -----

  predicate Ascending(lines: seq<Line>) {
    forall i, j | 0 <= i < j < |lines| :: lines[i].student < lines[j].student
  }

  function Flagged(lines: seq<Line>): nat {
    if lines == [] then 0
    else Flagged(lines[..|lines| - 1]) + (if lines[|lines| - 1].tally.violations > 0 then 1 else 0)
  }

  function LineViolations(lines: seq<Line>): nat {
    if lines == [] then 0 else LineViolations(lines[..|lines| - 1]) + lines[|lines| - 1].tally.violations
  }

  /** The students with a violation. */
  function FlaggedStudents(rows: seq<Attempt>): set<UserId> {
    set i | 0 <= i < |rows| && ViolationsOf(rows, rows[i].student) > 0 :: rows[i].student
  }

  function FlaggedOn(lines: seq<Line>): set<UserId> {
    set i | 0 <= i < |lines| && lines[i].tally.violations > 0 :: lines[i].student
  }

  lemma {:induction false} FlaggedAreLines(lines: seq<Line>)
    requires Ascending(lines)
    ensures Flagged(lines) == |FlaggedOn(lines)|
  {
    if lines != [] {
      var init, last := lines[..|lines| - 1], lines[|lines| - 1];
      FlaggedAreLines(init);
      FlaggedSnoc(lines);
      assert last.student !in FlaggedOn(init);
    }
  }

  lemma FlaggedSnoc(lines: seq<Line>)
    requires lines != []
    ensures var init, last := lines[..|lines| - 1], lines[|lines| - 1];
            FlaggedOn(lines) == FlaggedOn(init) + if last.tally.violations > 0 then {last.student} else {}
  {
    var init, last := lines[..|lines| - 1], lines[|lines| - 1];
    forall s
      ensures s in FlaggedOn(lines) <==> s in FlaggedOn(init) || (last.tally.violations > 0 && s == last.student)
    {
      if s in FlaggedOn(init) {
        var i :| 0 <= i < |init| && init[i].tally.violations > 0 && init[i].student == s;
        assert lines[i] == init[i];
      }
      if s in FlaggedOn(lines) {
        var i :| 0 <= i < |lines| && lines[i].tally.violations > 0 && lines[i].student == s;
        assert i < |init| ==> lines[i] == init[i];
      }
    }
  }

  predicate HasLine(lines: seq<Line>, s: UserId) {
    exists i | 0 <= i < |lines| :: lines[i].student == s
  }

  /** One line, in student order, for exactly the students flagged or kicked, with their own tally. */
  ghost predicate Lists(lines: seq<Line>, rows: seq<Attempt>) {
    && Ascending(lines)
    && (forall i | 0 <= i < |lines| :: lines[i].tally == TallyOf(rows, lines[i].student))
    && (forall s: UserId :: HasLine(lines, s) <==> Listed(rows, s))
  }

  lemma {:induction false} NotSeen(rows: seq<Attempt>, s: UserId)
    requires forall i | 0 <= i < |rows| :: rows[i].student != s
    ensures ViolationsOf(rows, s) == 0
  {
    if rows != [] {
      NotSeen(rows[..|rows| - 1], s);
    }
  }

  lemma TallyStep(rows: seq<Attempt>, i: nat, s: UserId)
    requires i < |rows|
    ensures TallyOf(rows[..i + 1], s) ==
            if rows[i].student == s
            then Tally(ViolationsOf(rows[..i], s) + rows[i].violations,
                       KickedOn(rows[..i], s) || rows[i].kind == Some(ByKick))
            else TallyOf(rows[..i], s)
  {
    var now, before := rows[..i + 1], rows[..i];
    assert now[..i] == before;
    assert forall k | 0 <= k < i :: now[k] == before[k];
    assert now[i] == rows[i];
  }

  predicate Tallied(perStudent: map<UserId, Tally>, rows: seq<Attempt>) {
    && (forall s | s in perStudent :: perStudent[s] == TallyOf(rows, s))
    && (forall i | 0 <= i < |rows| :: rows[i].student in perStudent)
  }

  lemma UntalliedIsBlank(perStudent: map<UserId, Tally>, rows: seq<Attempt>, s: UserId)
    requires Tallied(perStudent, rows) && s !in perStudent
    ensures TallyOf(rows, s) == Tally(0, false)
  {
    NotSeen(rows, s);
  }

  /** The flagged lines are one for each student with a violation. */
  lemma FlaggedAreStudents(rows: seq<Attempt>, lines: seq<Line>)
    requires Lists(lines, rows)
    ensures Flagged(lines) == |FlaggedStudents(rows)|
  {
    FlaggedAreLines(lines);
    forall s: UserId
      ensures s in FlaggedOn(lines) <==> s in FlaggedStudents(rows)
    {
      if (forall i | 0 <= i < |rows| :: rows[i].student != s) {
        NotSeen(rows, s);
      }
      assert HasLine(lines, s) <==> Listed(rows, s);
    }
    assert FlaggedOn(lines) == FlaggedStudents(rows);
  }

  method IntegritySummary(rows: seq<Attempt>) returns (out: Summary)
    ensures out.kickedAttempts == Rollup.KickedAttempts(rows) && out.totalViolations == Rollup.Violations(rows)
    ensures Lists(out.perStudent, rows) && out.flaggedStudents == |FlaggedStudents(rows)|
  {
    var perStudent: map<UserId, Tally> := map[];
    var total, kickedAttempts := 0, 0;
    for i := 0 to |rows|
      invariant total == Rollup.Violations(rows[..i]) && kickedAttempts == Rollup.KickedAttempts(rows[..i])
      invariant Tallied(perStudent, rows[..i])
    {
      assert rows[..i + 1][..i] == rows[..i];
      var sid, kicked := rows[i].student, rows[i].kind == Some(ByKick);
      total := total + rows[i].violations;
      if kicked {
        kickedAttempts := kickedAttempts + 1;
      }
      forall s {
        TallyStep(rows, i, s);
      }
      if sid !in perStudent {
        UntalliedIsBlank(perStudent, rows[..i], sid);
      }
      var tally := if sid in perStudent then perStudent[sid] else Tally(0, false);
      perStudent := perStudent[sid := Tally(tally.violations + rows[i].violations, tally.kicked || kicked)];
    }
    assert rows[..|rows|] == rows;
    var lines, flagged := Report(perStudent, rows);
    FlaggedAreStudents(rows, lines);
    out := Summary(kickedAttempts, flagged, total, lines);
  }

  /** The lines written so far, for the students in done. */
  predicate Covers(lines: seq<Line>, perStudent: map<UserId, Tally>, done: set<UserId>) {
    && Ascending(lines)
    && (forall i | 0 <= i < |lines| :: lines[i].student in done && lines[i].student in perStudent
                                       && lines[i].tally == perStudent[lines[i].student])
    && (forall s | s in done :: HasLine(lines, s))
  }

  lemma HasLineSnoc(lines: seq<Line>, line: Line, s: UserId)
    ensures HasLine(lines + [line], s) <==> HasLine(lines, s) || line.student == s
  {
    var more := lines + [line];
    assert more[|lines|] == line;
    if HasLine(lines, s) {
      var i :| 0 <= i < |lines| && lines[i].student == s;
      assert more[i].student == s;
    }
  }

  lemma CoversSnoc(lines: seq<Line>, perStudent: map<UserId, Tally>, done: set<UserId>, sid: UserId)
    requires Covers(lines, perStudent, done) && sid in perStudent && forall s | s in done :: s < sid
    ensures Covers(lines + [Line(sid, perStudent[sid])], perStudent, done + {sid})
  {
    forall s | s in done + {sid} {
      HasLineSnoc(lines, Line(sid, perStudent[sid]), s);
    }
  }

  function Notable(perStudent: map<UserId, Tally>): set<UserId> {
    set s | s in perStudent && (perStudent[s].violations > 0 || perStudent[s].kicked)
  }

  lemma CoveredIsListed(lines: seq<Line>, perStudent: map<UserId, Tally>, rows: seq<Attempt>)
    requires Tallied(perStudent, rows) && Covers(lines, perStudent, Notable(perStudent))
    ensures Lists(lines, rows)
  {
    forall s: UserId
      ensures HasLine(lines, s) <==> Listed(rows, s)
    {
      if s !in perStudent {
        UntalliedIsBlank(perStudent, rows, s);
      }
      assert s in Notable(perStudent) ==> HasLine(lines, s);
    }
  }

  /** The students flagged or kicked, sorted, and their lines. */
  method Report(perStudent: map<UserId, Tally>, ghost rows: seq<Attempt>) returns (lines: seq<Line>, flagged: nat)
    requires Tallied(perStudent, rows)
    ensures Lists(lines, rows) && flagged == Flagged(lines)
  {
    var left := Notable(perStudent);
    lines, flagged := [], 0;
    ghost var done: set<UserId> := {};
    while left != {}
      invariant done + left == Notable(perStudent)
      invariant forall d, s | d in done && s in left :: d < s
      invariant Covers(lines, perStudent, done) && flagged == Flagged(lines)
      decreases left
    {
      ExtremesExist(left);
      var sid :| sid in left && forall k | k in left :: sid <= k;
      CoversSnoc(lines, perStudent, done, sid);
      left := left - {sid};
      done := done + {sid};
      var line := Line(sid, perStudent[sid]);
      assert (lines + [line])[..|lines|] == lines;
      lines := lines + [line];
      if line.tally.violations > 0 {
        flagged := flagged + 1;
      }
    }
    assert done == Notable(perStudent);
    CoveredIsListed(lines, perStudent, rows);
  }

  // ----- Nothing is lost -----

  lemma {:induction false} LinesWithout(lines: seq<Line>, fewer: seq<Line>, s: UserId, n: nat)
    requires |lines| == |fewer| && Ascending(lines)
    requires forall i | 0 <= i < |lines| ::
               lines[i].student == fewer[i].student
               && lines[i].tally.violations == fewer[i].tally.violations + (if lines[i].student == s then n else 0)
    ensures LineViolations(lines) == LineViolations(fewer) + (if HasLine(lines, s) then n else 0)
  {
    if lines != [] {
      var k := |lines| - 1;
      LinesWithout(lines[..k], fewer[..k], s, n);
      if lines[k].student == s {
        assert forall i | 0 <= i < k :: lines[..k][i].student < s;
      } else if HasLine(lines, s) {
        var i :| 0 <= i < |lines| && lines[i].student == s;
        assert lines[..k][i].student == s;
      }
    }
  }

  lemma {:induction false} LinesCarryTheTotal(rows: seq<Attempt>, lines: seq<Line>)
    requires Ascending(lines)
    requires forall i | 0 <= i < |lines| :: lines[i].tally.violations == ViolationsOf(rows, lines[i].student)
    requires forall s: UserId :: ViolationsOf(rows, s) > 0 ==> HasLine(lines, s)
    ensures LineViolations(lines) == Rollup.Violations(rows)
  {
    if rows == [] {
      AllBlank(lines);
    } else {
      var init, last := rows[..|rows| - 1], rows[|rows| - 1];
      var fewer := seq(|lines|, i requires 0 <= i < |lines| =>
        Line(lines[i].student, Tally(ViolationsOf(init, lines[i].student), lines[i].tally.kicked)));
      forall s: UserId | ViolationsOf(init, s) > 0
        ensures HasLine(fewer, s)
      {
        assert ViolationsOf(rows, s) > 0;
        var i :| 0 <= i < |lines| && lines[i].student == s;
        assert fewer[i].student == s;
      }
      LinesCarryTheTotal(init, fewer);
      LinesWithout(lines, fewer, last.student, last.violations);
      assert last.violations > 0 ==> ViolationsOf(rows, last.student) > 0;
    }
  }

  lemma {:induction false} AllBlank(lines: seq<Line>)
    requires forall i | 0 <= i < |lines| :: lines[i].tally.violations == 0
    ensures LineViolations(lines) == 0
  {
    if lines != [] {
      AllBlank(lines[..|lines| - 1]);
    }
  }

  /** The lines of the report add up to its total, although unflagged students have none. */
  lemma ReportAddsUp(rows: seq<Attempt>, lines: seq<Line>)
    requires Lists(lines, rows)
    ensures LineViolations(lines) == Rollup.Violations(rows)
  {
    forall s: UserId | ViolationsOf(rows, s) > 0
      ensures HasLine(lines, s)
    {
      assert Listed(rows, s);
    }
    LinesCarryTheTotal(rows, lines);
  }
}
