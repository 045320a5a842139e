/** The quiz_stats row as a function of what it is computed from
    (server/internal/analytics/rollup.go). */
module Rollup {
  import opened Common
  import opened Grading
  import opened Schema
  import opened Statistics
  import Averages

  const BUCKETS := 10

  /** Everything the rollup of one quiz reads: the attempts on it with their answers, the audience,
      and the snapshots the attempts pinned. */
  datatype Source = Source(attempts: seq<Attempt>, audience: set<UserId>, versions: seq<Snapshot>)

  function AttemptsOn(attempts: seq<Attempt>, q: QuizId): seq<Attempt> {
    if attempts == [] then []
    else
      var rest, last := AttemptsOn(attempts[..|attempts| - 1], q), attempts[|attempts| - 1];
      if last.quiz == q then rest + [last] else rest
  }

  function Inputs(db: DB, q: QuizId): Source
    requires q < |db.quizzes|
  {
    Source(AttemptsOn(db.attempts, q), db.quizzes[q].audience, db.quizzes[q].versions)
  }

  // ----- Best attempt per student -----

  function IndexOfStudent(rows: seq<Attempt>, s: UserId): (r: Option<nat>)
    ensures r.Some? ==> r.value < |rows| && rows[r.value].student == s
    ensures r.None? ==> forall i | 0 <= i < |rows| :: rows[i].student != s
  {
    if rows == [] then None
    else if rows[|rows| - 1].student == s then Some(|rows| - 1)
    else IndexOfStudent(rows[..|rows| - 1], s)
  }

  /** One row per student with a graded attempt: the first of their highest scores. */
  function Best(attempts: seq<Attempt>): seq<Attempt> {
    if attempts == [] then []
    else
      var rest, last := Best(attempts[..|attempts| - 1]), attempts[|attempts| - 1];
      if !last.status.Graded? || last.score.None? then rest
      else
        match IndexOfStudent(rest, last.student)
        case None => rest + [last]
        case Some(i) => if last.score.value > rest[i].score.GetOr(0.0) then rest[i := last] else rest
  }

  /** A row the rollup counts. */
  predicate Counted(a: Attempt) {
    a.status.Graded? && a.score.Some?
  }

  /** It is a counted attempt, and no counted attempt of its student scores higher. */
  predicate HighestOfStudent(row: Attempt, attempts: seq<Attempt>) {
    && row in attempts && Counted(row)
    && forall a | a in attempts && Counted(a) && a.student == row.student :: a.score.value <= row.score.value
  }

  predicate Represented(best: seq<Attempt>, s: UserId) {
    exists i | 0 <= i < |best| :: best[i].student == s
  }

  /** One row for each student with a counted attempt, their highest, and no other. */
  predicate BestOf(best: seq<Attempt>, attempts: seq<Attempt>) {
    && (forall i | 0 <= i < |best| :: HighestOfStudent(best[i], attempts))
    && (forall i, j | 0 <= i < j < |best| :: best[i].student != best[j].student)
    && (forall a | a in attempts && Counted(a) :: Represented(best, a.student))
  }

  /** The rollup counts exactly the students with a graded score, each once, by their highest. */
  lemma {:induction false} BestIsHighestPerStudent(attempts: seq<Attempt>)
    ensures BestOf(Best(attempts), attempts)
  {
    if attempts != [] {
      var init, last := attempts[..|attempts| - 1], attempts[|attempts| - 1];
      BestIsHighestPerStudent(init);
      assert attempts == init + [last];
      BestStep(init, last);
    }
  }

  lemma {:induction false} BestStep(init: seq<Attempt>, last: Attempt)
    requires BestOf(Best(init), init)
    ensures BestOf(Best(init + [last]), init + [last])
  {
    var rest := Best(init);
    assert (init + [last])[..|init|] == init;
    if !Counted(last) {
      Uncounted(rest, init, last);
    } else {
      var found := IndexOfStudent(rest, last.student);
      if found.None? {
        FirstOfStudent(rest, init, last);
      } else {
        assert HighestOfStudent(rest[found.value], init);
        AnotherOfStudent(rest, init, last, found.value);
      }
    }
  }

  lemma Uncounted(rest: seq<Attempt>, init: seq<Attempt>, last: Attempt)
    requires BestOf(rest, init) && !Counted(last)
    ensures BestOf(rest, init + [last])
  {
    forall i | 0 <= i < |rest|
      ensures HighestOfStudent(rest[i], init + [last])
    {
      assert HighestOfStudent(rest[i], init);
    }
  }

  lemma FirstOfStudent(rest: seq<Attempt>, init: seq<Attempt>, last: Attempt)
    requires BestOf(rest, init) && Counted(last) && forall i | 0 <= i < |rest| :: rest[i].student != last.student
    ensures BestOf(rest + [last], init + [last])
  {
    forall a | a in init && Counted(a)
      ensures a.student != last.student && Represented(rest + [last], a.student)
    {
      assert Represented(rest, a.student);
      var i :| 0 <= i < |rest| && rest[i].student == a.student;
      assert (rest + [last])[i].student == a.student;
    }
    forall i | 0 <= i < |rest|
      ensures HighestOfStudent(rest[i], init + [last])
    {
      assert HighestOfStudent(rest[i], init);
    }
    assert (rest + [last])[|rest|].student == last.student;
  }

  lemma AnotherOfStudent(rest: seq<Attempt>, init: seq<Attempt>, last: Attempt, i: nat)
    requires BestOf(rest, init) && Counted(last) && i < |rest| && rest[i].student == last.student && Counted(rest[i])
    ensures BestOf(if last.score.value > rest[i].score.value then rest[i := last] else rest, init + [last])
  {
    var best := if last.score.value > rest[i].score.value then rest[i := last] else rest;
    forall j | 0 <= j < |best|
      ensures HighestOfStudent(best[j], init + [last])
    {
      assert HighestOfStudent(rest[j], init);
    }
    forall a | a in init + [last] && Counted(a)
      ensures Represented(best, a.student)
    {
      if a in init {
        assert Represented(rest, a.student);
        var j :| 0 <= j < |rest| && rest[j].student == a.student;
        assert best[j].student == a.student;
      } else {
        assert best[i].student == a.student;
      }
    }
  }

  // ----- Histogram -----

  /** Truncation toward zero, as a float64 converts to int. */
  function Truncate(x: real): int {
    if x >= 0.0 then x.Floor else -((-x).Floor)
  }

  function BucketIndex(score: real, maxScore: Option<real>): (k: nat)
    ensures k < BUCKETS
  {
    if maxScore.None? || maxScore.value <= 0.0 then 0
    else
      var k := Truncate(score / maxScore.value * BUCKETS as real);
      if k < 0 then 0 else if k >= BUCKETS then BUCKETS - 1 else k
  }

  /** Bucket k holds the scores from k tenths of the maximum up to, and without, the next tenth; the last one
      holds the maximum and everything above it. */
  predicate InBucket(score: real, max: real, k: nat) {
    if score >= max then k == 9 else k as real * max <= 10.0 * score < (k + 1) as real * max
  }

  /** A score without a maximum goes into the first bucket. */
  lemma BucketIndexIff(score: real, maxScore: Option<real>, k: nat)
    requires score >= 0.0 && k < 10
    ensures BucketIndex(score, maxScore) == k <==>
            if maxScore.None? || maxScore.value <= 0.0 then k == 0 else InBucket(score, maxScore.value, k)
  {
    if maxScore.Some? && maxScore.value > 0.0 {
      BucketOfTenths(score, maxScore.value, k);
      TenthsWithin(score, maxScore.value, k);
    }
  }

  predicate WithinTenths(tenths: real, k: nat) {
    if tenths >= 10.0 then k == 9 else k as real <= tenths < (k + 1) as real
  }

  lemma TenthsWithin(score: real, max: real, k: nat)
    requires score >= 0.0 && max > 0.0 && k < 10
    ensures InBucket(score, max, k) <==> WithinTenths(score / max * 10.0, k)
  {
    TenthsOrder(score, max, k as real);
    TenthsOrder(score, max, (k + 1) as real);
  }

  lemma BucketOfTenths(score: real, max: real, k: nat)
    requires score >= 0.0 && max > 0.0 && k < 10
    ensures BucketIndex(score, Some(max)) == k <==> WithinTenths(score / max * 10.0, k)
  {
    TenthsOrder(score, max, 0.0);
    FloorOfTenths(score / max * 10.0, k);
  }

  lemma FloorOfTenths(tenths: real, k: nat)
    requires tenths >= 0.0 && k < 10
    ensures (if tenths.Floor >= 10 then 9 else tenths.Floor) == k <==> WithinTenths(tenths, k)
  {
  }

  lemma TenthsOrder(score: real, max: real, t: real)
    requires max > 0.0
    ensures t <= score / max * 10.0 <==> t * max <= 10.0 * score
    ensures score >= max <==> score / max * 10.0 >= 10.0
  {
    var share := score / max;
    assert max * share == score;
    var gap := 10.0 * share - t;
    assert max * gap == 10.0 * (max * share) - t * max;
    ProductSign(max, gap, 10.0 * score - t * max);
    ProductSign(max, share - 1.0, score - max);
  }

  /** A counted score with the maximum of the snapshot it was earned on; None when it has no points. */
  datatype Scored = Scored(score: real, maxScore: Option<real>)

  function CountIn(rows: seq<Scored>, k: nat): nat {
    if rows == [] then 0
    else
      var last := rows[|rows| - 1];
      CountIn(rows[..|rows| - 1], k) + (if BucketIndex(last.score, last.maxScore) == k then 1 else 0)
  }

  function Histogram(rows: seq<Scored>): seq<nat> {
    seq(BUCKETS, k requires 0 <= k < BUCKETS => CountIn(rows, k))
  }

  function Total(counts: seq<nat>): nat {
    if counts == [] then 0 else Total(counts[..|counts| - 1]) + counts[|counts| - 1]
  }

  /** The bucket loop, in place over the ten counters. */
  method FillBuckets(rows: seq<Scored>) returns (counts: seq<nat>)
    ensures counts == Histogram(rows)
    ensures Total(counts) == |rows|
  {
    var buckets := new nat[BUCKETS](_ => 0);
    for i := 0 to |rows|
      invariant forall k | 0 <= k < BUCKETS :: buckets[k] == CountIn(rows[..i], k)
    {
      assert rows[..i + 1][..i] == rows[..i];
      var k := BucketIndex(rows[i].score, rows[i].maxScore);
      buckets[k] := buckets[k] + 1;
    }
    assert rows[..|rows|] == rows;
    counts := buckets[..];
    HistogramConservesRows(rows);
    assert counts == Histogram(rows);
  }

  lemma TotalStep(c: seq<nat>, i: nat)
    requires i < |c|
    ensures Total(c[..i + 1]) == Total(c[..i]) + c[i]
    ensures Total(c[..0]) == 0
  {
    assert c[..i + 1][..i] == c[..i];
  }

  lemma {:induction false} TotalSame(c: seq<nat>, d: seq<nat>, zero: bool)
    requires |c| == |d| && forall i | 0 <= i < |c| :: c[i] == d[i] && (zero ==> c[i] == 0)
    ensures Total(c) == Total(d) && (zero ==> Total(c) == 0)
  {
    if c != [] {
      TotalSame(c[..|c| - 1], d[..|d| - 1], zero);
    }
  }

  lemma {:induction false} TotalBump(c: seq<nat>, d: seq<nat>, k: nat)
    requires |c| == |d| && k < |c| && d[k] == c[k] + 1
    requires forall i | 0 <= i < |c| && i != k :: d[i] == c[i]
    ensures Total(d) == Total(c) + 1
  {
    var n := |c| - 1;
    if k == n {
      TotalSame(c[..n], d[..n], false);
    } else {
      TotalBump(c[..n], d[..n], k);
    }
  }

  /** Every counted score falls into exactly one bucket. */
  lemma {:induction false} HistogramConservesRows(rows: seq<Scored>)
    ensures Total(Histogram(rows)) == |rows|
  {
    if rows == [] {
      TotalSame(Histogram(rows), Histogram(rows), true);
    } else {
      var last := rows[|rows| - 1];
      HistogramConservesRows(rows[..|rows| - 1]);
      TotalBump(Histogram(rows[..|rows| - 1]), Histogram(rows), BucketIndex(last.score, last.maxScore));
    }
  }

  // ----- Percentile -----

  /** Half the own bucket plus everything below it, as a share of the total. */
  function PercentileOf(counts: seq<nat>, score: real, maxScore: real): Option<real> {
    if maxScore <= 0.0 || |counts| != BUCKETS || Total(counts) == 0 then None
    else
      var k := BucketIndex(score, Some(maxScore));
      Some((Total(counts[..k]) as real + 0.5 * counts[k] as real) / Total(counts) as real * 100.0)
  }

  method QuizPercentile(counts: seq<nat>, score: real, maxScore: real) returns (r: Option<real>)
    ensures r == PercentileOf(counts, score, maxScore)
  {
    if maxScore <= 0.0 || |counts| != BUCKETS {
      return None;
    }
    var total := 0;
    for i := 0 to |counts|
      invariant total == Total(counts[..i])
    {
      TotalStep(counts, i);
      total := total + counts[i];
    }
    assert counts[..|counts|] == counts;
    if total == 0 {
      return None;
    }
    var k := BucketIndex(score, Some(maxScore));
    var below := 0;
    for i := 0 to k
      invariant below == Total(counts[..i])
    {
      TotalStep(counts, i);
      below := below + counts[i];
    }
    return Some((below as real + 0.5 * counts[k] as real) / total as real * 100.0);
  }

  lemma {:induction false} TotalMonotone(c: seq<nat>, i: nat, j: nat)
    requires i <= j <= |c|
    ensures Total(c[..i]) <= Total(c[..j])
  {
    if i < j {
      TotalMonotone(c, i, j - 1);
      TotalStep(c, j - 1);
    }
  }

  lemma FloorMonotone(x: real, y: real)
    requires x <= y
    ensures x.Floor <= y.Floor
  {
  }

  lemma ShareMonotone(x: real, y: real, m: real)
    requires m > 0.0 && x <= y
    ensures x / m * BUCKETS as real <= y / m * BUCKETS as real
  {
    var p, q := x / m, y / m;
    assert m * p == x && m * q == y;
    ProductSign(m, q - p, y - x);
  }

  lemma {:induction false} BucketMonotone(x: real, y: real, m: real)
    requires m > 0.0 && x <= y
    ensures BucketIndex(x, Some(m)) <= BucketIndex(y, Some(m))
  {
    ShareMonotone(x, y, m);
    var u, v := x / m * BUCKETS as real, y / m * BUCKETS as real;
    if u >= 0.0 {
      FloorMonotone(u, v);
    } else if v < 0.0 {
      FloorMonotone(-v, -u);
    }
  }

  lemma QuotientOrder(a: real, b: real, n: real)
    requires n > 0.0 && a <= b
    ensures a / n * 100.0 <= b / n * 100.0
    ensures 0.0 <= a ==> 0.0 <= a / n * 100.0
    ensures b <= n ==> b / n * 100.0 <= 100.0
  {
    var p, q := a / n, b / n;
    assert n * p == a && n * q == b;
    ProductSign(n, q - p, b - a);
    ProductSign(n, p, a);
    ProductSign(n, 1.0 - q, n - b);
  }

  /** A percentile stays between 0 and 100, and a higher score on the same quiz never has a lower one. */
  lemma PercentileBoundedAndMonotone(counts: seq<nat>, x: real, y: real, m: real)
    requires x <= y
    ensures PercentileOf(counts, x, m).Some? == PercentileOf(counts, y, m).Some?
    ensures PercentileOf(counts, x, m).Some? ==>
              0.0 <= PercentileOf(counts, x, m).value <= PercentileOf(counts, y, m).value <= 100.0
  {
    if PercentileOf(counts, x, m).Some? {
      var j, k := BucketIndex(x, Some(m)), BucketIndex(y, Some(m));
      BucketMonotone(x, y, m);
      TotalStep(counts, j);
      TotalStep(counts, k);
      TotalMonotone(counts, k + 1, |counts|);
      assert counts[..|counts|] == counts;
      if j < k {
        TotalMonotone(counts, j + 1, k);
      }
      QuotientOrder(Total(counts[..j]) as real + 0.5 * counts[j] as real,
                    Total(counts[..k]) as real + 0.5 * counts[k] as real, Total(counts) as real);
    }
  }

  /** How many of the counted scores fall below bucket k. */
  function CountBelow(rows: seq<Scored>, k: nat): nat {
    if rows == [] then 0
    else
      var last := rows[|rows| - 1];
      CountBelow(rows[..|rows| - 1], k) + (if BucketIndex(last.score, last.maxScore) < k then 1 else 0)
  }

  lemma {:induction false} OneBucketMore(rows: seq<Scored>, k: nat)
    ensures CountBelow(rows, k + 1) == CountBelow(rows, k) + CountIn(rows, k)
    ensures CountBelow(rows, 0) == 0
  {
    if rows != [] {
      OneBucketMore(rows[..|rows| - 1], k);
    }
  }

  lemma {:induction false} BelowIsTotal(rows: seq<Scored>, k: nat)
    requires k <= BUCKETS
    ensures Total(Histogram(rows)[..k]) == CountBelow(rows, k)
  {
    if k == 0 {
      OneBucketMore(rows, 0);
    } else {
      BelowIsTotal(rows, k - 1);
      OneBucketMore(rows, k - 1);
      TotalStep(Histogram(rows), k - 1);
    }
  }

  /** All of `below` and half of `own`, in percent of the total. */
  predicate IsShare(percent: Option<real>, below: nat, own: nat, total: nat) {
    percent.Some? && percent.value * total as real == 100.0 * below as real + 50.0 * own as real
  }

  /** Read from the distribution of some scores, a percentile is the share of them in lower buckets, with half
      of those in its own. */
  lemma PercentileIsShareBelow(rows: seq<Scored>, score: real, maxScore: real)
    requires rows != [] && maxScore > 0.0
    ensures var k := BucketIndex(score, Some(maxScore));
            IsShare(PercentileOf(Histogram(rows), score, maxScore), CountBelow(rows, k), CountIn(rows, k), |rows|)
  {
    HistogramConservesRows(rows);
    BelowIsTotal(rows, BucketIndex(score, Some(maxScore)));
    PercentileTimesTotal(Histogram(rows), score, maxScore);
  }

  lemma PercentileTimesTotal(counts: seq<nat>, score: real, maxScore: real)
    requires maxScore > 0.0 && |counts| == BUCKETS && Total(counts) > 0
    ensures var k := BucketIndex(score, Some(maxScore));
            IsShare(PercentileOf(counts, score, maxScore), Total(counts[..k]), counts[k], Total(counts))
  {
    var k, p := BucketIndex(score, Some(maxScore)), PercentileOf(counts, score, maxScore);
    PercentIsShare(p.value, Total(counts[..k]), counts[k], Total(counts));
    assert p == Some(p.value);
  }

  lemma PercentIsShare(percent: real, below: nat, own: nat, total: nat)
    requires total > 0 && percent == (below as real + 0.5 * own as real) / total as real * 100.0
    ensures IsShare(Some(percent), below, own, total)
  {
    ShareTimesTotal(below as real + 0.5 * own as real, total as real);
  }

  lemma ShareTimesTotal(part: real, total: real)
    requires total != 0.0
    ensures part / total * 100.0 * total == 100.0 * part
  {
    var share := part / total;
    assert share * total == part;
  }

  // ----- The row -----

  function ScoredOf(a: Attempt, versions: seq<Snapshot>): Scored {
    Scored(a.score.GetOr(0.0),
           if 1 <= a.version <= |versions| && versions[a.version - 1].questions != []
           then Some(MaxScore(versions[a.version - 1].questions)) else None)
  }

  function ScoredRows(best: seq<Attempt>, versions: seq<Snapshot>): seq<Scored> {
    seq(|best|, i requires 0 <= i < |best| => ScoredOf(best[i], versions))
  }

  function Scores(rows: seq<Scored>): seq<real> {
    seq(|rows|, i requires 0 <= i < |rows| => rows[i].score)
  }

  function Attempted(attempts: seq<Attempt>): set<UserId> {
    set i | 0 <= i < |attempts| :: attempts[i].student
  }

  function KickedAttempts(attempts: seq<Attempt>): nat {
    if attempts == [] then 0
    else KickedAttempts(attempts[..|attempts| - 1]) + (if attempts[|attempts| - 1].kind == Some(ByKick) then 1 else 0)
  }

  function Violations(attempts: seq<Attempt>): nat {
    if attempts == [] then 0 else Violations(attempts[..|attempts| - 1]) + attempts[|attempts| - 1].violations
  }

  function Compute(source: Source): Stats {
    var rows := ScoredRows(Best(source.attempts), source.versions);
    Stats(Histogram(rows),
          Averages.MeanOf(Scores(rows)), Averages.MedianOf(Scores(rows)),
          if source.audience == {} then 0.0 else |Attempted(source.attempts)| as real / |source.audience| as real,
          KickedAttempts(source.attempts), Violations(source.attempts))
  }

  lemma {:induction false} SubsetIsSmaller(s: set<UserId>, t: set<UserId>)
    requires s <= t
    ensures |s| <= |t|
  {
    assert t == s + (t - s);
    assert |t| == |s| + |t - s|;
  }

  lemma ProperSubsetIsSmaller(s: set<UserId>, t: set<UserId>)
    requires s <= t && s != t
    ensures |s| < |t|
  {
    var x :| x in t && x !in s;
    SubsetIsSmaller(s + {x}, t);
  }

  /** While the audience still holds everybody who has taken the quiz, participation is a share of it. */
  lemma ParticipationIsAShare(source: Source)
    requires Attempted(source.attempts) <= source.audience
    ensures 0.0 <= Compute(source).participation <= 1.0
    ensures Compute(source).participation == 1.0 ==> Attempted(source.attempts) == source.audience
  {
    SubsetIsSmaller(Attempted(source.attempts), source.audience);
    if source.audience != {} {
      var taken, all := |Attempted(source.attempts)| as real, |source.audience| as real;
      var share := taken / all;
      assert all * share == taken;
      ProductSign(all, share, taken);
      ProductSign(all, 1.0 - share, all - taken);
      if share == 1.0 && Attempted(source.attempts) != source.audience {
        ProperSubsetIsSmaller(Attempted(source.attempts), source.audience);
      }
    }
  }

  // ----- What the row says -----

  function KickedRows(attempts: seq<Attempt>): set<nat> {
    set i | 0 <= i < |attempts| && attempts[i].kind == Some(ByKick)
  }

  lemma {:induction false} KickedAreCounted(attempts: seq<Attempt>)
    ensures KickedAttempts(attempts) == |KickedRows(attempts)|
  {
    if attempts != [] {
      var n := |attempts| - 1;
      KickedAreCounted(attempts[..n]);
      assert KickedRows(attempts) == KickedRows(attempts[..n]) + if attempts[n].kind == Some(ByKick) then {n} else {};
    }
  }

  /** The scores the averages are taken of: one per counted student, their highest. */
  predicate ScoresOf(scores: seq<real>, best: seq<Attempt>) {
    |scores| == |best| && forall i | 0 <= i < |best| :: best[i].score == Some(scores[i])
  }

  /** The averages of some scores: neither without scores, and else the sum over the count and the median. */
  predicate AveragesOf(stats: Stats, scores: seq<real>) {
    && (scores == [] ==> stats.mean == None && stats.median == None)
    && (scores != [] ==>
          && stats.mean.Some? && stats.mean.value * |scores| as real == Sum(scores)
          && stats.median == Averages.MedianOf(scores))
  }

  /** The statistics that come from the rows of the students, one each. */
  ghost predicate SummarizesBest(stats: Stats, best: seq<Attempt>, scores: seq<real>, versions: seq<Snapshot>) {
    && ScoresOf(scores, best) && AveragesOf(stats, scores)
    && |stats.distribution| == 10
    && forall k: nat | k < 10 :: stats.distribution[k] == CountIn(ScoredRows(best, versions), k)
  }

  predicate Took(attempts: seq<Attempt>, s: UserId) {
    exists i | 0 <= i < |attempts| :: attempts[i].student == s
  }

  /** The statistics of some attempts, one field at a time. */
  ghost predicate Summarizes(stats: Stats, source: Source) {
    && (exists best, scores ::
          BestOf(best, source.attempts) && SummarizesBest(stats, best, scores, source.versions))
    && (source.audience == {} ==> stats.participation == 0.0)
    && (forall s :: s in Attempted(source.attempts) <==> Took(source.attempts, s))
    && (source.audience != {} ==>
          stats.participation * |source.audience| as real == |Attempted(source.attempts)| as real)
    && stats.kickedAttempts == |KickedRows(source.attempts)|
    && stats.totalViolations == Violations(source.attempts)
  }

  lemma MeanTimesCount(scores: seq<real>)
    requires scores != []
    ensures Mean(scores) * |scores| as real == Sum(scores)
  {
  }

  lemma AveragesAreOf(stats: Stats, scores: seq<real>)
    requires stats.mean == Averages.MeanOf(scores) && stats.median == Averages.MedianOf(scores)
    ensures AveragesOf(stats, scores)
  {
    if scores != [] {
      MeanTimesCount(scores);
    }
  }

  lemma BestScores(source: Source, best: seq<Attempt>)
    requires best == Best(source.attempts)
    ensures ScoresOf(Scores(ScoredRows(best, source.versions)), best)
  {
    BestIsHighestPerStudent(source.attempts);
    forall i | 0 <= i < |best|
      ensures best[i].score == Some(Scores(ScoredRows(best, source.versions))[i])
    {
      assert HighestOfStudent(best[i], source.attempts);
    }
  }

  lemma ParticipationTimesAudience(source: Source)
    requires source.audience != {}
    ensures Compute(source).participation * |source.audience| as real == |Attempted(source.attempts)| as real
  {
    var taken, all := |Attempted(source.attempts)| as real, |source.audience| as real;
    assert taken / all * all == taken;
  }

  lemma BestIsSummarized(source: Source, best: seq<Attempt>, scores: seq<real>)
    requires best == Best(source.attempts) && scores == Scores(ScoredRows(best, source.versions))
    ensures SummarizesBest(Compute(source), best, scores, source.versions)
  {
    BestScores(source, best);
    AveragesAreOf(Compute(source), scores);
  }

  /** The computed row is such a summary. */
  lemma ComputeSummarizes(source: Source)
    ensures Summarizes(Compute(source), source)
  {
    var best := Best(source.attempts);
    var scores := Scores(ScoredRows(best, source.versions));
    BestIsHighestPerStudent(source.attempts);
    KickedAreCounted(source.attempts);
    BestIsSummarized(source, best, scores);
    if source.audience != {} {
      ParticipationTimesAudience(source);
    }
  }

  /** A score is counted against the sum of the points of the version its attempt pinned. */
  lemma ScoredAgainstPinned(row: Attempt, versions: seq<Snapshot>)
    requires 1 <= row.version <= |versions| && versions[row.version - 1].questions != [] && row.score.Some?
    ensures ScoredOf(row, versions) == Scored(row.score.value, Some(MaxScore(versions[row.version - 1].questions)))
  {
  }
}
