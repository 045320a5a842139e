/** The mean and median of a quiz's counted scores (server/internal/analytics/rollup.go, meanMedian). */
module Averages {
  import opened Common
  import opened Statistics

  predicate Ascending(xs: seq<real>) {
    forall i, j | 0 <= i < j < |xs| :: xs[i] <= xs[j]
  }

  function Insert(sorted: seq<real>, x: real): seq<real> {
    if sorted == [] || sorted[|sorted| - 1] <= x then sorted + [x]
    else Insert(sorted[..|sorted| - 1], x) + [sorted[|sorted| - 1]]
  }

  /** An ascending copy. */
  function Sort(xs: seq<real>): seq<real> {
    if xs == [] then [] else Insert(Sort(xs[..|xs| - 1]), xs[|xs| - 1])
  }

  predicate AtMost(xs: seq<real>, top: real) {
    forall i | 0 <= i < |xs| :: xs[i] <= top
  }

  lemma {:induction false} InsertAscends(sorted: seq<real>, x: real, top: real)
    requires Ascending(sorted) && AtMost(sorted, top) && x <= top
    ensures Ascending(Insert(sorted, x)) && AtMost(Insert(sorted, x), top) && |Insert(sorted, x)| == |sorted| + 1
  {
    if sorted != [] && sorted[|sorted| - 1] > x {
      InsertAscends(sorted[..|sorted| - 1], x, sorted[|sorted| - 1]);
    }
  }

  lemma {:induction false} InsertAdds(sorted: seq<real>, x: real)
    ensures multiset(Insert(sorted, x)) == multiset(sorted) + multiset{x}
  {
    if sorted != [] && sorted[|sorted| - 1] > x {
      InsertAdds(sorted[..|sorted| - 1], x);
      assert sorted == sorted[..|sorted| - 1] + [sorted[|sorted| - 1]];
    }
  }

  lemma {:induction false} SortAscends(xs: seq<real>)
    ensures Ascending(Sort(xs)) && |Sort(xs)| == |xs|
  {
    if xs != [] {
      var rest, x := Sort(xs[..|xs| - 1]), xs[|xs| - 1];
      SortAscends(xs[..|xs| - 1]);
      InsertAscends(rest, x, if rest == [] || rest[|rest| - 1] < x then x else rest[|rest| - 1]);
    }
  }

  lemma {:induction false} SortPermutes(xs: seq<real>)
    ensures multiset(Sort(xs)) == multiset(xs)
  {
    if xs != [] {
      SortPermutes(xs[..|xs| - 1]);
      InsertAdds(Sort(xs[..|xs| - 1]), xs[|xs| - 1]);
      assert xs == xs[..|xs| - 1] + [xs[|xs| - 1]];
    }
  }

  lemma TopIsLargest(sorted: seq<real>, x: real)
    requires Ascending(sorted) && x in sorted
    ensures sorted != [] && x <= sorted[|sorted| - 1]
  {
    var i :| 0 <= i < |sorted| && sorted[i] == x;
  }

  lemma SameMembers(a: seq<real>, b: seq<real>)
    requires multiset(a) == multiset(b)
    ensures forall x :: x in a <==> x in b
    ensures |a| == |b|
  {
    assert forall x :: x in a <==> x in multiset(a);
    assert |multiset(a)| == |a| && |multiset(b)| == |b|;
  }

  lemma SameInit(a: seq<real>, b: seq<real>)
    requires a != [] && b != [] && multiset(a) == multiset(b) && a[|a| - 1] == b[|b| - 1]
    ensures multiset(a[..|a| - 1]) == multiset(b[..|b| - 1])
  {
    var x, m, n := a[|a| - 1], multiset(a[..|a| - 1]), multiset(b[..|b| - 1]);
    assert a == a[..|a| - 1] + [x] && b == b[..|b| - 1] + [x];
    assert m + multiset{x} == n + multiset{x};
    assert (m + multiset{x}) - multiset{x} == m;
  }

  /** There is only one ascending arrangement of the same values. */
  lemma {:induction false} OneArrangement(a: seq<real>, b: seq<real>)
    requires Ascending(a) && Ascending(b) && multiset(a) == multiset(b)
    ensures a == b
  {
    SameMembers(a, b);
    if a != [] {
      TopIsLargest(b, a[|a| - 1]);
      TopIsLargest(a, b[|b| - 1]);
      SameInit(a, b);
      OneArrangement(a[..|a| - 1], b[..|b| - 1]);
    }
  }

  /** The middle value, or the mean of the two in the middle. */
  function Middle(sorted: seq<real>): real
    requires sorted != []
  {
    var mid := |sorted| / 2;
    if |sorted| % 2 == 1 then sorted[mid] else (sorted[mid - 1] + sorted[mid]) / 2.0
  }

  function MedianOf(xs: seq<real>): Option<real> {
    SortAscends(xs);
    if xs == [] then None else Some(Middle(Sort(xs)))
  }

  function MeanOf(xs: seq<real>): Option<real> {
    if xs == [] then None else Some(Mean(xs))
  }

  /** The median does not depend on the order the scores come in: it is the middle of any ascending
      arrangement of them, halfway between the two in the middle when there are two. */
  lemma MedianIsOrderFree(xs: seq<real>, sorted: seq<real>)
    requires xs != [] && Ascending(sorted) && multiset(sorted) == multiset(xs)
    ensures |sorted| == |xs|
    ensures var half := |sorted| / 2;
            if |sorted| % 2 == 1 then MedianOf(xs) == Some(sorted[half])
            else MedianOf(xs).Some? && 2.0 * MedianOf(xs).value == sorted[half - 1] + sorted[half]
  {
    SortAscends(xs);
    SortPermutes(xs);
    SameMembers(xs, sorted);
    OneArrangement(Sort(xs), sorted);
  }

  method MeanMedian(scores: seq<real>) returns (mean: Option<real>, median: Option<real>)
    ensures mean == MeanOf(scores) && median == MedianOf(scores)
  {
    if |scores| == 0 {
      return None, None;
    }
    var sum := 0.0;
    for i := 0 to |scores|
      invariant sum == Sum(scores[..i])
    {
      SumStep(scores, i);
      sum := sum + scores[i];
    }
    assert scores[..|scores|] == scores;
    var sorted := Sort(scores);
    SortAscends(scores);
    var mid := |sorted| / 2;
    if |sorted| % 2 == 1 {
      return Some(sum / |scores| as real), Some(sorted[mid]);
    }
    return Some(sum / |scores| as real), Some((sorted[mid - 1] + sorted[mid]) / 2.0);
  }

  /** Both lie between the lowest and the highest score. */
  lemma AveragesWithinRange(xs: seq<real>, lo: real, hi: real)
    requires xs != [] && forall i | 0 <= i < |xs| :: lo <= xs[i] <= hi
    ensures lo <= MedianOf(xs).value <= hi
    ensures lo <= MeanOf(xs).value <= hi
  {
    SortAscends(xs);
    SortPermutes(xs);
    SameMembers(xs, Sort(xs));
    forall i | 0 <= i < |xs|
      ensures lo <= Sort(xs)[i] <= hi
    {
      assert Sort(xs)[i] in xs;
    }
    SumWithinRange(xs, lo, hi, |xs| as real * lo, |xs| as real * hi);
    MeanSign(xs, lo, |xs| as real * lo);
    MeanSign(xs, hi, |xs| as real * hi);
  }

  lemma {:induction false} SumWithinRange(xs: seq<real>, lo: real, hi: real, low: real, high: real)
    requires forall i | 0 <= i < |xs| :: lo <= xs[i] <= hi
    requires low == |xs| as real * lo && high == |xs| as real * hi
    ensures low <= Sum(xs) <= high
  {
    if xs != [] {
      var n := |xs| - 1;
      SumWithinRange(xs[..n], lo, hi, low - lo, high - hi);
    }
  }

  lemma MeanSign(xs: seq<real>, bound: real, total: real)
    requires xs != [] && total == |xs| as real * bound
    ensures total <= Sum(xs) ==> bound <= Mean(xs)
    ensures Sum(xs) <= total ==> Mean(xs) <= bound
  {
    var n, m := |xs| as real, Mean(xs);
    assert n * m == Sum(xs);
    ProductSign(n, m - bound, n * (m - bound));
    assert n * (m - bound) == Sum(xs) - total;
  }
}
