/** Optional values, standing for the nullable columns and nil pointers of the server, the elements
    of a list, and the extremes of a set. */
module Common {
  datatype Option<+T> = None | Some(value: T) {
    function GetOr(default: T): T {
      match this
      case Some(v) => v
      case None => default
    }
  }

  function Elements<T>(s: seq<T>): set<T> {
    set x | x in s
  }

  predicate Distinct<T(==)>(s: seq<T>) {
    forall i, j | 0 <= i < j < |s| :: s[i] != s[j]
  }

  /** A sequence has as many elements as places exactly when none repeats. */
  lemma {:induction false} DistinctCardinality<T>(s: seq<T>)
    ensures |Elements(s)| <= |s|
    ensures |Elements(s)| == |s| <==> Distinct(s)
  {
    if s != [] {
      var init, last := s[..|s| - 1], s[|s| - 1];
      DistinctCardinality(init);
      assert s == init + [last];
      assert Elements(s) == Elements(init) + {last};
      if last in init {
        var i :| 0 <= i < |init| && init[i] == last;
        assert s[i] == s[|s| - 1];
        assert Elements(s) == Elements(init);
      }
    }
  }

  predicate IsMaximum(s: set<nat>, m: nat) {
    m in s && forall k | k in s :: k <= m
  }

  predicate IsMinimum(s: set<nat>, m: nat) {
    m in s && forall k | k in s :: m <= k
  }

  lemma {:induction false} ExtremesExist(s: set<nat>)
    requires s != {}
    ensures exists m :: IsMaximum(s, m)
    ensures exists m :: IsMinimum(s, m)
  {
    var x :| x in s;
    var rest := s - {x};
    if rest == {} {
      assert s == {x};
      assert IsMaximum(s, x) && IsMinimum(s, x);
    } else {
      ExtremesExist(rest);
      var high, low :| IsMaximum(rest, high) && IsMinimum(rest, low);
      assert s == rest + {x};
      assert IsMaximum(s, if high <= x then x else high);
      assert IsMinimum(s, if x <= low then x else low);
    }
  }
}
