/** The arithmetic of the analytics rollup (server/internal/analytics/rollup.go) and of the
    percentile read (server/internal/attempt/results.go), over real numbers. */
module Statistics {
  import opened Common

  // ----- Sums of series -----

  function Sum(xs: seq<real>): real {
    if xs == [] then 0.0 else Sum(xs[..|xs| - 1]) + xs[|xs| - 1]
  }

  lemma SumStep(u: seq<real>, i: nat)
    requires i < |u|
    ensures Sum(u[..i + 1]) == Sum(u[..i]) + u[i]
  {
    assert u[..i + 1][..i] == u[..i];
  }

  function Scale(c: real, u: seq<real>): (v: seq<real>)
    ensures |v| == |u|
    ensures forall i | 0 <= i < |u| :: v[i] == c * u[i]
  {
    seq(|u|, i requires 0 <= i < |u| => c * u[i])
  }

  lemma ScalePrefix(c: real, u: seq<real>, n: nat)
    requires n <= |u|
    ensures Scale(c, u)[..n] == Scale(c, u[..n])
  {
    forall i | 0 <= i < n
      ensures Scale(c, u)[..n][i] == Scale(c, u[..n])[i]
    {
      assert u[..n][i] == u[i];
    }
  }

  lemma {:induction false} SumScale(c: real, u: seq<real>, sum: real, total: real)
    requires sum == Sum(u) && total == c * sum
    ensures Sum(Scale(c, u)) == total
  {
    if u != [] {
      var n := |u| - 1;
      var s := Sum(u[..n]);
      SumScale(c, u[..n], s, c * s);
      ScalePrefix(c, u, n);
      Distribute(c, s, u[n]);
    }
  }

  lemma {:induction false} SumAdd3(u: seq<real>, v: seq<real>, w: seq<real>, e: seq<real>)
    requires |u| == |v| == |w| == |e|
    requires forall i | 0 <= i < |e| :: e[i] == u[i] + v[i] + w[i]
    ensures Sum(e) == Sum(u) + Sum(v) + Sum(w)
  {
    if e != [] {
      var n := |e| - 1;
      SumAdd3(u[..n], v[..n], w[..n], e[..n]);
    }
  }

  lemma {:induction false} SumNonNegative(u: seq<real>)
    requires forall i | 0 <= i < |u| :: u[i] >= 0.0
    ensures Sum(u) >= 0.0
    ensures Sum(u) == 0.0 <==> forall i | 0 <= i < |u| :: u[i] == 0.0
  {
    if u != [] {
      var n := |u| - 1;
      SumNonNegative(u[..n]);
      assert forall i | 0 <= i < n :: u[..n][i] == u[i];
    }
  }

  lemma {:induction false} SumOfConstant(u: seq<real>, c: real)
    requires forall i | 0 <= i < |u| :: u[i] == c
    ensures Sum(u) == |u| as real * c
  {
    if u != [] {
      SumOfConstant(u[..|u| - 1], c);
    }
  }

  // ----- Products of reals -----

  lemma Distribute(c: real, x: real, y: real)
    ensures c * (x + y) == c * x + c * y
  {
  }

  /** The sign of a product, handed over by name: p is the product a * b. */
  lemma ProductSign(a: real, b: real, p: real)
    requires p == a * b
    ensures a > 0.0 && b > 0.0 ==> p > 0.0
    ensures a < 0.0 && b < 0.0 ==> p > 0.0
    ensures a == 0.0 || b == 0.0 ==> p == 0.0
    ensures a > 0.0 && b < 0.0 ==> p < 0.0
  {
  }

  lemma SquareSign(e: real, square: real)
    requires square == e * e
    ensures square >= 0.0
    ensures square == 0.0 <==> e == 0.0
  {
    ProductSign(e, e, square);
  }

  lemma SquareOrder(a: real, b: real, aa: real, bb: real)
    requires a >= 0.0 && b >= 0.0 && aa == a * a && bb == b * b
    ensures aa <= bb <==> a <= b
  {
    assert bb - aa == (b - a) * (b + a);
    ProductSign(b + a, b - a, bb - aa);
    if b + a == 0.0 {
      assert a == 0.0 && b == 0.0;
    }
  }

  lemma SquareExpands(a: real, b: real, dx: real, dy: real)
    ensures (a * dy - b * dx) * (a * dy - b * dx)
            == (a * a) * (dy * dy) + (-2.0 * (a * b)) * (dx * dy) + (b * b) * (dx * dx)
  {
    var p, q := a * dy, b * dx;
    assert p * p == (a * a) * (dy * dy);
    assert q * q == (b * b) * (dx * dx);
    assert p * q == (a * b) * (dx * dy);
    assert (p - q) * (p - q) == p * p - 2.0 * (p * q) + q * q;
  }

  /** The minimum of the quadratic form, its coefficients and terms handed over by name. */
  lemma AtOptimum(vx: real, vy: real, cov: real, k: real, l: real, m: real,
                  gap: real, left: real)
    requires k == vx * vx && l == -2.0 * (vx * cov) && m == cov * cov
    requires gap == vx * vy - cov * cov && left == vx * gap
    ensures k * vy + l * cov + m * vx == left
  {
    assert (vx * vx) * vy == vx * (vx * vy);
    assert (vx * cov) * cov == vx * (cov * cov);
  }

  // ----- Pearson correlation -----

  /** The correlation cov / sqrt(vx * vy), kept as its three moments. */
  datatype Correlation = Correlation(cov: real, vx: real, vy: real)

  predicate Bounded(c: Correlation) {
    c.vx > 0.0 && c.vy > 0.0 && c.cov * c.cov <= c.vx * c.vy
  }

  predicate Constant(xs: seq<real>) {
    forall i, j | 0 <= i < j < |xs| :: xs[i] == xs[j]
  }

  function Mean(xs: seq<real>): real
    requires xs != []
  {
    Sum(xs) / |xs| as real
  }

  /** The products of deviations of two series from two centres. */
  function Products(xs: seq<real>, ys: seq<real>, mx: real, my: real): (p: seq<real>)
    requires |xs| == |ys|
    ensures |p| == |xs|
    ensures forall i | 0 <= i < |xs| :: p[i] == (xs[i] - mx) * (ys[i] - my)
  {
    seq(|xs|, i requires 0 <= i < |xs| => (xs[i] - mx) * (ys[i] - my))
  }

  function CoMoment(xs: seq<real>, ys: seq<real>, mx: real, my: real): real
    requires |xs| == |ys|
  {
    Sum(Products(xs, ys, mx, my))
  }

  method Pearson(xs: seq<real>, ys: seq<real>) returns (r: Option<Correlation>)
    requires |xs| == |ys|
    ensures r.None? <==> |xs| < 2 || Constant(xs) || Constant(ys)
    ensures r.Some? ==>
              && r.value.cov == CoMoment(xs, ys, Mean(xs), Mean(ys))
              && r.value.vx == CoMoment(xs, xs, Mean(xs), Mean(xs))
              && r.value.vy == CoMoment(ys, ys, Mean(ys), Mean(ys))
              && Bounded(r.value)
  {
    if |xs| < 2 {
      return None;
    }
    var mx, my := Means(xs, ys);
    var cov, vx, vy := Moments(xs, ys, mx, my);
    NoSpreadIffConstant(xs);
    NoSpreadIffConstant(ys);
    if vx == 0.0 || vy == 0.0 {
      return None;
    }
    r := Some(Correlation(cov, vx, vy));
    CorrelationBounded(xs, ys, mx, my, r.value);
  }

  method Means(xs: seq<real>, ys: seq<real>) returns (mx: real, my: real)
    requires |xs| == |ys| > 0
    ensures mx == Mean(xs) && my == Mean(ys)
  {
    mx, my := 0.0, 0.0;
    for i := 0 to |xs|
      invariant mx == Sum(xs[..i]) && my == Sum(ys[..i])
    {
      SumStep(xs, i);
      SumStep(ys, i);
      mx, my := mx + xs[i], my + ys[i];
    }
    assert xs[..|xs|] == xs && ys[..|xs|] == ys;
    mx, my := mx / |xs| as real, my / |xs| as real;
  }

  method Moments(xs: seq<real>, ys: seq<real>, mx: real, my: real) returns (cov: real, vx: real, vy: real)
    requires |xs| == |ys|
    ensures cov == CoMoment(xs, ys, mx, my)
    ensures vx == CoMoment(xs, xs, mx, mx) && vy == CoMoment(ys, ys, my, my)
  {
    ghost var pxy, pxx, pyy := Products(xs, ys, mx, my), Products(xs, xs, mx, mx), Products(ys, ys, my, my);
    cov, vx, vy := 0.0, 0.0, 0.0;
    for i := 0 to |xs|
      invariant cov == Sum(pxy[..i]) && vx == Sum(pxx[..i]) && vy == Sum(pyy[..i])
    {
      var dx, dy := xs[i] - mx, ys[i] - my;
      var dxy, dxx, dyy := dx * dy, dx * dx, dy * dy;
      assert dxy == pxy[i] && dxx == pxx[i] && dyy == pyy[i];
      SumStep(pxy, i);
      SumStep(pxx, i);
      SumStep(pyy, i);
      cov, vx, vy := cov + dxy, vx + dxx, vy + dyy;
    }
    assert pxy[..|xs|] == pxy && pxx[..|xs|] == pxx && pyy[..|xs|] == pyy;
  }

  lemma MomentSign(xs: seq<real>, m: real)
    ensures CoMoment(xs, xs, m, m) >= 0.0
    ensures CoMoment(xs, xs, m, m) == 0.0 <==> forall i | 0 <= i < |xs| :: xs[i] == m
  {
    var p := Products(xs, xs, m, m);
    forall i | 0 <= i < |xs|
      ensures p[i] >= 0.0 && (p[i] == 0.0 <==> xs[i] == m)
    {
      SquareSign(xs[i] - m, p[i]);
    }
    SumNonNegative(p);
  }

  /** The second moment about the mean vanishes exactly for a constant series. */
  lemma NoSpreadIffConstant(xs: seq<real>)
    requires xs != []
    ensures var v := CoMoment(xs, xs, Mean(xs), Mean(xs)); v >= 0.0 && (v == 0.0 <==> Constant(xs))
  {
    MomentSign(xs, Mean(xs));
    if Constant(xs) {
      SumOfConstant(xs, xs[0]);
      var n, m := |xs| as real, Mean(xs);
      assert n * m == Sum(xs);
      assert n * (m - xs[0]) == n * m - n * xs[0];
      ProductSign(n, m - xs[0], n * (m - xs[0]));
    }
  }

  lemma SquaredGap(xs: seq<real>, ys: seq<real>, mx: real, my: real, a: real, b: real, i: nat)
    requires |xs| == |ys| && i < |xs|
    ensures var d := Gaps(xs, ys, mx, my, a, b);
            Products(d, d, 0.0, 0.0)[i]
            == Scale(a * a, Products(ys, ys, my, my))[i] + Scale(-2.0 * (a * b), Products(xs, ys, mx, my))[i]
               + Scale(b * b, Products(xs, xs, mx, mx))[i]
  {
    SquareExpands(a, b, xs[i] - mx, ys[i] - my);
  }

  lemma SumOfSquaredGaps(xs: seq<real>, ys: seq<real>, mx: real, my: real, a: real, b: real,
                         k: real, l: real, m: real)
    requires |xs| == |ys| && k == a * a && l == -2.0 * (a * b) && m == b * b
    ensures var d := Gaps(xs, ys, mx, my, a, b);
            CoMoment(d, d, 0.0, 0.0)
            == Sum(Scale(k, Products(ys, ys, my, my))) + Sum(Scale(l, Products(xs, ys, mx, my)))
               + Sum(Scale(m, Products(xs, xs, mx, mx)))
  {
    var d := Gaps(xs, ys, mx, my, a, b);
    var e := Products(d, d, 0.0, 0.0);
    var u, v, w := Scale(k, Products(ys, ys, my, my)), Scale(l, Products(xs, ys, mx, my)),
                   Scale(m, Products(xs, xs, mx, mx));
    forall i | 0 <= i < |e|
      ensures e[i] == u[i] + v[i] + w[i]
    {
      SquaredGap(xs, ys, mx, my, a, b, i);
    }
    SumAdd3(u, v, w, e);
  }

  predicate AreMoments(xs: seq<real>, ys: seq<real>, mx: real, my: real, cov: real, vx: real, vy: real)
    requires |xs| == |ys|
  {
    && cov == CoMoment(xs, ys, mx, my)
    && vx == CoMoment(xs, xs, mx, mx)
    && vy == CoMoment(ys, ys, my, my)
  }

  lemma ResidualValue(xs: seq<real>, ys: seq<real>, mx: real, my: real, cov: real, vx: real, vy: real,
                      k: real, l: real, m: real, u: real, v: real, w: real)
    requires |xs| == |ys| && AreMoments(xs, ys, mx, my, cov, vx, vy)
    requires k == vx * vx && l == -2.0 * (vx * cov) && m == cov * cov
    requires u == k * vy && v == l * cov && w == m * vx
    ensures var d := Gaps(xs, ys, mx, my, vx, cov); CoMoment(d, d, 0.0, 0.0) == u + v + w
  {
    SumOfSquaredGaps(xs, ys, mx, my, vx, cov, k, l, m);
    SumScale(k, Products(ys, ys, my, my), vy, u);
    SumScale(l, Products(xs, ys, mx, my), cov, v);
    SumScale(m, Products(xs, xs, mx, mx), vx, w);
  }

  /** The squared distances from the line through the centre: their sum is what Cauchy-Schwarz
      leaves over. */
  lemma ResidualIdentity(xs: seq<real>, ys: seq<real>, mx: real, my: real, cov: real, vx: real, vy: real,
                         gap: real, left: real)
    requires |xs| == |ys| && AreMoments(xs, ys, mx, my, cov, vx, vy)
    requires gap == vx * vy - cov * cov && left == vx * gap
    ensures left >= 0.0
    ensures left == 0.0 <==> Collinear(xs, ys, mx, my, vx, cov)
  {
    var k, l, m := vx * vx, -2.0 * (vx * cov), cov * cov;
    ResidualValue(xs, ys, mx, my, cov, vx, vy, k, l, m, k * vy, l * cov, m * vx);
    AtOptimum(vx, vy, cov, k, l, m, gap, left);
    MomentSign(Gaps(xs, ys, mx, my, vx, cov), 0.0);
    GapsVanish(xs, ys, mx, my, vx, cov);
  }

  function Gaps(xs: seq<real>, ys: seq<real>, mx: real, my: real, vx: real, cov: real): (d: seq<real>)
    requires |xs| == |ys|
    ensures |d| == |xs|
    ensures forall i | 0 <= i < |xs| :: d[i] == vx * (ys[i] - my) - cov * (xs[i] - mx)
  {
    seq(|xs|, i requires 0 <= i < |xs| => vx * (ys[i] - my) - cov * (xs[i] - mx))
  }

  predicate Collinear(xs: seq<real>, ys: seq<real>, mx: real, my: real, vx: real, cov: real)
    requires |xs| == |ys|
  {
    forall i | 0 <= i < |xs| :: vx * (ys[i] - my) == cov * (xs[i] - mx)
  }

  lemma GapsVanish(xs: seq<real>, ys: seq<real>, mx: real, my: real, vx: real, cov: real)
    requires |xs| == |ys|
    ensures var d := Gaps(xs, ys, mx, my, vx, cov);
            Collinear(xs, ys, mx, my, vx, cov) <==> forall i | 0 <= i < |d| :: d[i] == 0.0
  {
    var d := Gaps(xs, ys, mx, my, vx, cov);
    if forall i | 0 <= i < |d| :: d[i] == 0.0 {
      forall i | 0 <= i < |xs|
        ensures vx * (ys[i] - my) == cov * (xs[i] - mx)
      {
        assert d[i] == 0.0;
      }
    }
  }

  lemma CauchySchwarz(xs: seq<real>, ys: seq<real>, mx: real, my: real, cov: real, vx: real, vy: real)
    requires |xs| == |ys| && AreMoments(xs, ys, mx, my, cov, vx, vy)
    ensures cov * cov <= vx * vy
  {
    MomentSign(xs, mx);
    var gap := vx * vy - cov * cov;
    if vx > 0.0 {
      ResidualIdentity(xs, ys, mx, my, cov, vx, vy, gap, vx * gap);
      ProductSign(vx, gap, vx * gap);
    } else {
      NoSpreadNoCovariance(xs, ys, mx, my);
      ProductSign(vx, vy, vx * vy);
      ProductSign(cov, cov, cov * cov);
    }
  }

  lemma CorrelationBounded(xs: seq<real>, ys: seq<real>, mx: real, my: real, c: Correlation)
    requires |xs| == |ys| && AreMoments(xs, ys, mx, my, c.cov, c.vx, c.vy)
    requires c.vx > 0.0 && c.vy > 0.0
    ensures Bounded(c)
  {
    CauchySchwarz(xs, ys, mx, my, c.cov, c.vx, c.vy);
  }

  lemma NoSpreadNoCovariance(xs: seq<real>, ys: seq<real>, mx: real, my: real)
    requires |xs| == |ys| && CoMoment(xs, xs, mx, mx) == 0.0
    ensures CoMoment(xs, ys, mx, my) == 0.0
  {
    MomentSign(xs, mx);
    var p := Products(xs, ys, mx, my);
    forall i | 0 <= i < |p|
      ensures p[i] == 0.0
    {
      ProductSign(xs[i] - mx, ys[i] - my, p[i]);
    }
    SumNonNegative(p);
  }

  /** Whatever value the square root takes, the quotient lies in the closed unit interval. */
  lemma CorrelationInUnitInterval(c: Correlation, root: real)
    requires Bounded(c)
    requires root >= 0.0 && root * root == c.vx * c.vy
    ensures root > 0.0 && -1.0 <= c.cov / root <= 1.0
  {
    ProductSign(c.vx, c.vy, c.vx * c.vy);
    SquareSign(root, root * root);
    var size := if c.cov < 0.0 then -c.cov else c.cov;
    assert size * size == c.cov * c.cov;
    SquareOrder(size, root, size * size, root * root);
    var q := c.cov / root;
    assert root * q == c.cov;
    ProductSign(root, 1.0 - q, root - c.cov);
    ProductSign(root, 1.0 + q, root + c.cov);
  }

  /** The correlation is perfect exactly when every point lies on the regression line. */
  lemma PerfectCorrelationIffCollinear(xs: seq<real>, ys: seq<real>, mx: real, my: real,
                                       cov: real, vx: real, vy: real)
    requires |xs| == |ys| && AreMoments(xs, ys, mx, my, cov, vx, vy) && vx > 0.0
    ensures cov * cov == vx * vy <==> Collinear(xs, ys, mx, my, vx, cov)
  {
    var gap := vx * vy - cov * cov;
    var left := vx * gap;
    ResidualIdentity(xs, ys, mx, my, cov, vx, vy, gap, left);
    ProductSign(vx, gap, left);
  }
}
