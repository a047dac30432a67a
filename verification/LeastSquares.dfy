/** Least squares over the reals: the sums that fit (internal/ntp/ntp.go) accumulates determine a line with
    the smallest sum of squared residuals. */
module LeastSquares {

  // ---- sums of real sequences ----

  function Sum(xs: seq<real>): real {
    if xs == [] then 0.0 else Sum(xs[..|xs| - 1]) + xs[|xs| - 1]
  }

  predicate ScaledBy(d: real, n: real, q: real) {
    d == n * q
  }

  predicate Comb(z: real, a: real, u: real, b: real, v: real) {
    z == a * u + b * v
  }

  lemma CombStep(a: real, b: real, z: real, u: real, v: real, sz: real, su: real, sv: real, tz: real, tu: real,
                 tv: real)
    requires Comb(z, a, u, b, v) && Comb(sz, a, su, b, sv)
    requires tz == sz + z && tu == su + u && tv == sv + v
    ensures Comb(tz, a, tu, b, tv)
  {}

  /** A pointwise linear combination sums to the combination of the sums. */
  lemma {:induction false} SumComb(zs: seq<real>, a: real, us: seq<real>, b: real, vs: seq<real>)
    requires |zs| == |us| == |vs| && forall i :: 0 <= i < |zs| ==> Comb(zs[i], a, us[i], b, vs[i])
    ensures Comb(Sum(zs), a, Sum(us), b, Sum(vs))
  {
    if zs != [] {
      var n := |zs| - 1;
      SumComb(zs[..n], a, us[..n], b, vs[..n]);
      CombStep(a, b, zs[n], us[n], vs[n], Sum(zs[..n]), Sum(us[..n]), Sum(vs[..n]), Sum(zs), Sum(us), Sum(vs));
    }
  }

  lemma {:induction false} SumNonnegative(xs: seq<real>)
    requires forall i :: 0 <= i < |xs| ==> xs[i] >= 0.0
    ensures Sum(xs) >= 0.0
    ensures Sum(xs) == 0.0 <==> forall i :: 0 <= i < |xs| ==> xs[i] == 0.0
  {
    if xs != [] {
      var front := xs[..|xs| - 1];
      SumNonnegative(front);
      assert forall i :: 0 <= i < |front| ==> front[i] == xs[i];
    }
  }

  function Const(n: nat, c: real): (s: seq<real>)
    ensures |s| == n
  {
    seq(n, _ => c)
  }

  lemma {:induction false} SumConst(n: nat, c: real)
    ensures ScaledBy(Sum(Const(n, c)), n as real, c)
  {
    if n > 0 {
      SumConst(n - 1, c);
      assert Const(n, c)[..n - 1] == Const(n - 1, c);
    }
  }

  // ---- moments ----

  datatype Point = Point(x: real, y: real)

  function Xs(ps: seq<Point>): (s: seq<real>)
    ensures |s| == |ps|
  {
    seq(|ps|, i requires 0 <= i < |ps| => ps[i].x)
  }

  function Ys(ps: seq<Point>): (s: seq<real>)
    ensures |s| == |ps|
  {
    seq(|ps|, i requires 0 <= i < |ps| => ps[i].y)
  }

  function Times(xs: seq<real>, ys: seq<real>): (s: seq<real>)
    requires |xs| == |ys|
    ensures |s| == |xs|
  {
    seq(|xs|, i requires 0 <= i < |xs| => xs[i] * ys[i])
  }

  function Count(ps: seq<Point>): real { |ps| as real }
  function Sx(ps: seq<Point>): real { Sum(Xs(ps)) }
  function Sy(ps: seq<Point>): real { Sum(Ys(ps)) }
  function Sxx(ps: seq<Point>): real { Sum(Times(Xs(ps), Xs(ps))) }
  function Sxy(ps: seq<Point>): real { Sum(Times(Xs(ps), Ys(ps))) }
  function Syy(ps: seq<Point>): real { Sum(Times(Ys(ps), Ys(ps))) }

  function Residual(p: Point, a: real, b: real): real {
    p.y - (a + b * p.x)
  }

  function SquaredResiduals(ps: seq<Point>, a: real, b: real): (s: seq<real>)
    ensures |s| == |ps|
  {
    seq(|ps|, i requires 0 <= i < |ps| => Residual(ps[i], a, b) * Residual(ps[i], a, b))
  }

  /** The sum of squared residuals of the line a + b*x. */
  function Residuals(ps: seq<Point>, a: real, b: real): real {
    Sum(SquaredResiduals(ps, a, b))
  }

  /** The residual sum as the quadratic that the moments determine. */
  function Quadratic(n: real, sx: real, sy: real, sxx: real, sxy: real, syy: real, a: real, b: real): real {
    b * b * sxx + 2.0 * a * b * sx + a * a * n - 2.0 * b * sxy - 2.0 * a * sy + syy
  }

  predicate IsQuadratic(r: real, n: real, sx: real, sy: real, sxx: real, sxy: real, syy: real, a: real, b: real) {
    r == Quadratic(n, sx, sy, sxx, sxy, syy, a, b)
  }

  lemma QuadraticStep(a: real, b: real, r: real, n: real, x: real, y: real, xx: real, xy: real, yy: real,
                      s: real, sn: real, sx: real, sy: real, sxx: real, sxy: real, syy: real,
                      t: real, tn: real, tx: real, ty: real, txx: real, txy: real, tyy: real)
    requires IsQuadratic(r, n, x, y, xx, xy, yy, a, b) && IsQuadratic(s, sn, sx, sy, sxx, sxy, syy, a, b)
    requires t == s + r && tn == sn + n && tx == sx + x && ty == sy + y
    requires txx == sxx + xx && txy == sxy + xy && tyy == syy + yy
    ensures IsQuadratic(t, tn, tx, ty, txx, txy, tyy, a, b)
  {}

  /** Pointwise quadratics in given moments sum to the quadratic in the summed moments. */
  lemma {:induction false} SumQuadratic(rs: seq<real>, ns: seq<real>, xs: seq<real>, ys: seq<real>,
                                        xxs: seq<real>, xys: seq<real>, yys: seq<real>, a: real, b: real)
    requires |rs| == |ns| == |xs| == |ys| == |xxs| == |xys| == |yys|
    requires forall i :: 0 <= i < |rs| ==> IsQuadratic(rs[i], ns[i], xs[i], ys[i], xxs[i], xys[i], yys[i], a, b)
    ensures IsQuadratic(Sum(rs), Sum(ns), Sum(xs), Sum(ys), Sum(xxs), Sum(xys), Sum(yys), a, b)
  {
    if rs == [] {
      assert IsQuadratic(0.0, 0.0, 0.0, 0.0, 0.0, 0.0, 0.0, a, b);
    } else {
      var n := |rs| - 1;
      SumQuadratic(rs[..n], ns[..n], xs[..n], ys[..n], xxs[..n], xys[..n], yys[..n], a, b);
      QuadraticStep(a, b, rs[n], ns[n], xs[n], ys[n], xxs[n], xys[n], yys[n],
                    Sum(rs[..n]), Sum(ns[..n]), Sum(xs[..n]), Sum(ys[..n]), Sum(xxs[..n]), Sum(xys[..n]), Sum(yys[..n]),
                    Sum(rs), Sum(ns), Sum(xs), Sum(ys), Sum(xxs), Sum(xys), Sum(yys));
    }
  }

  lemma ResidualSquare(p: Point, a: real, b: real)
    ensures IsQuadratic(Residual(p, a, b) * Residual(p, a, b), 1.0, p.x, p.y, p.x * p.x, p.x * p.y, p.y * p.y, a, b)
  {}

  lemma ResidualsMoments(ps: seq<Point>, a: real, b: real)
    ensures IsQuadratic(Residuals(ps, a, b), Count(ps), Sx(ps), Sy(ps), Sxx(ps), Sxy(ps), Syy(ps), a, b)
  {
    forall i | 0 <= i < |ps|
      ensures IsQuadratic(SquaredResiduals(ps, a, b)[i], Const(|ps|, 1.0)[i], Xs(ps)[i], Ys(ps)[i],
                          Times(Xs(ps), Xs(ps))[i], Times(Xs(ps), Ys(ps))[i], Times(Ys(ps), Ys(ps))[i], a, b)
    {
      ResidualSquare(ps[i], a, b);
    }
    SumConst(|ps|, 1.0);
    SumQuadratic(SquaredResiduals(ps, a, b), Const(|ps|, 1.0), Xs(ps), Ys(ps),
                 Times(Xs(ps), Xs(ps)), Times(Xs(ps), Ys(ps)), Times(Ys(ps), Ys(ps)), a, b);
  }

  // ---- the denominator ----

  function DenomOf(n: real, sx: real, sxx: real): real {
    n * sxx - sx * sx
  }

  function Denom(ps: seq<Point>): real {
    DenomOf(Count(ps), Sx(ps), Sxx(ps))
  }

  lemma PositiveProduct(x: real, y: real, q: real)
    requires x > 0.0 && y > 0.0 && q == x * y
    ensures q > 0.0
  {}

  lemma SquareSign(d: real, q: real)
    requires q == d * d
    ensures q >= 0.0
    ensures q == 0.0 <==> d == 0.0
  {
    if d > 0.0 { PositiveProduct(d, d, q); } else if d < 0.0 { PositiveProduct(-d, -d, q); }
  }

  /** The squared distances of the abscissae from `c`, summed. */
  function Spread(ps: seq<Point>, c: real): real {
    Residuals(Flat(ps), c, 0.0)
  }

  function Flat(ps: seq<Point>): (qs: seq<Point>)
    ensures |qs| == |ps|
  {
    seq(|ps|, i requires 0 <= i < |ps| => Point(0.0, ps[i].x))
  }

  lemma SpreadSign(ps: seq<Point>, c: real)
    ensures Spread(ps, c) >= 0.0
    ensures Spread(ps, c) == 0.0 <==> forall i :: 0 <= i < |ps| ==> ps[i].x == c
  {
    var sq := SquaredResiduals(Flat(ps), c, 0.0);
    forall i | 0 <= i < |ps| ensures sq[i] >= 0.0 && (sq[i] == 0.0 <==> ps[i].x == c) {
      SquareSign(Residual(Flat(ps)[i], c, 0.0), sq[i]);
    }
    SumNonnegative(sq);
    assert forall i :: 0 <= i < |ps| ==> (sq[i] == 0.0 <==> ps[i].x == c);
  }

  lemma SpreadMoments(ps: seq<Point>, c: real)
    ensures IsQuadratic(Spread(ps, c), Count(ps), 0.0, Sx(ps), 0.0, 0.0, Sxx(ps), c, 0.0)
  {
    var qs := Flat(ps);
    ResidualsMoments(qs, c, 0.0);
    SumConst(|ps|, 0.0);
    assert Xs(qs) == Const(|ps|, 0.0);
    assert Ys(qs) == Xs(ps);
    assert Times(Xs(qs), Ys(qs)) == Const(|ps|, 0.0);
    assert Times(Xs(qs), Xs(qs)) == Const(|ps|, 0.0);
  }

  lemma Mean(n: real, sx: real) returns (m: real)
    requires n > 0.0
    ensures MeanOf(m, n, sx)
  {
    m := sx / n;
  }

  predicate MeanOf(m: real, n: real, sx: real) {
    m * n == sx
  }

  lemma MeanSpread(n: real, sx: real, sxx: real, m: real, q: real)
    requires n > 0.0 && MeanOf(m, n, sx) && IsQuadratic(q, n, 0.0, sx, 0.0, 0.0, sxx, m, 0.0)
    ensures ScaledBy(DenomOf(n, sx, sxx), n, q)
  {
    assert q == m * m * n - 2.0 * m * sx + sxx;
    assert n * (m * m * n) == (m * n) * (m * n);
    assert n * (m * sx) == (m * n) * sx;
  }

  lemma ProductSign(n: real, q: real, d: real)
    requires n > 0.0 && ScaledBy(d, n, q)
    ensures (q >= 0.0 <==> d >= 0.0) && (q == 0.0 <==> d == 0.0)
  {
    if q > 0.0 { assert n * q > 0.0; }
    if q < 0.0 { assert n * (-q) > 0.0; }
  }

  /** The denominator is never negative, and vanishes exactly when all sample times coincide. */
  lemma DenomSign(ps: seq<Point>)
    ensures Denom(ps) >= 0.0
    ensures Denom(ps) == 0.0 <==> forall i, j :: 0 <= i < j < |ps| ==> ps[i].x == ps[j].x
  {
    if ps == [] {
      assert Xs(ps) == [];
    } else {
      var m := Mean(Count(ps), Sx(ps));
      SpreadMoments(ps, m);
      SpreadSign(ps, m);
      MeanSpread(Count(ps), Sx(ps), Sxx(ps), m, Spread(ps, m));
      ProductSign(Count(ps), Spread(ps, m), Denom(ps));
      if forall i, j :: 0 <= i < j < |ps| ==> ps[i].x == ps[j].x {
        assert forall i :: 0 <= i < |ps| ==> ps[i].x == ps[0].x;
        assert Xs(ps) == Const(|ps|, ps[0].x);
        SumConst(|ps|, ps[0].x);
      }
    }
  }

  // ---- the fitted line ----

  /** The line the code computes from its sums. */
  function SlopeOf(n: real, sx: real, sy: real, sxx: real, sxy: real): real {
    var d := n * sxx - sx * sx;
    if d != 0.0 then (n * sxy - sx * sy) / d else 0.0
  }

  function InterceptOf(n: real, sx: real, sy: real, slope: real): real
    requires n != 0.0
  {
    (sy - slope * sx) / n
  }

  function Slope(ps: seq<Point>): real {
    SlopeOf(Count(ps), Sx(ps), Sy(ps), Sxx(ps), Sxy(ps))
  }

  function Intercept(ps: seq<Point>): real
    requires ps != []
  {
    InterceptOf(Count(ps), Sx(ps), Sy(ps), Slope(ps))
  }

  /** The normal equations of the line a + b*x. */
  predicate Normal(n: real, sx: real, sy: real, sxx: real, sxy: real, a: real, b: real) {
    Comb(sy, a, n, b, sx) && Comb(sxy, a, sx, b, sxx)
  }

  predicate CrossVanishes(n: real, sx: real, sy: real, sxx: real, sxy: real) {
    DenomOf(n, sx, sxx) == 0.0 ==> n * sxy == sx * sy
  }

  lemma SolveNormal(n: real, sx: real, sy: real, sxx: real, sxy: real)
    requires n > 0.0
    requires CrossVanishes(n, sx, sy, sxx, sxy)
    ensures var b := SlopeOf(n, sx, sy, sxx, sxy);
            Normal(n, sx, sy, sxx, sxy, InterceptOf(n, sx, sy, b), b)
  {
    var d := n * sxx - sx * sx;
    var b := SlopeOf(n, sx, sy, sxx, sxy);
    var a := InterceptOf(n, sx, sy, b);
    assert a * n == sy - b * sx;
    assert b * d == n * sxy - sx * sy;
    var e := a * sx + b * sxx - sxy;
    assert n * e == (a * n) * sx + b * (n * sxx) - n * sxy;
    assert (a * n) * sx == sy * sx - b * (sx * sx);
    assert b * d == b * (n * sxx) - b * (sx * sx);
    assert n * e == 0.0;
    ProductSign(n, e, 0.0);
  }

  /** When all times coincide the cross moment factors. */
  lemma SameTime(ps: seq<Point>, c: real)
    requires forall i :: 0 <= i < |ps| ==> ps[i].x == c
    ensures ScaledBy(Sx(ps), Count(ps), c) && Comb(Sxy(ps), c, Sy(ps), 0.0, Sy(ps))
  {
    SumConst(|ps|, c);
    assert Xs(ps) == Const(|ps|, c);
    forall i | 0 <= i < |ps| ensures Comb(Times(Xs(ps), Ys(ps))[i], c, Ys(ps)[i], 0.0, Ys(ps)[i]) {}
    SumComb(Times(Xs(ps), Ys(ps)), c, Ys(ps), 0.0, Ys(ps));
  }

  lemma Factor(n: real, sx: real, sy: real, sxx: real, sxy: real, c: real)
    requires ScaledBy(sx, n, c) && Comb(sxy, c, sy, 0.0, sy)
    ensures CrossVanishes(n, sx, sy, sxx, sxy)
  {
    assert sxy == c * sy;
    assert n * (c * sy) == (n * c) * sy;
  }

  /** The computed line satisfies both normal equations, also when the denominator is zero. */
  lemma NormalEquations(ps: seq<Point>)
    requires ps != []
    ensures Normal(Count(ps), Sx(ps), Sy(ps), Sxx(ps), Sxy(ps), Intercept(ps), Slope(ps))
  {
    DenomSign(ps);
    if Denom(ps) == 0.0 {
      assert forall i :: 0 <= i < |ps| ==> ps[i].x == ps[0].x;
      SameTime(ps, ps[0].x);
      Factor(Count(ps), Sx(ps), Sy(ps), Sxx(ps), Sxy(ps), ps[0].x);
    }
    SolveNormal(Count(ps), Sx(ps), Sy(ps), Sxx(ps), Sxy(ps));
  }

  lemma ExcessForm(n: real, sx: real, sxx: real, syy: real, a: real, b: real, u: real, v: real)
    ensures var sy, sxy := a * n + b * sx, a * sx + b * sxx;
            Quadratic(n, sx, sy, sxx, sxy, syy, a + u, b + v) - Quadratic(n, sx, sy, sxx, sxy, syy, a, b) ==
            u * u * n + 2.0 * (u * v * sx) + v * v * sxx
  {}

  lemma ExcessNonnegative(n: real, sx: real, sxx: real, u: real, v: real)
    requires n > 0.0 && n * sxx - sx * sx >= 0.0
    ensures u * u * n + 2.0 * (u * v * sx) + v * v * sxx >= 0.0
  {
    var w := u * n + v * sx;
    var d := n * sxx - sx * sx;
    var q := u * u * n + 2.0 * (u * v * sx) + v * v * sxx;
    assert w * w == u * u * n * n + 2.0 * (u * v * sx) * n + v * v * (sx * sx);
    assert n * q == w * w + v * v * d;
    SquareSign(w, w * w);
    SquareSign(v, v * v);
    assert v * v * d >= 0.0;
    ProductSign(n, q, n * q);
  }

  /** A solution of the normal equations minimises the quadratic. */
  lemma Excess(n: real, sx: real, sy: real, sxx: real, sxy: real, syy: real, a0: real, b0: real, a: real, b: real,
               r0: real, r: real)
    requires n > 0.0 && DenomOf(n, sx, sxx) >= 0.0
    requires Normal(n, sx, sy, sxx, sxy, a0, b0)
    requires IsQuadratic(r0, n, sx, sy, sxx, sxy, syy, a0, b0) && IsQuadratic(r, n, sx, sy, sxx, sxy, syy, a, b)
    ensures r0 <= r
  {
    ExcessForm(n, sx, sxx, syy, a0, b0, a - a0, b - b0);
    ExcessNonnegative(n, sx, sxx, a - a0, b - b0);
  }

  /** No line has a smaller sum of squared residuals than the computed one. */
  lemma Optimal(ps: seq<Point>, a: real, b: real)
    requires ps != []
    ensures Residuals(ps, Intercept(ps), Slope(ps)) <= Residuals(ps, a, b)
  {
    ResidualsMoments(ps, a, b);
    ResidualsMoments(ps, Intercept(ps), Slope(ps));
    NormalEquations(ps);
    DenomSign(ps);
    Excess(Count(ps), Sx(ps), Sy(ps), Sxx(ps), Sxy(ps), Syy(ps), Intercept(ps), Slope(ps), a, b,
           Residuals(ps, Intercept(ps), Slope(ps)), Residuals(ps, a, b));
  }

  lemma SolveCollinear(n: real, sx: real, sy: real, sxx: real, sxy: real, a: real, b: real)
    requires n > 0.0 && n * sxx - sx * sx != 0.0
    requires Comb(sy, a, n, b, sx) && Comb(sxy, a, sx, b, sxx)
    ensures var slope := SlopeOf(n, sx, sy, sxx, sxy); slope == b && InterceptOf(n, sx, sy, slope) == a
  {
    var d := n * sxx - sx * sx;
    assert n * sxy - sx * sy == b * d;
    assert (b * d) / d == b;
    assert (a * n) / n == a;
  }

  /** When all times coincide the line is flat, through the mean. */
  lemma FlatWhenCoinciding(ps: seq<Point>)
    requires ps != [] && forall i, j :: 0 <= i < j < |ps| ==> ps[i].x == ps[j].x
    ensures Slope(ps) == 0.0 && MeanOf(Intercept(ps), Count(ps), Sy(ps))
  {
    DenomSign(ps);
  }

  predicate OnLine(p: Point, a: real, b: real) {
    p.y == a + b * p.x
  }

  lemma CollinearMoments(ps: seq<Point>, a: real, b: real)
    requires forall i :: 0 <= i < |ps| ==> OnLine(ps[i], a, b)
    ensures Comb(Sy(ps), a, Count(ps), b, Sx(ps)) && Comb(Sxy(ps), a, Sx(ps), b, Sxx(ps))
  {
    forall i | 0 <= i < |ps|
      ensures Comb(Ys(ps)[i], a, Const(|ps|, 1.0)[i], b, Xs(ps)[i])
      ensures Comb(Times(Xs(ps), Ys(ps))[i], a, Xs(ps)[i], b, Times(Xs(ps), Xs(ps))[i])
    {
      LinePoint(ps[i], a, b);
    }
    SumConst(|ps|, 1.0);
    SumComb(Ys(ps), a, Const(|ps|, 1.0), b, Xs(ps));
    SumComb(Times(Xs(ps), Ys(ps)), a, Xs(ps), b, Times(Xs(ps), Xs(ps)));
  }

  lemma LinePoint(p: Point, a: real, b: real)
    requires OnLine(p, a, b)
    ensures Comb(p.y, a, 1.0, b, p.x) && Comb(p.x * p.y, a, p.x, b, p.x * p.x)
  {}

  /** Collinear samples at two or more distinct times are recovered exactly. */
  lemma CollinearRecovered(ps: seq<Point>, a: real, b: real)
    requires forall i :: 0 <= i < |ps| ==> OnLine(ps[i], a, b)
    requires exists i, j :: 0 <= i < j < |ps| && ps[i].x != ps[j].x
    ensures Intercept(ps) == a && Slope(ps) == b
  {
    DenomSign(ps);
    CollinearMoments(ps, a, b);
    SolveCollinear(Count(ps), Sx(ps), Sy(ps), Sxx(ps), Sxy(ps), a, b);
  }
}
