/** Ordinary least squares over calibration points: optimality and the sign of the slope. */
module LeastSquares {
  import opened Lists

  datatype Point = Point(x: real, y: real)

  function Square(v: real): real {
    Times(v, v)
  }

  function X(): Point -> real { (p: Point) => p.x }

  function Y(): Point -> real { (p: Point) => p.y }

  /** Squared residual of the line `a + b*x` at one point. */
  function Residual(a: real, b: real): Point -> real {
    (p: Point) => Square(p.y - a - b * p.x)
  }

  /** Products of deviations from the centre `(cx, cy)`. */
  function Cross(cx: real, cy: real): Point -> real {
    (p: Point) => Times(p.x - cx, p.y - cy)
  }

  function Spread(cx: real): Point -> real {
    (p: Point) => Square(p.x - cx)
  }

  function MeanX(ps: seq<Point>): real
    requires |ps| > 0
  {
    SumBy(ps, X()) / |ps| as real
  }

  function MeanY(ps: seq<Point>): real
    requires |ps| > 0
  {
    SumBy(ps, Y()) / |ps| as real
  }

  function Numerator(ps: seq<Point>): real
    requires |ps| > 0
  {
    SumBy(ps, Cross(MeanX(ps), MeanY(ps)))
  }

  function Denominator(ps: seq<Point>): real
    requires |ps| > 0
  {
    SumBy(ps, Spread(MeanX(ps)))
  }

  /** The regression slope, undefined below two points or when every x agrees. */
  function Slope(ps: seq<Point>): Option<real> {
    if |ps| < 2 then None
    else if Denominator(ps) == 0.0 then None
    else Some(Numerator(ps) / Denominator(ps))
  }

  /** The sum of squared residuals of a line. */
  function Loss(ps: seq<Point>, a: real, b: real): real {
    SumBy(ps, Residual(a, b))
  }

  lemma {:induction false} CentredSums(ps: seq<Point>, cx: real, cy: real, dx: Point -> real, dy: Point -> real)
    requires forall p :: dx(p) == p.x - cx
    requires forall p :: dy(p) == p.y - cy
    ensures SumBy(ps, dx) == SumBy(ps, X()) - |ps| as real * cx
    ensures SumBy(ps, dy) == SumBy(ps, Y()) - |ps| as real * cy
  {
    if ps != [] {
      var m := |ps| - 1;
      CentredSums(ps[..m], cx, cy, dx, dy);
      assert |ps| as real * cx == m as real * cx + cx;
      assert |ps| as real * cy == m as real * cy + cy;
    }
  }

  /** Deviations from the means cancel. */
  lemma DeviationsCancel(ps: seq<Point>, dx: Point -> real, dy: Point -> real)
    requires |ps| > 0
    requires forall p :: dx(p) == p.x - MeanX(ps)
    requires forall p :: dy(p) == p.y - MeanY(ps)
    ensures SumBy(ps, dx) == 0.0 && SumBy(ps, dy) == 0.0
  {
    CentredSums(ps, MeanX(ps), MeanY(ps), dx, dy);
  }

  lemma SquareOfShiftedResidual(dx: real, dy: real, b: real, c: real)
    ensures Square(dy - b * dx + c)
         == Square(dy) + Times(-2.0 * b, Times(dx, dy)) + Times(Square(b), Square(dx)) + Times(2.0 * c,
             dy - b * dx) + Square(c)
  {
    var u := b * dx;
    assert Square(dy - u + c) == Square(dy) + Square(u) + Square(c) - 2.0 * (dy * u) + 2.0 * (c * dy) - 2.0 * (c * u);
    assert Square(u) == Square(b) * Square(dx);
    assert dy * u == b * (dx * dy);
    assert (2.0 * c) * (dy - u) == 2.0 * (c * dy) - 2.0 * (c * u);
  }

  lemma Distribute(k: real, s: real, g: real)
    ensures Times(k, s + g) == Times(k, s) + Times(k, g)
  {
  }

  lemma NextMultiple(m: nat, k: real)
    ensures Times((m + 1) as real, k) == Times(m as real, k) + k
  {
  }

  /** Summation is linear. */
  lemma {:induction false} SumLinear(
    ps: seq<Point>, f: Point -> real, g0: Point -> real,
    k1: real, g1: Point -> real, k2: real, g2: Point -> real, k3: real, g3: Point -> real, k4: real)
    requires forall p :: f(p) == g0(p) + Times(k1, g1(p)) + Times(k2, g2(p)) + Times(k3, g3(p)) + k4
    ensures SumBy(ps, f) == SumBy(ps, g0) + Times(k1, SumBy(ps, g1)) + Times(k2, SumBy(ps, g2)) + Times(k3,
        SumBy(ps, g3))
                            + Times(|ps| as real, k4)
  {
    if ps != [] {
      var m := |ps| - 1;
      var p := ps[m];
      SumLinear(ps[..m], f, g0, k1, g1, k2, g2, k3, g3, k4);
      Distribute(k1, SumBy(ps[..m], g1), g1(p));
      Distribute(k2, SumBy(ps[..m], g2), g2(p));
      Distribute(k3, SumBy(ps[..m], g3), g3(p));
      NextMultiple(m, k4);
    }
  }

  function Tilt(cx: real, cy: real, b: real): Point -> real {
    (p: Point) => (p.y - cy) - b * (p.x - cx)
  }

  /** Deviations from the means cancel along every tilt. */
  lemma TiltCancels(ps: seq<Point>, b: real)
    requires |ps| > 0
    ensures SumBy(ps, Tilt(MeanX(ps), MeanY(ps), b)) == 0.0
  {
    var cx, cy := MeanX(ps), MeanY(ps);
    var dx, dy, zero := (p: Point) => p.x - cx, (p: Point) => p.y - cy, (p: Point) => 0.0;
    SumLinear(ps, Tilt(cx, cy, b), dy, -b, dx, 0.0, zero, 0.0, zero, 0.0);
    DeviationsCancel(ps, dx, dy);
  }

  lemma ShiftedResidual(p: Point, a: real, b: real, cx: real, cy: real, c: real)
    requires c == cy - a - b * cx
    ensures p.y - a - b * p.x == (p.y - cy) - b * (p.x - cx) + c
  {
    assert b * (p.x - cx) == b * p.x - b * cx;
  }

  lemma ResidualAt(p: Point, a: real, b: real, cx: real, cy: real)
    ensures var c := cy - a - b * cx;
            Residual(a, b)(p)
            == SquareY(cy)(p) + Times(-2.0 * b, Cross(cx, cy)(p)) + Times(Square(b), Spread(cx)(p))
               + Times(2.0 * c, Tilt(cx, cy, b)(p)) + Square(c)
  {
    var c := cy - a - b * cx;
    var dx, dy := p.x - cx, p.y - cy;
    ShiftedResidual(p, a, b, cx, cy, c);
    SquareOfShiftedResidual(dx, dy, b, c);
    hide Times, Square;
  }

  lemma TimesZero(k: real, z: real)
    requires z == 0.0
    ensures Times(k, z) == 0.0
  {
  }

  /** Around a centre where every tilt cancels, only the squares remain. */
  lemma LossAroundCentre(ps: seq<Point>, a: real, b: real, cx: real, cy: real, c: real)
    requires SumBy(ps, Tilt(cx, cy, b)) == 0.0
    requires c == cy - a - Times(b, cx)
    ensures Loss(ps, a, b) == SumBy(ps, SquareY(cy)) + Times(-2.0 * b, SumBy(ps, Cross(cx, cy)))
                              + Times(Square(b), SumBy(ps, Spread(cx))) + Times(|ps| as real, Square(c))
  {
    forall p: Point
      ensures Residual(a, b)(p)
           == SquareY(cy)(p) + Times(-2.0 * b, Cross(cx, cy)(p)) + Times(Square(b), Spread(cx)(p))
              + Times(2.0 * c, Tilt(cx, cy, b)(p)) + Square(c)
    {
      ResidualAt(p, a, b, cx, cy);
    }
    SumLinear(ps, Residual(a, b), SquareY(cy), -2.0 * b, Cross(cx, cy), Square(b), Spread(cx), 2.0 * c, Tilt(cx, cy, b),
        Square(c));
    TimesZero(2.0 * c, SumBy(ps, Tilt(cx, cy, b)));
  }

  function SquareY(cy: real): Point -> real {
    (p: Point) => Square(p.y - cy)
  }

  lemma {:induction false} SpreadNonNegative(ps: seq<Point>, cx: real)
    ensures SumBy(ps, Spread(cx)) >= 0.0
  {
    if ps != [] {
      var m := |ps| - 1;
      SpreadNonNegative(ps[..m], cx);
      SquareSign(ps[m].x - cx);
    }
  }

  /** The spread vanishes exactly when every x sits on the centre. */
  lemma {:induction false} SpreadZero(ps: seq<Point>, cx: real)
    ensures SumBy(ps, Spread(cx)) == 0.0 <==> forall p :: p in ps ==> p.x == cx
  {
    if ps != [] {
      var m := |ps| - 1;
      SpreadZero(ps[..m], cx);
      SpreadNonNegative(ps[..m], cx);
      assert ps == ps[..m] + [ps[m]];
      SquareSign(ps[m].x - cx);
    }
  }

  lemma SquareSign(d: real)
    ensures d != 0.0 ==> Square(d) > 0.0
    ensures d == 0.0 ==> Square(d) == 0.0
  {
    SquareNonNegative(d);
  }

  lemma Parabola(n: real, d: real, m: real, b: real)
    requires Times(m, d) == n
    ensures Times(-2.0 * b, n) + Times(Square(b), d)
        == Times(-2.0 * m, n) + Times(Square(m), d) + Times(d, Square(b - m))
  {
    assert Square(b - m) == Square(b) - 2.0 * (b * m) + Square(m);
    assert b * n == (b * m) * d;
    assert m * n == Square(m) * d;
    assert d * (Square(b) - 2.0 * (b * m) + Square(m)) == d * Square(b) - 2.0 * (d * (b * m)) + d * Square(m);
  }

  /** How far any line lies above the line of slope `m` through the centre. */
  lemma LossAboveBest(ps: seq<Point>, a: real, b: real, m: real, cx: real, cy: real)
    requires SumBy(ps, Tilt(cx, cy, b)) == 0.0 && SumBy(ps, Tilt(cx, cy, m)) == 0.0
    requires Times(m, SumBy(ps, Spread(cx))) == SumBy(ps, Cross(cx, cy))
    ensures Loss(ps, a, b) == Loss(ps, cy - Times(m, cx), m) + Times(SumBy(ps, Spread(cx)), Square(b - m))
                              + Times(|ps| as real, Square(cy - a - Times(b, cx)))
  {
    hide SumBy;
    LossAroundCentre(ps, a, b, cx, cy, cy - a - Times(b, cx));
    LossAroundCentre(ps, cy - Times(m, cx), m, cx, cy, 0.0);
    Parabola(SumBy(ps, Cross(cx, cy)), SumBy(ps, Spread(cx)), m, b);
    SquareSign(0.0);
    TimesZero(|ps| as real, Square(0.0));
  }

  lemma BestAtCentre(ps: seq<Point>, a: real, b: real, a0: real, m: real, cx: real, cy: real)
    requires |ps| > 0 && SumBy(ps, Spread(cx)) > 0.0
    requires SumBy(ps, Tilt(cx, cy, b)) == 0.0 && SumBy(ps, Tilt(cx, cy, m)) == 0.0
    requires Times(m, SumBy(ps, Spread(cx))) == SumBy(ps, Cross(cx, cy))
    requires a0 == cy - Times(m, cx)
    ensures Loss(ps, a0, m) <= Loss(ps, a, b)
    ensures Loss(ps, a, b) == Loss(ps, a0, m) ==> a == a0 && b == m
  {
    var c := cy - a - Times(b, cx);
    LossAboveBest(ps, a, b, m, cx, cy);
    WeightedSquare(SumBy(ps, Spread(cx)), b - m);
    WeightedSquare(|ps| as real, c);
  }

  /** The line of slope `m` through the point of means. */
  function Intercept(ps: seq<Point>, m: real): real
    requires |ps| > 0
  {
    MeanY(ps) - Times(m, MeanX(ps))
  }

  lemma QuotientTimes(n: real, d: real)
    requires d != 0.0
    ensures Times(n / d, d) == n
  {
  }

  /** The returned slope, through the means, is the unique best line of all lines. */
  lemma SlopeIsOptimal(ps: seq<Point>, a: real, b: real)
    requires Slope(ps).Some?
    ensures var m := Slope(ps).value;
            && Loss(ps, Intercept(ps, m), m) <= Loss(ps, a, b)
            && (Loss(ps, a, b) == Loss(ps, Intercept(ps, m), m) ==> a == Intercept(ps, m) && b == m)
  {
    var m := Slope(ps).value;
    var cx, cy := MeanX(ps), MeanY(ps);
    SpreadNonNegative(ps, cx);
    TiltCancels(ps, b);
    TiltCancels(ps, m);
    QuotientTimes(Numerator(ps), Denominator(ps));
    BestAtCentre(ps, a, b, Intercept(ps, m), m, cx, cy);
  }

  lemma WeightedSquare(w: real, v: real)
    requires w > 0.0
    ensures Times(w, Square(v)) >= 0.0
    ensures v != 0.0 ==> Times(w, Square(v)) > 0.0
  {
    SquareSign(v);
    if v != 0.0 {
      ProductPositive(w, Square(v));
    } else {
      TimesZero(w, Square(v));
    }
  }

  /** The slope is undefined exactly below two points or on a vertical stack. */
  lemma SlopeDefined(ps: seq<Point>)
    ensures Slope(ps).Some? <==> exists p, q :: p in ps && q in ps && p.x != q.x
  {
    if |ps| >= 2 {
      var cx := MeanX(ps);
      SpreadZero(ps, cx);
      if Denominator(ps) != 0.0 {
        assert exists p, q :: p in ps && q in ps && p.x != q.x by {
          if forall q :: q in ps ==> q.x == ps[0].x {
            SumOfEqual(ps, ps[0].x);
            assert false;
          }
          assert ps[0] in ps;
        }
      }
    }
  }

  lemma {:induction false} SumOfEqual(ps: seq<Point>, v: real)
    requires forall p :: p in ps ==> p.x == v
    ensures SumBy(ps, X()) == |ps| as real * v
    ensures |ps| > 0 ==> MeanX(ps) == v
  {
    if ps != [] {
      var m := |ps| - 1;
      SumOfEqual(ps[..m], v);
      assert |ps| as real * v == m as real * v + v;
      var n := |ps| as real;
      assert MeanX(ps) == n * v / n;
    }
  }

  // ----- The sign of the slope on monotone data

  ghost predicate StrictlyAscendingX(ps: seq<Point>) {
    forall i, j :: 0 <= i < j < |ps| ==> ps[i].x < ps[j].x
  }

  ghost predicate AscendingY(ps: seq<Point>) {
    forall i, j :: 0 <= i < j < |ps| ==> ps[i].y <= ps[j].y
  }

  /** The first point at or right of `c`, or the last point. */
  function Crossing(ps: seq<Point>, c: real): (k: nat)
    requires |ps| > 0
    ensures k < |ps|
    ensures forall i :: 0 <= i < k ==> ps[i].x < c
    ensures ps[k].x >= c || k == |ps| - 1
  {
    if ps[0].x >= c || |ps| == 1 then 0 else
      var k := Crossing(ps[1..], c);
      assert forall i :: 1 <= i < k + 1 ==> ps[i] == ps[1..][i - 1];
      k + 1
  }

  /** Re-centring y does not change the numerator. */
  lemma NumeratorRecentred(ps: seq<Point>, cy: real)
    requires |ps| > 0
    ensures Numerator(ps) == SumBy(ps, Cross(MeanX(ps), cy))
  {
    var cx := MeanX(ps);
    var dx, dy := (p: Point) => p.x - cx, (p: Point) => p.y - MeanY(ps);
    DeviationsCancel(ps, dx, dy);
    CrossShift(ps, cx, MeanY(ps), cy, dx);
    TimesZero(MeanY(ps) - cy, SumBy(ps, dx));
  }

  lemma {:induction false} CrossShift(ps: seq<Point>, cx: real, cy: real, cy': real, dx: Point -> real)
    requires forall p :: dx(p) == p.x - cx
    ensures SumBy(ps, Cross(cx, cy')) == SumBy(ps, Cross(cx, cy)) + Times(cy - cy', SumBy(ps, dx))
  {
    if ps != [] {
      var m := |ps| - 1;
      var p := ps[m];
      CrossShift(ps[..m], cx, cy, cy', dx);
      assert Times(p.x - cx, p.y - cy') == Times(p.x - cx, p.y - cy) + Times(cy - cy', p.x - cx);
      Distribute(cy - cy', SumBy(ps[..m], dx), dx(p));
    }
  }

  lemma ProductSign(u: real, v: real)
    requires (u >= 0.0 && v >= 0.0) || (u <= 0.0 && v <= 0.0)
    ensures Times(u, v) >= 0.0
    ensures Times(u, v) == 0.0 ==> u == 0.0 || v == 0.0
  {
  }

  /** The term is non-negative, and vanishes only on the pivot's own y. */
  ghost predicate PivotedTerm(p: Point, cx: real, cy: real) {
    && Cross(cx, cy)(p) >= 0.0
    && (Cross(cx, cy)(p) == 0.0 ==> p.y == cy)
  }

  /** Pivoting y at the crossing makes every term of the numerator non-negative. */
  lemma {:induction false} PivotedTerms(ps: seq<Point>)
    requires |ps| > 0 && StrictlyAscendingX(ps) && AscendingY(ps)
    ensures var cx := MeanX(ps);
            var pivot := ps[Crossing(ps, cx)];
            forall p :: p in ps ==> PivotedTerm(p, cx, pivot.y)
  {
    hide SumBy, MeanX, Times;
    var cx := MeanX(ps);
    var k := Crossing(ps, cx);
    assert ps[k].x >= cx by {
      AllLeftOfMean(ps);
      var p :| p in ps && p.x >= cx;
      var i :| 0 <= i < |ps| && ps[i] == p;
    }
    forall i | 0 <= i < |ps|
      ensures PivotedTerm(ps[i], cx, ps[k].y)
    {
      if i < k {
        assert ps[i].x < cx && ps[i].y <= ps[k].y;
        ProductSign(ps[i].x - cx, ps[i].y - ps[k].y);
      } else if k < i {
        assert ps[k].x < ps[i].x && ps[k].y <= ps[i].y;
        ProductSign(ps[i].x - cx, ps[i].y - ps[k].y);
      } else {
        TimesZero(ps[i].x - cx, ps[i].y - ps[k].y);
      }
    }
  }

  /** Not every point can lie strictly left of the mean. */
  lemma AllLeftOfMean(ps: seq<Point>)
    requires |ps| > 0
    ensures exists p :: p in ps && p.x >= MeanX(ps)
  {
    var cx := MeanX(ps);
    if forall p :: p in ps ==> p.x < cx {
      var left := (p: Point) => cx - p.x;
      var dx, dy := (p: Point) => p.x - cx, (p: Point) => p.y - MeanY(ps);
      DeviationsCancel(ps, dx, dy);
      Negated(ps, left, dx);
      assert ps[0] in ps && left(ps[0]) > 0.0;
      SumNonNegative(ps, left);
      assert false;
    }
  }

  lemma {:induction false} Negated(ps: seq<Point>, f: Point -> real, g: Point -> real)
    requires forall p :: f(p) == -g(p)
    ensures SumBy(ps, f) == -SumBy(ps, g)
  {
    if ps != [] {
      Negated(ps[..|ps| - 1], f, g);
    }
  }

  /** On ascending data the slope is never negative, and zero only when y is constant. */
  lemma SlopeSign(ps: seq<Point>)
    requires |ps| >= 2 && StrictlyAscendingX(ps) && AscendingY(ps)
    ensures Slope(ps).Some?
    ensures Slope(ps).value >= 0.0
    ensures Slope(ps).value > 0.0 <==> ps[0].y < ps[|ps| - 1].y
  {
    hide SumBy, MeanX, MeanY, Times;
    SlopeDefined(ps);
    assert ps[0] in ps && ps[1] in ps && ps[0].x != ps[1].x;
    var cx := MeanX(ps);
    var pivot := ps[Crossing(ps, cx)];
    PivotedTerms(ps);
    NumeratorRecentred(ps, pivot.y);
    SumNonNegative(ps, Cross(cx, pivot.y));
    SpreadNonNegative(ps, cx);
    var n, d := Numerator(ps), Denominator(ps);
    QuotientOrder(0.0, n, d);
    QuotientOrder(n, 0.0, d);
    assert ps[0] in ps && ps[|ps| - 1] in ps;
    if ps[0].y == ps[|ps| - 1].y {
      ConstantCross(ps, cx, pivot.y);
    }
  }

  lemma {:induction false} ConstantCross(ps: seq<Point>, cx: real, cy: real)
    requires forall p :: p in ps ==> p.y == cy
    ensures SumBy(ps, Cross(cx, cy)) == 0.0
  {
    if ps != [] {
      var m := |ps| - 1;
      ConstantCross(ps[..m], cx, cy);
      assert ps[m].y - cy == 0.0;
    }
  }
}
