/** The quintic Bezier segments of the proto-model (SHYqpV1.py: curveSeg3,
    curveSegF, curveSegFDF and curveSegTheta).  A segment runs from the point
    Bs with tangent Ts to the point Be with tangent Te; the shape parameters
    lambdaS and lambdaE place the inner control points
      B1 = Bs + lambdaS Ts, B2 = B1 + lambdaS Ts, B4 = Be - lambdaE Te, B3 = B4 - lambdaE Te
    and the curve is evaluated in power form (coefficients A1 .. A5, Horner's
    rule).  Each coordinate is an independent scalar polynomial, so the
    scalar Quintic below is the core and the vector operations apply it to
    every coordinate of a column vector. */
module Bezier {
  import opened Vectors

  /** The six control points of one coordinate. */
  datatype ControlPolygon = ControlPolygon(p0: real, p1: real, p2: real, p3: real, p4: real, p5: real)

  /** Power-form coefficients: f(t) = b0 + a1 t + a2 t^2 + a3 t^3 + a4 t^4 + a5 t^5. */
  datatype Quintic = Quintic(b0: real, a1: real, a2: real, a3: real, a4: real, a5: real)

  function Controls(bs: real, ts: real, be: real, te: real, lambdaS: real, lambdaE: real): ControlPolygon {
    var b1 := bs + lambdaS * ts;
    var b2 := b1 + lambdaS * ts;
    var b4 := be - lambdaE * te;
    var b3 := b4 - lambdaE * te;
    ControlPolygon(bs, b1, b2, b3, b4, be)
  }

  /** The power-form coefficients A1 .. A5 of the source, from the control polygon. */
  function PowerForm(c: ControlPolygon): Quintic {
    Quintic(c.p0,
            5.0 * (c.p1 - c.p0),
            10.0 * (c.p0 + c.p2 - 2.0 * c.p1),
            10.0 * (3.0 * c.p1 - c.p0 + c.p3 - 3.0 * c.p2),
            5.0 * (c.p0 - 4.0 * c.p1 + 6.0 * c.p2 - 4.0 * c.p3 + c.p4),
            5.0 * (c.p1 - 2.0 * c.p2 + 2.0 * c.p3 - c.p4) - c.p0 + c.p5)
  }

  /** f(t) by Horner's rule, as the source evaluates it. */
  function Eval(q: Quintic, t: real): real {
    q.b0 + t * (q.a1 + t * (q.a2 + t * (q.a3 + t * (q.a4 + t * q.a5))))
  }

  /** df(t), as the source evaluates it. */
  function EvalD(q: Quintic, t: real): real {
    q.a1 + t * (2.0 * q.a2 + t * (3.0 * q.a3 + t * (4.0 * q.a4 + 5.0 * q.a5 * t)))
  }

  /** The segment of one coordinate: it starts at bs, ends at be, and leaves
      and enters along the tangents scaled by 5 lambda. */
  function Segment(bs: real, ts: real, be: real, te: real, lambdaS: real, lambdaE: real): (q: Quintic)
  {
    PowerForm(Controls(bs, ts, be, te, lambdaS, lambdaE))
  }

  /** The segment starts at bs and ends at be, leaving and arriving along
      the tangents scaled by 5 lambda. */
  lemma SegmentEnds(bs: real, ts: real, be: real, te: real, lambdaS: real, lambdaE: real)
    ensures var q := Segment(bs, ts, be, te, lambdaS, lambdaE);
      Eval(q, 0.0) == bs && Eval(q, 1.0) == be &&
      EvalD(q, 0.0) == 5.0 * lambdaS * ts && EvalD(q, 1.0) == 5.0 * lambdaE * te
  {
  }

  /** The Bernstein form of a quintic Bezier curve. */
  function Bernstein(c: ControlPolygon, t: real): real {
    var s := 1.0 - t;
    s * s * s * s * s * c.p0 + 5.0 * s * s * s * s * t * c.p1 + 10.0 * s * s * s * t * t * c.p2
      + 10.0 * s * s * t * t * t * c.p3 + 5.0 * s * t * t * t * t * c.p4 + t * t * t * t * t * c.p5
  }

  /** The power form of the source is the Bezier curve of its control polygon. */
  lemma PowerFormIsBernstein(c: ControlPolygon, t: real)
    ensures Eval(PowerForm(c), t) == Bernstein(c, t)
  {
  }

  /** Negating every control point negates the curve. */
  lemma BernsteinNegated(c: ControlPolygon, t: real)
    ensures Bernstein(ControlPolygon(-c.p0, -c.p1, -c.p2, -c.p3, -c.p4, -c.p5), t) == -Bernstein(c, t)
  {
    var s := 1.0 - t;
    var w0, w1, w2 := s * s * s * s * s, 5.0 * s * s * s * s * t, 10.0 * s * s * s * t * t;
    var w3, w4, w5 := 10.0 * s * s * t * t * t, 5.0 * s * t * t * t * t, t * t * t * t * t;
    assert Bernstein(c, t) == w0 * c.p0 + w1 * c.p1 + w2 * c.p2 + w3 * c.p3 + w4 * c.p4 + w5 * c.p5;
  }

  /** A segment between negated end points with negated tangents, and the
      same shape parameters, is the point reflection of the original. */
  lemma SegmentNegated(bs: real, ts: real, be: real, te: real, lambdaS: real, lambdaE: real, t: real)
    ensures Bernstein(Controls(-bs, -ts, -be, -te, lambdaS, lambdaE), t)
         == -Bernstein(Controls(bs, ts, be, te, lambdaS, lambdaE), t)
  {
    var c := Controls(bs, ts, be, te, lambdaS, lambdaE);
    assert Controls(-bs, -ts, -be, -te, lambdaS, lambdaE)
        == ControlPolygon(-c.p0, -c.p1, -c.p2, -c.p3, -c.p4, -c.p5);
    BernsteinNegated(c, t);
  }

  // ---------------------------------------------------------------------
  // Polynomials as coefficient lists, and their formal derivative

  /** cs[0] + cs[1] t + cs[2] t^2 + ... */
  function EvalPoly(cs: seq<real>, t: real): real {
    if cs == [] then 0.0 else cs[0] + t * EvalPoly(cs[1..], t)
  }

  /** The formal derivative: coefficient k of the result is (k+1) cs[k+1]. */
  function Derivative(cs: seq<real>): (d: seq<real>)
    ensures |d| == if |cs| == 0 then 0 else |cs| - 1
  {
    if |cs| <= 1 then [] else seq(|cs| - 1, k requires 0 <= k < |cs| - 1 => (k + 1) as real * cs[k + 1])
  }

  /** The divided difference (f(s) - f(t)) / (s - t) as a polynomial in s and t. */
  function DiffQuot(cs: seq<real>, s: real, t: real): real {
    if cs == [] then 0.0 else EvalPoly(cs[1..], s) + t * DiffQuot(cs[1..], s, t)
  }

  lemma FactorStep(s: real, t: real, ps: real, pt: real, dq: real)
    requires ps - pt == (s - t) * dq
    ensures s * ps - t * pt == (s - t) * (ps + t * dq)
  {
  }

  /** f(s) - f(t) == (s - t) * DiffQuot(f, s, t) */
  lemma {:induction false} DiffQuotFactor(cs: seq<real>, s: real, t: real)
    ensures EvalPoly(cs, s) - EvalPoly(cs, t) == (s - t) * DiffQuot(cs, s, t)
  {
    if cs != [] {
      DiffQuotFactor(cs[1..], s, t);
      FactorStep(s, t, EvalPoly(cs[1..], s), EvalPoly(cs[1..], t), DiffQuot(cs[1..], s, t));
    }
  }

  lemma {:induction false} EvalPolyAdd(a: seq<real>, b: seq<real>, t: real)
    requires |a| == |b|
    ensures EvalPoly(Add(a, b), t) == EvalPoly(a, t) + EvalPoly(b, t)
  {
    if a != [] {
      assert Add(a, b)[1..] == Add(a[1..], b[1..]);
      EvalPolyAdd(a[1..], b[1..], t);
    }
  }

  /** The product rule on coefficient lists: (c0 + t p(t))' = p(t) + t p'(t). */
  lemma DerivativeStep(cs: seq<real>)
    requires |cs| >= 2
    ensures Derivative(cs) == Add(cs[1..], [0.0] + Derivative(cs[1..]))
  {
    var rest := cs[1..];
    var lhs := Derivative(cs);
    var rhs := Add(rest, [0.0] + Derivative(rest));
    forall k | 0 <= k < |lhs| ensures lhs[k] == rhs[k] {
      if k > 0 {
        assert ([0.0] + Derivative(rest))[k] == Derivative(rest)[k - 1];
        assert Derivative(rest)[k - 1] == (k as real) * rest[k];
      }
    }
  }

  /** At s == t the divided difference is the formal derivative: f'(t). */
  lemma {:induction false} DiffQuotDiagonal(cs: seq<real>, t: real)
    ensures DiffQuot(cs, t, t) == EvalPoly(Derivative(cs), t)
  {
    if |cs| >= 2 {
      var rest := cs[1..];
      DiffQuotDiagonal(rest, t);
      DerivativeStep(cs);
      EvalPolyAdd(rest, [0.0] + Derivative(rest), t);
      assert ([0.0] + Derivative(rest))[1..] == Derivative(rest);
    } else if |cs| == 1 {
      assert cs[1..] == [];
    }
  }

  function Coefficients(q: Quintic): seq<real> {
    [q.b0, q.a1, q.a2, q.a3, q.a4, q.a5]
  }

  lemma EvalPoly6(c0: real, c1: real, c2: real, c3: real, c4: real, c5: real, t: real)
    ensures EvalPoly([c0, c1, c2, c3, c4, c5], t) == c0 + t * (c1 + t * (c2 + t * (c3 + t * (c4 + t * c5))))
  {
    EvalPoly5(c1, c2, c3, c4, c5, t);
    assert [c0, c1, c2, c3, c4, c5][1..] == [c1, c2, c3, c4, c5];
  }

  lemma EvalPoly5(c0: real, c1: real, c2: real, c3: real, c4: real, t: real)
    ensures EvalPoly([c0, c1, c2, c3, c4], t) == c0 + t * (c1 + t * (c2 + t * (c3 + t * c4)))
  {
    assert EvalPoly([c4], t) == c4 by {
      assert [c4][1..] == [];
    }
    assert EvalPoly([c3, c4], t) == c3 + t * c4 by {
      assert [c3, c4][1..] == [c4];
    }
    assert EvalPoly([c2, c3, c4], t) == c2 + t * (c3 + t * c4) by {
      assert [c2, c3, c4][1..] == [c3, c4];
    }
    assert EvalPoly([c1, c2, c3, c4], t) == c1 + t * (c2 + t * (c3 + t * c4)) by {
      assert [c1, c2, c3, c4][1..] == [c2, c3, c4];
    }
    assert [c0, c1, c2, c3, c4][1..] == [c1, c2, c3, c4];
  }

  lemma EvalIsPoly(q: Quintic, t: real)
    ensures Eval(q, t) == EvalPoly(Coefficients(q), t)
  {
    EvalPoly6(q.b0, q.a1, q.a2, q.a3, q.a4, q.a5, t);
  }

  /** df of the source is the derivative of f: it is the formal derivative of
      the coefficient list, and it is the divided difference D(t, t) of
      EvalDividedDifference. */
  lemma EvalDIsDerivative(q: Quintic, t: real)
    ensures EvalD(q, t) == EvalPoly(Derivative(Coefficients(q)), t)
    ensures DiffQuot(Coefficients(q), t, t) == EvalD(q, t)
  {
    var cs := Coefficients(q);
    var d := Derivative(cs);
    assert d[0] == 1.0 * cs[1] && d[1] == 2.0 * cs[2] && d[2] == 3.0 * cs[3];
    assert d[3] == 4.0 * cs[4] && d[4] == 5.0 * cs[5];
    assert d == [1.0 * q.a1, 2.0 * q.a2, 3.0 * q.a3, 4.0 * q.a4, 5.0 * q.a5];
    EvalPoly5(1.0 * q.a1, 2.0 * q.a2, 3.0 * q.a3, 4.0 * q.a4, 5.0 * q.a5, t);
    DiffQuotDiagonal(cs, t);
  }

  /** f(s) - f(t) == (s - t) * D(s, t). */
  lemma EvalDividedDifference(q: Quintic, s: real, t: real)
    ensures Eval(q, s) - Eval(q, t) == (s - t) * DiffQuot(Coefficients(q), s, t)
  {
    EvalIsPoly(q, s);
    EvalIsPoly(q, t);
    DiffQuotFactor(Coefficients(q), s, t);
  }

  // ---------------------------------------------------------------------
  // The vector operations

  /** np.linspace(a, b, n): start + k * step with step = (b - a) / (n - 1). */
  function Linspace(a: real, b: real, n: nat): (r: seq<real>)
    ensures |r| == n
  {
    var step := (b - a) / (if n > 1 then (n - 1) as real else 1.0);
    seq(n, k requires 0 <= k < n => a + (k as real) * step)
  }

  /** The samples run from a to b in n - 1 equal steps. */
  lemma LinspaceSpacing(a: real, b: real, n: nat)
    ensures var r := Linspace(a, b, n);
      (n > 0 ==> r[0] == a) &&
      (n > 1 ==> r[n - 1] == b) &&
      (n > 1 ==> forall k :: 0 <= k < n - 1 ==> r[k + 1] - r[k] == (b - a) / ((n - 1) as real))
  {
    if n > 1 {
      var r, d := Linspace(a, b, n), (n - 1) as real;
      var step := (b - a) / d;
      assert r[n - 1] == a + d * step;
      assert d * step == b - a;
      forall k | 0 <= k < n - 1 ensures r[k + 1] - r[k] == step {
        assert r[k + 1] == a + (k as real + 1.0) * step;
        assert (k as real + 1.0) * step == (k as real) * step + step;
      }
    }
  }

  /** All coordinates evaluated at all parameters, by Horner's rule. */
  function EvalAll(bs: Vec, ts: Vec, be: Vec, te: Vec, lambdaS: real, lambdaE: real, vTT: seq<real>): (r: seq<seq<real>>)
    requires |bs| == |ts| == |be| == |te|
    ensures |r| == |bs|
    ensures forall c :: 0 <= c < |bs| ==> |r[c]| == |vTT|
  {
    seq(|bs|, c requires 0 <= c < |bs| =>
      seq(|vTT|, k requires 0 <= k < |vTT| => Eval(Segment(bs[c], ts[c], be[c], te[c], lambdaS, lambdaE), vTT[k])))
  }

  /** Entry [c][k] is the Bezier curve of coordinate c at parameter vTT[k]. */
  lemma EvalAllIsBernstein(bs: Vec, ts: Vec, be: Vec, te: Vec, lambdaS: real, lambdaE: real, vTT: seq<real>)
    requires |bs| == |ts| == |be| == |te|
    ensures var r := EvalAll(bs, ts, be, te, lambdaS, lambdaE, vTT);
      forall c, k :: 0 <= c < |bs| && 0 <= k < |vTT| ==>
        r[c][k] == Bernstein(Controls(bs[c], ts[c], be[c], te[c], lambdaS, lambdaE), vTT[k])
  {
    var r := EvalAll(bs, ts, be, te, lambdaS, lambdaE, vTT);
    forall c, k | 0 <= c < |bs| && 0 <= k < |vTT|
      ensures r[c][k] == Bernstein(Controls(bs[c], ts[c], be[c], te[c], lambdaS, lambdaE), vTT[k])
    {
      PowerFormIsBernstein(Controls(bs[c], ts[c], be[c], te[c], lambdaS, lambdaE), vTT[k]);
    }
  }

  /** The parameters of curveSeg3: 101 over [0, 1] when plotting, nTT over
      [0.2, 0.8] otherwise. */
  function CurveParams(plot: bool, nTT: nat): (vTT: seq<real>)
    ensures |vTT| == if plot then 101 else nTT
  {
    if plot then Linspace(0.0, 1.0, 101) else Linspace(0.2, 0.8, nTT)
  }

  /** curveSeg3: the segment with separate start and end shape parameters,
      one row per coordinate and one column per parameter. */
  function CurveSeg3(bs: Vec, ts: Vec, be: Vec, te: Vec, lambdaS: real, lambdaE: real,
                     plot: bool, nTT: nat): (r: seq<seq<real>>)
    requires |bs| == |ts| == |be| == |te|
    ensures |r| == |bs| && forall c :: 0 <= c < |bs| ==> |r[c]| == |CurveParams(plot, nTT)|
  {
    EvalAll(bs, ts, be, te, lambdaS, lambdaE, CurveParams(plot, nTT))
  }

  /** Every sample of curveSeg3 lies on the Bezier curve of its control
      polygon; a plotted segment starts at Bs and ends at Be. */
  lemma CurveSeg3Points(bs: Vec, ts: Vec, be: Vec, te: Vec, lambdaS: real, lambdaE: real, plot: bool, nTT: nat)
    requires |bs| == |ts| == |be| == |te|
    ensures var r, vTT := CurveSeg3(bs, ts, be, te, lambdaS, lambdaE, plot, nTT), CurveParams(plot, nTT);
      forall c, k :: 0 <= c < |bs| && 0 <= k < |vTT| ==>
        r[c][k] == Bernstein(Controls(bs[c], ts[c], be[c], te[c], lambdaS, lambdaE), vTT[k])
    ensures plot ==> var r := CurveSeg3(bs, ts, be, te, lambdaS, lambdaE, plot, nTT);
      forall c :: 0 <= c < |bs| ==> r[c][0] == bs[c] && r[c][100] == be[c]
  {
    EvalAllIsBernstein(bs, ts, be, te, lambdaS, lambdaE, CurveParams(plot, nTT));
    if plot {
      LinspaceSpacing(0.0, 1.0, 101);
    }
  }

  /** curveSegF: the segment with one shape parameter at the given parameters. */
  function CurveSegF(bs: Vec, ts: Vec, be: Vec, te: Vec, lambda: real, vTT: seq<real>): (r: seq<seq<real>>)
    requires |bs| == |ts| == |be| == |te|
    ensures |r| == |bs|
    ensures forall c, k :: 0 <= c < |bs| && 0 <= k < |vTT| ==>
              |r[c]| == |vTT| && r[c][k] == Bernstein(Controls(bs[c], ts[c], be[c], te[c], lambda, lambda), vTT[k])
  {
    EvalAllIsBernstein(bs, ts, be, te, lambda, lambda, vTT);
    EvalAll(bs, ts, be, te, lambda, lambda, vTT)
  }

  datatype ValueAndSlope = ValueAndSlope(f: seq<seq<real>>, df: seq<seq<real>>)

  /** curveSegFDF: values and derivatives; the derivative rows are the formal
      derivative of each coordinate's polynomial. */
  function CurveSegFDF(bs: Vec, ts: Vec, be: Vec, te: Vec, lambda: real, vTT: seq<real>): (r: ValueAndSlope)
    requires |bs| == |ts| == |be| == |te|
    ensures |r.f| == |r.df| == |bs|
    ensures forall c, k :: 0 <= c < |bs| && 0 <= k < |vTT| ==>
              && |r.f[c]| == |r.df[c]| == |vTT|
              && r.f[c][k] == Bernstein(Controls(bs[c], ts[c], be[c], te[c], lambda, lambda), vTT[k])
              && r.df[c][k] == EvalPoly(Derivative(Coefficients(Segment(bs[c], ts[c], be[c], te[c], lambda, lambda))), vTT[k])
  {
    var df := seq(|bs|, c requires 0 <= c < |bs| =>
                seq(|vTT|, k requires 0 <= k < |vTT| => EvalD(Segment(bs[c], ts[c], be[c], te[c], lambda, lambda), vTT[k])));
    assert forall c, k :: 0 <= c < |bs| && 0 <= k < |vTT| ==>
              df[c][k] == EvalPoly(Derivative(Coefficients(Segment(bs[c], ts[c], be[c], te[c], lambda, lambda))), vTT[k]) by {
      forall c, k | 0 <= c < |bs| && 0 <= k < |vTT|
        ensures df[c][k] == EvalPoly(Derivative(Coefficients(Segment(bs[c], ts[c], be[c], te[c], lambda, lambda))), vTT[k])
      {
        EvalDIsDerivative(Segment(bs[c], ts[c], be[c], te[c], lambda, lambda), vTT[k]);
      }
    }
    EvalAllIsBernstein(bs, ts, be, te, lambda, lambda, vTT);
    ValueAndSlope(EvalAll(bs, ts, be, te, lambda, lambda, vTT), df)
  }

  // ---------------------------------------------------------------------
  // curveSegTheta: inverting one coordinate by damped Newton steps

  const EpsF: real := 0.000000001
  const EpsDF: real := 0.000000000001
  const MaxSteps: nat := 500

  function Abs(x: real): real {
    if x < 0.0 then -x else x
  }

  datatype NewtonResult = NewtonResult(t: real, steps: nat)

  /** The inner while loop of curveSegTheta from parameter t after nn steps:
      stop when |f(t) - theta| <= 1e-9, when |df(t)| < 1e-12, or after 500
      steps; otherwise step t := t - 0.75 (f(t) - theta) / df(t). */
  function Newton(q: Quintic, theta: real, t: real, nn: nat): (r: NewtonResult)
    requires nn <= MaxSteps
    ensures nn <= r.steps <= MaxSteps
    ensures r.steps < MaxSteps ==>
              Abs(Eval(q, r.t) - theta) <= EpsF || Abs(EvalD(q, r.t)) < EpsDF
    ensures Abs(Eval(q, t) - theta) <= EpsF && nn < MaxSteps ==> r == NewtonResult(t, nn)
    decreases MaxSteps - nn
  {
    if nn >= MaxSteps then NewtonResult(t, nn)
    else
      var f := Eval(q, t) - theta;
      if Abs(f) <= EpsF then NewtonResult(t, nn)
      else
        var df := EvalD(q, t);
        if Abs(df) < EpsDF then NewtonResult(t, nn)
        else Newton(q, theta, t - 0.75 * f / df, nn + 1)
  }

  /** The outer loop: one parameter per target, each search starting where the
      previous one stopped. */
  function InvertAll(q: Quintic, thetas: seq<real>, t0: real): (r: seq<real>)
    ensures |r| == |thetas|
  {
    if thetas == [] then []
    else
      var t := Newton(q, thetas[0], t0, 0).t;
      [t] + InvertAll(q, thetas[1..], t)
  }

  /** Where the search for target k starts: t0 for the first, the previous
      result afterwards. */
  function StartOf(q: Quintic, thetas: seq<real>, t0: real, k: nat): real
    requires k < |thetas|
  {
    if k == 0 then t0 else InvertAll(q, thetas, t0)[k - 1]
  }

  /** The k-th result is the Newton search for the k-th target started at the
      previous result, so it has converged, met a flat derivative, or used up
      the 500 steps. */
  lemma {:induction false} InvertAllCarry(q: Quintic, thetas: seq<real>, t0: real, k: nat)
    requires k < |thetas|
    ensures InvertAll(q, thetas, t0)[k] == Newton(q, thetas[k], StartOf(q, thetas, t0, k), 0).t
  {
    if k > 0 {
      var t := Newton(q, thetas[0], t0, 0).t;
      InvertAllCarry(q, thetas[1..], t, k - 1);
      assert InvertAll(q, thetas, t0) == [t] + InvertAll(q, thetas[1..], t);
      if k > 1 {
        assert StartOf(q, thetas[1..], t, k - 1) == InvertAll(q, thetas[1..], t)[k - 2];
      }
    }
  }

  /** The inner while loop of curveSegTheta: damped Newton steps from t0
      towards the target theta. */
  method Invert(q: Quintic, theta: real, t0: real) returns (t: real)
    ensures t == Newton(q, theta, t0, 0).t
  {
    t := t0;
    var nn := 0;
    while nn < 500
      invariant 0 <= nn <= MaxSteps
      invariant Newton(q, theta, t, nn) == Newton(q, theta, t0, 0)
    {
      var f := Eval(q, t) - theta;
      if Abs(f) <= EpsF {
        break;
      }
      var df := EvalD(q, t);
      if Abs(df) < EpsDF {
        break;
      }
      t := t - 0.75 * f / df;
      nn := nn + 1;
    }
  }

  /** curveSegTheta: the parameters at which the curve of one coordinate
      reaches the target values vTheta, each search starting where the
      previous one stopped. */
  method CurveSegTheta(vTheta: seq<real>, bs: real, ts: real, be: real, te: real, lambda: real)
    returns (vtt: seq<real>)
    ensures vtt == InvertAll(Segment(bs, ts, be, te, lambda, lambda), vTheta, 0.0)
  {
    var q := Segment(bs, ts, be, te, lambda, lambda);
    vtt := [];
    var t := 0.0;
    for i := 0 to |vTheta|
      invariant vtt + InvertAll(q, vTheta[i..], t) == InvertAll(q, vTheta, 0.0)
    {
      assert vTheta[i..] == [vTheta[i]] + vTheta[i + 1..];
      t := Invert(q, vTheta[i], t);
      vtt := vtt + [t];
    }
    assert vTheta[|vTheta|..] == [];
  }
}
