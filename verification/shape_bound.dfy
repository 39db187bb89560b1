/** The admissible shape parameters of the biaxial proto-model: the
    closed-form bound of one edge of a patch (lambdaMax), the running
    six-entry minimum over all patch edges, the mirrored compression side
    of a symmetric material and the final layout of the six bounds. */
module ShapeBound {
  import opened Vectors
  import opened Space

  /** A float64 quotient: division by zero gives an infinity or NaN. */
  datatype Ratio = Finite(v: real) | PlusInf | MinusInf | NaN

  function Divide(n: real, d: real): (r: Ratio)
    ensures d != 0.0 ==> r == Finite(n / d)
    ensures d == 0.0 ==> (r.PlusInf? <==> n > 0.0) && (r.MinusInf? <==> n < 0.0) && (r.NaN? <==> n == 0.0)
  {
    if d != 0.0 then Finite(n / d)
    else if n > 0.0 then PlusInf
    else if n < 0.0 then MinusInf
    else NaN
  }

  /** The test `x > 0`: true for +inf, false for -inf and NaN. */
  predicate Positive(r: Ratio)
  {
    r.PlusInf? || (r.Finite? && r.v > 0.0)
  }

  /** Python's min(x, r) for a positive bound r: an infinite bound leaves x. */
  function MinWith(x: real, r: Ratio): (m: real)
    requires Positive(r)
    ensures m <= x
    ensures r.Finite? ==> m <= r.v && (m == x || m == r.v)
    ensures r.PlusInf? ==> m == x
  {
    if r.PlusInf? then x else if r.v < x then r.v else x
  }

  /** ddet = 1 - m^2 for m the cosine between two unit tangents. */
  function Det(m: real): real
  {
    1.0 - m * m
  }

  /** The pair (t1, t2) of lambdaMax for the edge from point p1 with tangent
      t1 to point p2 with tangent t2. */
  function LambdaMax(p1: V3, t1: V3, p2: V3, t2: V3): (Ratio, Ratio)
  {
    var b := Sub3(p2, p1);
    var m := Dot3(t1, t2);
    var d := Det(m);
    (Divide(0.5 * Dot3(b, Sub3(t1, Scale3(m, t2))), d),
     Divide(0.5 * Dot3(b, Sub3(t2, Scale3(m, t1))), d))
  }

  lemma NotParallel(m: real)
    requires m != 1.0 && m != -1.0
    ensures Det(m) != 0.0
  {
    assert 1.0 - m * m == (1.0 - m) * (1.0 + m);
  }

  /** The bounds in terms of b . T1, b . T2 and m = T1 . T2. */
  function ClosedPair(a1: real, a2: real, m: real): (Ratio, Ratio)
  {
    (Divide(0.5 * (a1 - m * a2), Det(m)), Divide(0.5 * (a2 - m * a1), Det(m)))
  }

  lemma ClosedPairOf(a1: real, a2: real, m: real, n1: real, n2: real)
    requires n1 == a1 - m * a2 && n2 == a2 - m * a1
    ensures ClosedPair(a1, a2, m) == (Divide(0.5 * n1, Det(m)), Divide(0.5 * n2, Det(m)))
  {
  }

  lemma NumeratorExpanded(b: V3, t1: V3, t2: V3, m: real)
    ensures Dot3(b, Sub3(t1, Scale3(m, t2))) == Dot3(b, t1) - m * Dot3(b, t2)
  {
  }

  /** Each numerator of lambdaMax is b . T1 - m (b . T2), resp. with the
      tangents exchanged. */
  lemma LambdaMaxExpanded(p1: V3, t1: V3, p2: V3, t2: V3)
    ensures LambdaMax(p1, t1, p2, t2)
         == ClosedPair(Dot3(Sub3(p2, p1), t1), Dot3(Sub3(p2, p1), t2), Dot3(t1, t2))
  {
    var b := Sub3(p2, p1);
    var m := Dot3(t1, t2);
    var a1, a2 := Dot3(b, t1), Dot3(b, t2);
    var n1, n2 := Dot3(b, Sub3(t1, Scale3(m, t2))), Dot3(b, Sub3(t2, Scale3(m, t1)));
    NumeratorExpanded(b, t1, t2, m);
    NumeratorExpanded(b, t2, t1, m);
    ClosedPairOf(a1, a2, m, n1, n2);
  }

  lemma NormalEquations(a1: real, a2: real, m: real, l1: real, l2: real)
    requires Det(m) != 0.0
    requires l1 == 0.5 * (a1 - m * a2) / Det(m)
    requires l2 == 0.5 * (a2 - m * a1) / Det(m)
    ensures a1 - 2.0 * l1 - 2.0 * l2 * m == 0.0
    ensures a2 - 2.0 * l2 - 2.0 * l1 * m == 0.0
  {
    var d := Det(m);
    assert 2.0 * l1 * d == a1 - m * a2;
    assert 2.0 * l2 * d == a2 - m * a1;
    assert (a1 - 2.0 * l1 - 2.0 * l2 * m) * d == a1 * d - (a1 - m * a2) - m * (a2 - m * a1);
  }

  /** The normal equations of the closest points of two tangent lines. */
  lemma ClosedPairNormal(a1: real, a2: real, m: real)
    requires m != 1.0 && m != -1.0
    ensures ClosedPair(a1, a2, m).0.Finite? && ClosedPair(a1, a2, m).1.Finite?
    ensures var l1, l2 := ClosedPair(a1, a2, m).0.v, ClosedPair(a1, a2, m).1.v;
      a1 - 2.0 * l1 - 2.0 * l2 * m == 0.0 && a2 - 2.0 * l2 - 2.0 * l1 * m == 0.0
  {
    NotParallel(m);
    NormalEquations(a1, a2, m, 0.5 * (a1 - m * a2) / Det(m), 0.5 * (a2 - m * a1) / Det(m));
  }

  /** The gap between a point on each tangent line, against a vector w. */
  lemma DotOfGap(p1: V3, t1: V3, p2: V3, t2: V3, s: real, u: real, w: V3)
    ensures Dot3(Sub3(Sub3(p2, Scale3(u, t2)), Add3(p1, Scale3(s, t1))), w)
         == Dot3(Sub3(p2, p1), w) - u * Dot3(t2, w) - s * Dot3(t1, w)
  {
  }

  /** The gap is orthogonal to w as soon as its expansion along w vanishes. */
  lemma GapAgainst(p1: V3, t1: V3, p2: V3, t2: V3, s: real, u: real, w: V3, bw: real, t2w: real, t1w: real)
    requires bw == Dot3(Sub3(p2, p1), w) && t2w == Dot3(t2, w) && t1w == Dot3(t1, w)
    requires bw - u * t2w - s * t1w == 0.0
    ensures Dot3(Sub3(Sub3(p2, Scale3(u, t2)), Add3(p1, Scale3(s, t1))), w) == 0.0
  {
    DotOfGap(p1, t1, p2, t2, s, u, w);
    assert u * Dot3(t2, w) == u * t2w && s * Dot3(t1, w) == s * t1w;
  }

  lemma DotSymmetric(a: V3, b: V3)
    ensures Dot3(a, b) == Dot3(b, a)
  {
  }

  /** Two points on the tangent lines whose parameters satisfy the normal
      equations are joined by a gap orthogonal to both unit tangents. */
  lemma GapOrthogonal(p1: V3, t1: V3, p2: V3, t2: V3, l1: real, l2: real)
    requires Dot3(t1, t1) == 1.0 && Dot3(t2, t2) == 1.0
    requires var b, m := Sub3(p2, p1), Dot3(t1, t2);
      Dot3(b, t1) - 2.0 * l1 - 2.0 * l2 * m == 0.0 && Dot3(b, t2) - 2.0 * l2 - 2.0 * l1 * m == 0.0
    ensures var gap := Sub3(Sub3(p2, Scale3(2.0 * l2, t2)), Add3(p1, Scale3(2.0 * l1, t1)));
      Dot3(gap, t1) == 0.0 && Dot3(gap, t2) == 0.0
  {
    var b, m := Sub3(p2, p1), Dot3(t1, t2);
    var gap := Sub3(Sub3(p2, Scale3(2.0 * l2, t2)), Add3(p1, Scale3(2.0 * l1, t1)));
    DotSymmetric(t2, t1);
    assert Dot3(gap, t1) == 0.0 by {
      assert Dot3(b, t1) - (2.0 * l2) * m - (2.0 * l1) * 1.0 == 0.0;
      GapAgainst(p1, t1, p2, t2, 2.0 * l1, 2.0 * l2, t1, Dot3(b, t1), m, 1.0);
    }
    assert Dot3(gap, t2) == 0.0 by {
      assert Dot3(b, t2) - (2.0 * l2) * 1.0 - (2.0 * l1) * m == 0.0;
      GapAgainst(p1, t1, p2, t2, 2.0 * l1, 2.0 * l2, t2, Dot3(b, t2), 1.0, m);
    }
  }

  /** For unit tangents that are not parallel, X1 = p1 + 2 t1 T1 and
      X2 = p2 - 2 t2 T2 are the closest points of the two tangent lines: the
      gap X2 - X1 is orthogonal to both tangents.  Each bound is half the
      distance from the edge's end point to that point along its tangent. */
  lemma LambdaMaxClosestPoints(p1: V3, t1: V3, p2: V3, t2: V3)
    requires Dot3(t1, t1) == 1.0 && Dot3(t2, t2) == 1.0
    requires Dot3(t1, t2) != 1.0 && Dot3(t1, t2) != -1.0
    ensures LambdaMax(p1, t1, p2, t2).0.Finite? && LambdaMax(p1, t1, p2, t2).1.Finite? &&
      var l1 := LambdaMax(p1, t1, p2, t2).0.v; var l2 := LambdaMax(p1, t1, p2, t2).1.v;
      var gap := Sub3(Sub3(p2, Scale3(2.0 * l2, t2)), Add3(p1, Scale3(2.0 * l1, t1)));
      Dot3(gap, t1) == 0.0 && Dot3(gap, t2) == 0.0
  {
    var b := Sub3(p2, p1);
    var m := Dot3(t1, t2);
    var a1, a2 := Dot3(b, t1), Dot3(b, t2);
    LambdaMaxExpanded(p1, t1, p2, t2);
    ClosedPairNormal(a1, a2, m);
    GapOrthogonal(p1, t1, p2, t2, ClosedPair(a1, a2, m).0.v, ClosedPair(a1, a2, m).1.v);
  }

  /** Negating both end points and both tangents leaves the bounds unchanged,
      which is why a mirrored compression side repeats the tension side's
      bounds. */
  lemma LambdaMaxNegated(p1: V3, t1: V3, p2: V3, t2: V3)
    ensures LambdaMax(Neg3(p1), Neg3(t1), Neg3(p2), Neg3(t2)) == LambdaMax(p1, t1, p2, t2)
  {
    LambdaMaxExpanded(p1, t1, p2, t2);
    LambdaMaxExpanded(Neg3(p1), Neg3(t1), Neg3(p2), Neg3(t2));
    var b, nb := Sub3(p2, p1), Sub3(Neg3(p2), Neg3(p1));
    assert Dot3(nb, Neg3(t1)) == Dot3(b, t1);
    assert Dot3(nb, Neg3(t2)) == Dot3(b, t2);
    assert Dot3(Neg3(t1), Neg3(t2)) == Dot3(t1, t2);
  }

  /** Python's built-in min on two reals. */
  function Min(a: real, b: real): (m: real)
    ensures m <= a && m <= b && (m == a || m == b)
  {
    if b < a then b else a
  }

  lemma MinWithCommute(x: real, a: Ratio, b: Ratio)
    requires Positive(a) && Positive(b)
    ensures MinWith(MinWith(x, a), b) == MinWith(MinWith(x, b), a)
  {
  }

  // ---------------------------------------------------------------------
  // Patches and the running minimum over their edges

  /** The six vertices of one patch of the proto-model: column k holds a
      point of the yield surface and the tangent of the plane section there.
      Columns 0..2 lie on the tension side, 3..5 on the compression side. */
  datatype PatchData = PatchData(points: seq<V3>, tangents: seq<V3>)

  predicate WellFormed(p: PatchData)
  {
    |p.points| == 6 && |p.tangents| == 6
  }

  predicate AllWellFormed(ps: seq<PatchData>)
  {
    forall j :: 0 <= j < |ps| ==> WellFormed(ps[j])
  }

  /** Vertex k + 1 around the patch: edge 5 wraps to vertex 0. */
  function Next(k: nat): nat
  {
    (k + 1) % 6
  }

  /** Vertex k - 1 around the patch. */
  function Prev(k: nat): nat
  {
    (k + 5) % 6
  }

  /** lambdaMax of edge k, from vertex k to vertex k + 1. */
  function EdgeBounds(p: PatchData, k: nat): (Ratio, Ratio)
    requires WellFormed(p) && k < 6
  {
    LambdaMax(p.points[k], p.tangents[k], p.points[Next(k)], p.tangents[Next(k)])
  }

  /** The six edge bounds of a patch, edge k at index k. */
  type Edges = seq<(Ratio, Ratio)>

  function PatchEdges(p: PatchData): (es: Edges)
    requires WellFormed(p)
  {
    seq(6, k requires 0 <= k < 6 => EdgeBounds(p, k))
  }

  function EdgeList(ps: seq<PatchData>): (ess: seq<Edges>)
    requires AllWellFormed(ps)
  {
    seq(|ps|, j requires 0 <= j < |ps| => PatchEdges(ps[j]))
  }

  predicate Accepted(es: Edges)
    requires |es| == 6
  {
    forall k :: 0 <= k < 6 ==> Positive(es[k].0) && Positive(es[k].1)
  }

  predicate AllSix(ess: seq<Edges>)
  {
    forall j :: 0 <= j < |ess| ==> |ess[j]| == 6
  }

  /** One edge of the fold: when both bounds are positive the running
      minimum takes the first at vertex k and the second at vertex k + 1;
      otherwise the computation aborts. */
  function ApplyEdge(v: seq<real>, k: nat, lr: (Ratio, Ratio)): (r: Option<seq<real>>)
    requires |v| == 6 && k < 6
    ensures r.Some? <==> Positive(lr.0) && Positive(lr.1)
    ensures r.Some? ==> (|r.value| == 6 &&
      r.value[k] == MinWith(v[k], lr.0) && r.value[Next(k)] == MinWith(v[Next(k)], lr.1) &&
      forall i :: 0 <= i < 6 && i != k && i != Next(k) ==> r.value[i] == v[i])
  {
    if Positive(lr.0) && Positive(lr.1) then
      Some(v[k := MinWith(v[k], lr.0)][Next(k) := MinWith(v[Next(k)], lr.1)])
    else
      None
  }

  /** Edges k..4 and the wrap-around edge 5 of one patch, in order. */
  function FoldEdges(v: seq<real>, es: Edges, k: nat): (r: Option<seq<real>>)
    requires |v| == 6 && |es| == 6 && k <= 6
    ensures r.Some? ==> |r.value| == 6
    decreases 6 - k
  {
    if k == 6 then Some(v)
    else match ApplyEdge(v, k, es[k])
      case None => None
      case Some(w) => FoldEdges(w, es, k + 1)
  }

  /** The patches in order, each through FoldEdges. */
  function FoldAll(v: seq<real>, ess: seq<Edges>): (r: Option<seq<real>>)
    requires |v| == 6 && AllSix(ess)
    ensures r.Some? ==> |r.value| == 6
  {
    if ess == [] then Some(v)
    else match FoldAll(v, ess[..|ess| - 1])
      case None => None
      case Some(w) => FoldEdges(w, ess[|ess| - 1], 0)
  }

  function FoldPatches(v: seq<real>, ps: seq<PatchData>): (r: Option<seq<real>>)
    requires |v| == 6 && AllWellFormed(ps)
  {
    FoldAll(v, EdgeList(ps))
  }

  /** The cap every entry starts from. */
  const LambdaCap: real := 1000.0

  function InitialBounds(): (r: seq<real>)
    ensures |r| == 6 && forall i :: 0 <= i < 6 ==> r[i] == LambdaCap
  {
    seq(6, i => LambdaCap)
  }

  /** What one patch does to vertex i: the first bound of edge i and the
      second bound of edge i - 1. */
  function Tighten(x: real, es: Edges, i: nat): real
    requires |es| == 6 && Accepted(es) && i < 6
  {
    assert Positive(es[i].0) && Positive(es[Prev(i)].1);
    MinWith(MinWith(x, es[i].0), es[Prev(i)].1)
  }

  /** The finite bounds one patch gives vertex i. */
  function VertexBounds(es: Edges, i: nat): set<real>
    requires |es| == 6 && i < 6
  {
    (if es[i].0.Finite? then {es[i].0.v} else {}) +
    (if es[Prev(i)].1.Finite? then {es[Prev(i)].1.v} else {})
  }

  lemma TightenBounds(x: real, es: Edges, i: nat)
    requires |es| == 6 && Accepted(es) && i < 6
    ensures Tighten(x, es, i) <= x
    ensures forall b :: b in VertexBounds(es, i) ==> Tighten(x, es, i) <= b
    ensures Tighten(x, es, i) == x || Tighten(x, es, i) in VertexBounds(es, i)
    ensures x > 0.0 ==> Tighten(x, es, i) > 0.0
  {
    assert Positive(es[i].0) && Positive(es[Prev(i)].1);
  }

  lemma {:induction false} FoldEdgesAborts(v: seq<real>, es: Edges, k: nat, bad: nat)
    requires |v| == 6 && |es| == 6 && k <= bad < 6
    requires !(Positive(es[bad].0) && Positive(es[bad].1))
    ensures FoldEdges(v, es, k) == None
    decreases 6 - k
  {
    if k < bad {
      match ApplyEdge(v, k, es[k])
      case None =>
      case Some(w) => FoldEdgesAborts(w, es, k + 1, bad);
    }
  }

  /** One patch in closed form: it aborts exactly when some edge has a
      bound that is not positive, and otherwise tightens every vertex by the
      two edges that meet there. */
  lemma {:induction false} FoldEdgesClosedForm(v: seq<real>, es: Edges)
    requires |v| == 6 && |es| == 6
    ensures FoldEdges(v, es, 0).Some? <==> Accepted(es)
    ensures Accepted(es) ==>
      FoldEdges(v, es, 0) == Some(seq(6, i requires 0 <= i < 6 => Tighten(v[i], es, i)))
  {
    if Accepted(es) {
      assert Positive(es[0].0) && Positive(es[0].1) && Positive(es[1].0) && Positive(es[1].1);
      assert Positive(es[2].0) && Positive(es[2].1) && Positive(es[3].0) && Positive(es[3].1);
      assert Positive(es[4].0) && Positive(es[4].1) && Positive(es[5].0) && Positive(es[5].1);
      var w1 := ApplyEdge(v, 0, es[0]).value;
      var w2 := ApplyEdge(w1, 1, es[1]).value;
      var w3 := ApplyEdge(w2, 2, es[2]).value;
      var w4 := ApplyEdge(w3, 3, es[3]).value;
      var w5 := ApplyEdge(w4, 4, es[4]).value;
      var w6 := ApplyEdge(w5, 5, es[5]).value;
      assert FoldEdges(v, es, 0) == FoldEdges(w1, es, 1);
      assert FoldEdges(w1, es, 1) == FoldEdges(w2, es, 2);
      assert FoldEdges(w2, es, 2) == FoldEdges(w3, es, 3);
      assert FoldEdges(w3, es, 3) == FoldEdges(w4, es, 4);
      assert FoldEdges(w4, es, 4) == FoldEdges(w5, es, 5);
      assert FoldEdges(w5, es, 5) == FoldEdges(w6, es, 6);
      MinWithCommute(v[1], es[0].1, es[1].0);
      MinWithCommute(v[2], es[1].1, es[2].0);
      MinWithCommute(v[3], es[2].1, es[3].0);
      MinWithCommute(v[4], es[3].1, es[4].0);
      MinWithCommute(v[5], es[4].1, es[5].0);
      assert w6[0] == Tighten(v[0], es, 0);
      assert w6[1] == Tighten(v[1], es, 1);
      assert w6[2] == Tighten(v[2], es, 2);
      assert w6[3] == Tighten(v[3], es, 3);
      assert w6[4] == Tighten(v[4], es, 4);
      assert w6[5] == Tighten(v[5], es, 5);
      assert w6 == seq(6, i requires 0 <= i < 6 => Tighten(v[i], es, i));
    } else {
      var bad :| 0 <= bad < 6 && !(Positive(es[bad].0) && Positive(es[bad].1));
      FoldEdgesAborts(v, es, 0, bad);
    }
  }

  lemma FoldEdgesAccepts(v: seq<real>, es: Edges)
    requires |v| == 6 && |es| == 6
    ensures FoldEdges(v, es, 0).Some? <==> Accepted(es)
  {
    FoldEdgesClosedForm(v, es);
  }

  /** The fold over a list of patches aborts exactly when some edge of some
      patch has a bound that is not positive. */
  lemma {:induction false} FoldAllAccepts(v: seq<real>, ess: seq<Edges>)
    requires |v| == 6 && AllSix(ess)
    ensures FoldAll(v, ess).Some? <==> forall j :: 0 <= j < |ess| ==> Accepted(ess[j])
  {
    if ess != [] {
      var init, last := ess[..|ess| - 1], ess[|ess| - 1];
      FoldAllAccepts(v, init);
      assert forall j :: 0 <= j < |init| ==> init[j] == ess[j];
      assert (forall j :: 0 <= j < |ess| ==> Accepted(ess[j])) <==>
        (forall j :: 0 <= j < |init| ==> Accepted(init[j])) && Accepted(last);
      if FoldAll(v, init).Some? {
        FoldEdgesAccepts(FoldAll(v, init).value, last);
      }
    }
  }

  /** w is the running minimum of v against the finite bounds of every
      patch in ess: at most v and every such bound, and equal to one of them. */
  ghost predicate RunningMin(w: seq<real>, v: seq<real>, ess: seq<Edges>)
    requires |w| == 6 && |v| == 6 && AllSix(ess)
  {
    forall i :: 0 <= i < 6 ==>
      w[i] <= v[i] &&
      (forall j, b :: 0 <= j < |ess| && b in VertexBounds(ess[j], i) ==> w[i] <= b) &&
      (w[i] == v[i] || exists j :: 0 <= j < |ess| && w[i] in VertexBounds(ess[j], i))
  }

  lemma TightenStep(u: seq<real>, v: seq<real>, ess: seq<Edges>, i: nat)
    requires |u| == 6 && |v| == 6 && AllSix(ess) && ess != [] && i < 6
    requires Accepted(ess[|ess| - 1])
    requires RunningMin(u, v, ess[..|ess| - 1])
    ensures var w := Tighten(u[i], ess[|ess| - 1], i);
      w <= v[i] &&
      (forall j, b :: 0 <= j < |ess| && b in VertexBounds(ess[j], i) ==> w <= b) &&
      (w == v[i] || exists j :: 0 <= j < |ess| && w in VertexBounds(ess[j], i))
  {
    var init, last := ess[..|ess| - 1], ess[|ess| - 1];
    var w := Tighten(u[i], last, i);
    TightenBounds(u[i], last, i);
    forall j, b | 0 <= j < |ess| && b in VertexBounds(ess[j], i) ensures w <= b {
      if j < |init| { assert ess[j] == init[j]; }
    }
    if w != v[i] {
      if w == u[i] {
        var j :| 0 <= j < |init| && u[i] in VertexBounds(init[j], i);
        assert ess[j] == init[j];
      } else {
        assert w in VertexBounds(ess[|ess| - 1], i);
      }
    }
  }

  /** A completed fold is the running minimum, and keeps positive entries
      positive. */
  lemma {:induction false} FoldAllBounds(v: seq<real>, ess: seq<Edges>)
    requires |v| == 6 && AllSix(ess) && FoldAll(v, ess).Some?
    ensures RunningMin(FoldAll(v, ess).value, v, ess)
    ensures forall i :: 0 <= i < 6 && v[i] > 0.0 ==> FoldAll(v, ess).value[i] > 0.0
  {
    if ess == [] {
    } else {
      var init, last := ess[..|ess| - 1], ess[|ess| - 1];
      var u := FoldAll(v, init).value;
      FoldAllBounds(v, init);
      FoldEdgesClosedForm(u, last);
      var w := FoldAll(v, ess).value;
      assert Accepted(last);
      forall i | 0 <= i < 6
        ensures w[i] <= v[i]
        ensures forall j, b :: 0 <= j < |ess| && b in VertexBounds(ess[j], i) ==> w[i] <= b
        ensures w[i] == v[i] || exists j :: 0 <= j < |ess| && w[i] in VertexBounds(ess[j], i)
        ensures v[i] > 0.0 ==> w[i] > 0.0
      {
        TightenStep(u, v, ess, i);
        TightenBounds(u[i], last, i);
      }
    }
  }

  /** A failed prefix fails the whole list. */
  lemma {:induction false} FoldAllPrefixAborts(v: seq<real>, ess: seq<Edges>, n: nat)
    requires |v| == 6 && AllSix(ess) && n <= |ess|
    requires FoldAll(v, ess[..n]) == None
    ensures FoldAll(v, ess) == None
    decreases |ess| - n
  {
    if n < |ess| {
      assert ess[..n + 1][..n] == ess[..n];
      FoldAllPrefixAborts(v, ess, n + 1);
    } else {
      assert ess[..n] == ess;
    }
  }

  /** protoData's bound vector: it exists exactly when every edge of every
      patch gives two positive lambdaMax values, and then every entry lies in
      (0, 1000], is at most every finite bound any patch gives that vertex,
      and equals 1000 or one of these bounds. */
  lemma FoldedBoundsInRange(ps: seq<PatchData>)
    requires AllWellFormed(ps)
    ensures FoldPatches(InitialBounds(), ps).Some? <==>
      forall j :: 0 <= j < |ps| ==> Accepted(PatchEdges(ps[j]))
    ensures FoldPatches(InitialBounds(), ps).Some? ==>
      RunningMin(FoldPatches(InitialBounds(), ps).value, InitialBounds(), EdgeList(ps)) &&
      forall i :: 0 <= i < 6 ==> 0.0 < FoldPatches(InitialBounds(), ps).value[i] <= LambdaCap
  {
    var ess := EdgeList(ps);
    assert |ess| == |ps| && forall j :: 0 <= j < |ps| ==> ess[j] == PatchEdges(ps[j]);
    FoldAllAccepts(InitialBounds(), ess);
    if FoldPatches(InitialBounds(), ps).Some? {
      FoldAllBounds(InitialBounds(), ess);
    }
  }

  // ---------------------------------------------------------------------
  // Mirrored compression side

  /** Three columns of a patch: one side of the yield surface. */
  datatype Side = Side(points: seq<V3>, tangents: seq<V3>)

  predicate SideWellFormed(s: Side)
  {
    |s.points| == 3 && |s.tangents| == 3
  }

  /** Columns 3..5 replaced by the given side. */
  function WithSide(p: PatchData, s: Side): (r: PatchData)
    requires WellFormed(p) && SideWellFormed(s)
    ensures WellFormed(r)
  {
    PatchData(p.points[..3] + s.points, p.tangents[..3] + s.tangents)
  }

  /** The negated tension side, as a symmetric material's compression side. */
  function MirrorSide(p: PatchData): (s: Side)
    requires WellFormed(p)
    ensures SideWellFormed(s)
  {
    Side(seq(3, k requires 0 <= k < 3 => Neg3(p.points[k])),
         seq(3, k requires 0 <= k < 3 => Neg3(p.tangents[k])))
  }

  predicate IsMirrored(p: PatchData)
    requires WellFormed(p)
  {
    forall k :: 0 <= k < 3 ==> p.points[k + 3] == Neg3(p.points[k]) && p.tangents[k + 3] == Neg3(p.tangents[k])
  }

  lemma MirrorSideMirrors(p: PatchData)
    requires WellFormed(p)
    ensures IsMirrored(WithSide(p, MirrorSide(p)))
    ensures WithSide(p, MirrorSide(p)).points[..3] == p.points[..3]
    ensures WithSide(p, MirrorSide(p)).tangents[..3] == p.tangents[..3]
  {
  }

  /** Opposite edges of a mirrored patch have the same bounds: edge k + 3
      is edge k negated. */
  predicate MirroredEdges(es: Edges)
    requires |es| == 6
  {
    forall k :: 0 <= k < 3 ==> es[k + 3] == es[k]
  }

  lemma MirroredPatchEdges(p: PatchData)
    requires WellFormed(p) && IsMirrored(p)
    ensures MirroredEdges(PatchEdges(p))
  {
    var pt, tg := p.points, p.tangents;
    assert pt[0] == Neg3(pt[3]) && tg[0] == Neg3(tg[3]);
    LambdaMaxNegated(pt[0], tg[0], pt[1], tg[1]);
    LambdaMaxNegated(pt[1], tg[1], pt[2], tg[2]);
    LambdaMaxNegated(pt[2], tg[2], pt[3], tg[3]);
    assert PatchEdges(p)[3] == PatchEdges(p)[0];
    assert PatchEdges(p)[4] == PatchEdges(p)[1];
    assert PatchEdges(p)[5] == LambdaMax(Neg3(pt[2]), Neg3(tg[2]), Neg3(pt[3]), Neg3(tg[3]));
  }

  lemma MirroredEdge(p: PatchData, k: nat)
    requires WellFormed(p) && IsMirrored(p) && 3 <= k < 6
    ensures EdgeBounds(p, k) == EdgeBounds(p, k - 3)
  {
    MirroredPatchEdges(p);
    assert PatchEdges(p)[(k - 3) + 3] == PatchEdges(p)[k - 3];
  }

  /** Six bounds whose vertex k + 3 repeats vertex k. */
  predicate Symmetric(v: seq<real>)
    requires |v| == 6
  {
    forall i :: 0 <= i < 3 ==> v[i + 3] == v[i]
  }

  lemma TightenMirrored(u: seq<real>, es: Edges)
    requires |u| == 6 && |es| == 6 && Accepted(es) && MirroredEdges(es) && Symmetric(u)
    ensures forall i :: 0 <= i < 3 ==> Tighten(u[i + 3], es, i + 3) == Tighten(u[i], es, i)
  {
    MinWithCommute(u[0], es[0].0, es[2].1);
    assert es[3] == es[0] && es[4] == es[1] && es[5] == es[2];
  }

  /** Folding mirrored patches into symmetric bounds keeps them symmetric. */
  lemma {:induction false} FoldAllSymmetric(v: seq<real>, ess: seq<Edges>)
    requires |v| == 6 && AllSix(ess) && Symmetric(v)
    requires forall j :: 0 <= j < |ess| ==> MirroredEdges(ess[j])
    requires FoldAll(v, ess).Some?
    ensures Symmetric(FoldAll(v, ess).value)
  {
    if ess != [] {
      var init, last := ess[..|ess| - 1], ess[|ess| - 1];
      assert forall j :: 0 <= j < |init| ==> init[j] == ess[j];
      FoldAllSymmetric(v, init);
      var u := FoldAll(v, init).value;
      FoldEdgesClosedForm(u, last);
      TightenMirrored(u, last);
    }
  }

  // ---------------------------------------------------------------------
  // Layout of the six bounds

  /** The layout of both branches as the asymmetric branch writes it:
      vertices 0 and 2 share the smaller of their bounds, and so do 3 and 5.
      No entry exceeds the bound at its vertex. */
  function SharedLayout(v: seq<real>): (r: seq<real>)
    requires |v| == 6
    ensures |r| == 6 && r[0] == r[2] && r[3] == r[5] && r[1] == v[1] && r[4] == v[4]
    ensures forall i :: 0 <= i < 6 ==> r[i] <= v[i]
    ensures (r[0] == v[0] || r[0] == v[2]) && (r[3] == v[3] || r[3] == v[5])
  {
    var aa := Min(v[0], v[2]);
    var bb := Min(v[3], v[5]);
    [aa, v[1], aa, bb, v[4], bb]
  }

  /** The layout the symmetric branch writes: it reads only v0 and v1. */
  function SymmetricLayoutAsWritten(v: seq<real>): (r: seq<real>)
    requires |v| == 6
    ensures |r| == 6 && forall i :: 0 <= i < 6 ==> r[i] == v[0] || r[i] == v[1]
  {
    [v[0], v[1], v[0], v[0], v[1], v[0]]
  }

  /** The smallest entry. */
  function MinOf(l: seq<real>): (m: real)
    requires |l| > 0
    ensures m in l && forall i :: 0 <= i < |l| ==> m <= l[i]
  {
    if |l| == 1 then l[0]
    else
      var rest := MinOf(l[1..]);
      assert forall i :: 1 <= i < |l| ==> l[i] == l[1..][i - 1];
      Min(l[0], rest)
  }

  /** The final shape vector: with shapeBAX == 0 every entry is the least
      bound of the shared layout; otherwise the shared layout itself. */
  function FinalLayout(v: seq<real>, shapeBAX: real): (r: seq<real>)
    requires |v| == 6
    ensures |r| == 6 && forall i :: 0 <= i < 6 ==> r[i] <= v[i] && r[i] in v
    ensures shapeBAX == 0.0 ==> forall i :: 0 <= i < 6 ==> r[i] == r[0]
    ensures shapeBAX != 0.0 ==> r == SharedLayout(v)
  {
    var l := SharedLayout(v);
    if shapeBAX == 0.0 then
      var m := MinOf(l);
      assert forall x :: x in l ==> x in v;
      seq(6, i => m)
    else
      l
  }

  /** protoData as a function of the completed patches. */
  function ProtoDataSpec(ps: seq<PatchData>, shapeBAX: real): Option<seq<real>>
    requires AllWellFormed(ps)
  {
    match FoldPatches(InitialBounds(), ps)
    case None => None
    case Some(v) => Some(FinalLayout(v, shapeBAX))
  }

  /** Entries drawn from running minima keep their bounds. */
  lemma LayoutWithinBounds(v: seq<real>, r: seq<real>, ess: seq<Edges>)
    requires |v| == 6 && |r| == 6 && AllSix(ess) && RunningMin(v, InitialBounds(), ess)
    requires forall i :: 0 <= i < 6 ==> 0.0 < v[i] <= LambdaCap
    requires forall i :: 0 <= i < 6 ==> r[i] <= v[i] && r[i] in v
    ensures forall i :: 0 <= i < 6 ==> 0.0 < r[i] <= LambdaCap
    ensures forall i, j, b :: 0 <= i < 6 && 0 <= j < |ess| && b in VertexBounds(ess[j], i) ==> r[i] <= b
  {
  }

  /** The shape vector never exceeds a bound: every entry is positive, at
      most 1000, and at most every finite lambdaMax any patch gives that
      vertex. */
  lemma ProtoDataWithinBounds(ps: seq<PatchData>, shapeBAX: real)
    requires AllWellFormed(ps)
    ensures ProtoDataSpec(ps, shapeBAX).Some? <==>
      forall j :: 0 <= j < |ps| ==> Accepted(PatchEdges(ps[j]))
    ensures ProtoDataSpec(ps, shapeBAX).Some? ==> forall i :: 0 <= i < 6 ==>
      var r := ProtoDataSpec(ps, shapeBAX).value;
      0.0 < r[i] <= LambdaCap &&
      forall j, b :: 0 <= j < |ps| && b in VertexBounds(PatchEdges(ps[j]), i) ==> r[i] <= b
  {
    FoldedBoundsInRange(ps);
    if ProtoDataSpec(ps, shapeBAX).Some? {
      var v := FoldPatches(InitialBounds(), ps).value;
      var r := FinalLayout(v, shapeBAX);
      assert ProtoDataSpec(ps, shapeBAX).value == r;
      PatchLayoutWithinBounds(ps, v, r);
    }
  }

  /** LayoutWithinBounds, with the edges read off the patches. */
  lemma PatchLayoutWithinBounds(ps: seq<PatchData>, v: seq<real>, r: seq<real>)
    requires AllWellFormed(ps) && |v| == 6 && |r| == 6
    requires RunningMin(v, InitialBounds(), EdgeList(ps))
    requires forall i :: 0 <= i < 6 ==> 0.0 < v[i] <= LambdaCap
    requires forall i :: 0 <= i < 6 ==> r[i] <= v[i] && r[i] in v
    ensures forall i :: 0 <= i < 6 ==> 0.0 < r[i] <= LambdaCap
    ensures forall i, j, b :: 0 <= i < 6 && 0 <= j < |ps| && b in VertexBounds(PatchEdges(ps[j]), i) ==> r[i] <= b
  {
    var ess := EdgeList(ps);
    LayoutWithinBounds(v, r, ess);
    forall i, j, b | 0 <= i < 6 && 0 <= j < |ps| && b in VertexBounds(PatchEdges(ps[j]), i)
      ensures r[i] <= b
    {
      assert ess[j] == PatchEdges(ps[j]);
    }
  }

  /** For a symmetric material every patch is mirrored, so with shapeBAX != 0
      the shape vector has the form [a, b, a, a, b, a] that the symmetric
      input layout [V0, V1, V0, V0, V1, V0] expects. */
  lemma MirroredLayout(ps: seq<PatchData>, shapeBAX: real)
    requires AllWellFormed(ps) && forall j :: 0 <= j < |ps| ==> IsMirrored(ps[j])
    requires shapeBAX != 0.0
    ensures ProtoDataSpec(ps, shapeBAX).Some? ==>
      var r := ProtoDataSpec(ps, shapeBAX).value;
      r[0] == r[2] == r[3] == r[5] && r[1] == r[4]
  {
    var ess := EdgeList(ps);
    if FoldAll(InitialBounds(), ess).Some? {
      forall j | 0 <= j < |ess| ensures MirroredEdges(ess[j]) {
        MirroredPatchEdges(ps[j]);
      }
      FoldAllSymmetric(InitialBounds(), ess);
    }
  }

  // ---------------------------------------------------------------------
  // The symmetric layout as written

  /** The lift of lines 795-802 in the direction theta = 0, where the
      pi-plane normal vV is (0, 0, 2): vertex 0 is (sT, 0, 0) with its
      tangent along (r0, r0 + 1, 0), vertex 1 is (sTb, sTb, 0) with its
      tangent along (-rTb, 1, 0), and vertex 2 is (0, sB, 0) with its tangent
      along -(r90 + 1, r90, 0). Here sT, r0 and sB, r90 are the uniaxial
      stress and r-value at 0 and at 90 degrees, sTb and rTb the
      balanced-biaxial ones; vectorProd makes every tangent a unit vector. */
  predicate LiftedAtZero(p: PatchData, sT: real, sTb: real, sB: real, r0: real, rTb: real, r90: real)
    requires WellFormed(p)
  {
    p.points[0] == V3(sT, 0.0, 0.0) && p.points[1] == V3(sTb, sTb, 0.0) && p.points[2] == V3(0.0, sB, 0.0) &&
    UnitAlong(p.tangents[0], V3(r0, r0 + 1.0, 0.0)) &&
    UnitAlong(p.tangents[1], V3(-rTb, 1.0, 0.0)) &&
    UnitAlong(p.tangents[2], V3(-(r90 + 1.0), -r90, 0.0))
  }

  /** t is the unit vector in the direction of d, both in the z = 0 plane. */
  predicate UnitAlong(t: V3, d: V3)
  {
    t.z == 0.0 && d.z == 0.0 && Dot3(t, t) == 1.0 && t.x * d.y == t.y * d.x && Dot3(t, d) > 0.0
  }

  /** The example material in the direction theta = 0: unit stresses,
      r-values 3 at 0 degrees and 7/17 at 90 degrees, and a biaxial r-value
      of 4/3. */
  const ExR0: real := 3.0
  const ExRTb: real := 4.0 / 3.0
  const ExR90: real := 7.0 / 17.0

  /** The tension half (vertices 0 to 2) of the example patch: the lift of
      the example material, whose tangents are (3/5, 4/5, 0),
      (-4/5, 3/5, 0) and (-24/25, -7/25, 0). */
  function ExHalfPoint(k: nat): V3
    requires k < 3
  {
    if k == 0 then V3(1.0, 0.0, 0.0)
    else if k == 1 then V3(1.0, 1.0, 0.0)
    else V3(0.0, 1.0, 0.0)
  }

  function ExHalfTangent(k: nat): V3
    requires k < 3
  {
    if k == 0 then V3(0.6, 0.8, 0.0)
    else if k == 1 then V3(-0.8, 0.6, 0.0)
    else V3(-0.96, -0.28, 0.0)
  }

  /** The compression half of the example is the tension half negated. */
  function ExPoint(k: nat): V3
    requires k < 6
  {
    if k < 3 then ExHalfPoint(k) else Neg3(ExHalfPoint(k - 3))
  }

  function ExTangent(k: nat): V3
    requires k < 6
  {
    if k < 3 then ExHalfTangent(k) else Neg3(ExHalfTangent(k - 3))
  }

  function ExamplePatch(): (p: PatchData)
    ensures WellFormed(p) && IsMirrored(p)
    ensures forall k :: 0 <= k < 6 ==> p.points[k] == ExPoint(k) && p.tangents[k] == ExTangent(k)
  {
    PatchData(seq(6, k requires 0 <= k < 6 => ExPoint(k)), seq(6, k requires 0 <= k < 6 => ExTangent(k)))
  }

  /** The example patch is what lines 795-802 build in the direction
      theta = 0 for the example material, mirrored as at lines 811-816. */
  lemma ExampleIsLifted()
    ensures LiftedAtZero(ExamplePatch(), 1.0, 1.0, 1.0, ExR0, ExRTb, ExR90)
  {
    ExampleVertex0();
    ExampleVertex1();
    ExampleVertex2();
    ExampleTangentLifted0();
    ExampleTangentLifted1();
    ExampleTangentLifted2();
  }

  lemma ExampleTangentLifted0()
    ensures UnitAlong(V3(0.6, 0.8, 0.0), V3(ExR0, ExR0 + 1.0, 0.0))
  {
  }

  lemma ExampleTangentLifted1()
    ensures UnitAlong(V3(-0.8, 0.6, 0.0), V3(-ExRTb, 1.0, 0.0))
  {
  }

  lemma ExampleTangentLifted2()
    ensures UnitAlong(V3(-0.96, -0.28, 0.0), V3(-(ExR90 + 1.0), -ExR90, 0.0))
  {
  }

  /** Equal numerators over a non-zero ddet give two equal finite bounds. */
  lemma ClosedEqual(a: real, m: real, l: real)
    requires Det(m) != 0.0 && 0.5 * (a - m * a) == l * Det(m)
    ensures ClosedPair(a, a, m) == (Finite(l), Finite(l))
  {
    var d, n := Det(m), 0.5 * (a - m * a);
    assert n / d == l;
  }

  /** Numerators l1·ddet and l2·ddet over a non-zero ddet give the finite
      bounds l1 and l2. */
  lemma ClosedValues(a1: real, a2: real, m: real, l1: real, l2: real)
    requires Det(m) != 0.0
    requires 0.5 * (a1 - m * a2) == l1 * Det(m) && 0.5 * (a2 - m * a1) == l2 * Det(m)
    ensures ClosedPair(a1, a2, m) == (Finite(l1), Finite(l2))
  {
    var d, n1, n2 := Det(m), 0.5 * (a1 - m * a2), 0.5 * (a2 - m * a1);
    assert n1 / d == l1;
    assert n2 / d == l2;
  }

  /** An edge whose two projections are equal has equal bounds, known in
      closed form. */
  lemma EqualEdgeBounds(p1: V3, t1: V3, p2: V3, t2: V3, a: real, m: real, l: real)
    requires Dot3(Sub3(p2, p1), t1) == a && Dot3(Sub3(p2, p1), t2) == a && Dot3(t1, t2) == m
    requires Det(m) != 0.0 && 0.5 * (a - m * a) == l * Det(m)
    ensures LambdaMax(p1, t1, p2, t2) == (Finite(l), Finite(l))
  {
    LambdaMaxExpanded(p1, t1, p2, t2);
    ClosedEqual(a, m, l);
  }

  lemma NextBelow(k: nat)
    requires k < 5
    ensures Next(k) == k + 1
  {
  }

  /** The bounds of the example's edges: (2/5, 3/10), (7/40, 3/8),
      (1/6, 17/30), and the same again for the mirrored edges. */
  const ExFirst: seq<real> := [0.4, 0.175, Sixth, 0.4, 0.175, Sixth]
  const ExSecond: seq<real> := [0.3, 0.375, SeventeenThirtieths, 0.3, 0.375, SeventeenThirtieths]

  const Sixth: real := 1.0 / 6.0
  const SeventeenThirtieths: real := 17.0 / 30.0

  /** Edge k's bounds depend only on its two end points and their tangents. */
  lemma EdgeOfVertices(p: PatchData, k: nat, p1: V3, t1: V3, p2: V3, t2: V3)
    requires WellFormed(p) && k < 6
    requires p.points[k] == p1 && p.tangents[k] == t1
    requires p.points[Next(k)] == p2 && p.tangents[Next(k)] == t2
    ensures EdgeBounds(p, k) == LambdaMax(p1, t1, p2, t2)
  {
  }

  /** The example's three tension edges, by their coordinates: the
      projections of the chord onto the two tangents and the tangents'
      cosine, then the closed form. Each number is its own lemma, which
      keeps every proof obligation to few products of literals. */
  lemma ExampleEdge0()
    ensures LambdaMax(V3(1.0, 0.0, 0.0), V3(0.6, 0.8, 0.0), V3(1.0, 1.0, 0.0), V3(-0.8, 0.6, 0.0))
         == (Finite(0.4), Finite(0.3))
  {
    ExampleChord0();
    ExampleChordT10();
    ExampleChordT20();
    ExampleCosine0();
    ExampleClosed0();
    LambdaMaxExpanded(V3(1.0, 0.0, 0.0), V3(0.6, 0.8, 0.0), V3(1.0, 1.0, 0.0), V3(-0.8, 0.6, 0.0));
  }

  lemma ExampleChord0()
    ensures Sub3(V3(1.0, 1.0, 0.0), V3(1.0, 0.0, 0.0)) == V3(0.0, 1.0, 0.0)
  {
  }

  lemma ExampleChordT10()
    ensures Dot3(V3(0.0, 1.0, 0.0), V3(0.6, 0.8, 0.0)) == 0.8
  {
  }

  lemma ExampleChordT20()
    ensures Dot3(V3(0.0, 1.0, 0.0), V3(-0.8, 0.6, 0.0)) == 0.6
  {
  }

  lemma ExampleCosine0()
    ensures Dot3(V3(0.6, 0.8, 0.0), V3(-0.8, 0.6, 0.0)) == 0.0
  {
  }

  lemma ExampleClosed0()
    ensures ClosedPair(0.8, 0.6, 0.0) == (Finite(0.4), Finite(0.3))
  {
    ClosedValues(0.8, 0.6, 0.0, 0.4, 0.3);
  }

  lemma ExampleEdge1()
    ensures LambdaMax(V3(1.0, 1.0, 0.0), V3(-0.8, 0.6, 0.0), V3(0.0, 1.0, 0.0), V3(-0.96, -0.28, 0.0))
         == (Finite(0.175), Finite(0.375))
  {
    ExampleChord1();
    ExampleChordT11();
    ExampleChordT21();
    ExampleCosine1();
    ExampleClosed1();
    LambdaMaxExpanded(V3(1.0, 1.0, 0.0), V3(-0.8, 0.6, 0.0), V3(0.0, 1.0, 0.0), V3(-0.96, -0.28, 0.0));
  }

  lemma ExampleChord1()
    ensures Sub3(V3(0.0, 1.0, 0.0), V3(1.0, 1.0, 0.0)) == V3(-1.0, 0.0, 0.0)
  {
  }

  lemma ExampleChordT11()
    ensures Dot3(V3(-1.0, 0.0, 0.0), V3(-0.8, 0.6, 0.0)) == 0.8
  {
  }

  lemma ExampleChordT21()
    ensures Dot3(V3(-1.0, 0.0, 0.0), V3(-0.96, -0.28, 0.0)) == 0.96
  {
  }

  lemma ExampleCosine1()
    ensures Dot3(V3(-0.8, 0.6, 0.0), V3(-0.96, -0.28, 0.0)) == 0.6
  {
  }

  lemma ExampleClosed1()
    ensures ClosedPair(0.8, 0.96, 0.6) == (Finite(0.175), Finite(0.375))
  {
    ClosedValues(0.8, 0.96, 0.6, 0.175, 0.375);
  }

  lemma ExampleEdge2()
    ensures LambdaMax(V3(0.0, 1.0, 0.0), V3(-0.96, -0.28, 0.0), V3(-1.0, 0.0, 0.0), V3(-0.6, -0.8, 0.0))
         == (Finite(Sixth), Finite(SeventeenThirtieths))
  {
    ExampleChord2();
    ExampleChordT12();
    ExampleChordT22();
    ExampleCosine2();
    ExampleClosed2();
    LambdaMaxExpanded(V3(0.0, 1.0, 0.0), V3(-0.96, -0.28, 0.0), V3(-1.0, 0.0, 0.0), V3(-0.6, -0.8, 0.0));
  }

  lemma ExampleChord2()
    ensures Sub3(V3(-1.0, 0.0, 0.0), V3(0.0, 1.0, 0.0)) == V3(-1.0, -1.0, 0.0)
  {
  }

  lemma ExampleChordT12()
    ensures Dot3(V3(-1.0, -1.0, 0.0), V3(-0.96, -0.28, 0.0)) == 1.24
  {
  }

  lemma ExampleChordT22()
    ensures Dot3(V3(-1.0, -1.0, 0.0), V3(-0.6, -0.8, 0.0)) == 1.4
  {
  }

  lemma ExampleCosine2()
    ensures Dot3(V3(-0.96, -0.28, 0.0), V3(-0.6, -0.8, 0.0)) == 0.8
  {
  }

  lemma ExampleClosed2()
    ensures ClosedPair(1.24, 1.4, 0.8) == (Finite(Sixth), Finite(SeventeenThirtieths))
  {
    ClosedValues(1.24, 1.4, 0.8, Sixth, SeventeenThirtieths);
  }

  /** The first four vertices of the example patch, by their coordinates. */
  lemma ExampleVertices(p: PatchData)
    requires p == ExamplePatch()
    ensures p.points[0] == V3(1.0, 0.0, 0.0) && p.tangents[0] == V3(0.6, 0.8, 0.0)
    ensures p.points[1] == V3(1.0, 1.0, 0.0) && p.tangents[1] == V3(-0.8, 0.6, 0.0)
    ensures p.points[2] == V3(0.0, 1.0, 0.0) && p.tangents[2] == V3(-0.96, -0.28, 0.0)
    ensures p.points[3] == V3(-1.0, 0.0, 0.0) && p.tangents[3] == V3(-0.6, -0.8, 0.0)
  {
    ExampleVertex0();
    ExampleVertex1();
    ExampleVertex2();
    ExampleVertex3();
  }

  lemma ExampleVertex0()
    ensures ExPoint(0) == V3(1.0, 0.0, 0.0) && ExTangent(0) == V3(0.6, 0.8, 0.0)
  {
  }

  lemma ExampleVertex1()
    ensures ExPoint(1) == V3(1.0, 1.0, 0.0) && ExTangent(1) == V3(-0.8, 0.6, 0.0)
  {
  }

  lemma ExampleVertex2()
    ensures ExPoint(2) == V3(0.0, 1.0, 0.0) && ExTangent(2) == V3(-0.96, -0.28, 0.0)
  {
  }

  lemma ExampleVertex3()
    ensures ExPoint(3) == V3(-1.0, 0.0, 0.0) && ExTangent(3) == V3(-0.6, -0.8, 0.0)
  {
  }

  /** The bounds of the example patch's tension edges. */
  lemma ExampleEdgeValue(p: PatchData, k: nat)
    requires p == ExamplePatch() && k < 3
    ensures EdgeBounds(p, k) == (Finite(ExFirst[k]), Finite(ExSecond[k]))
  {
    ExampleVertices(p);
    ExampleEdgeAt0(p);
    ExampleEdgeAt1(p);
    ExampleEdgeAt2(p);
    TensionEdgeBounds(p, k);
  }

  /** Picks edge k's bounds out of the three tension edges' bounds. */
  lemma TensionEdgeBounds(p: PatchData, k: nat)
    requires WellFormed(p) && k < 3
    requires EdgeBounds(p, 0) == (Finite(0.4), Finite(0.3))
    requires EdgeBounds(p, 1) == (Finite(0.175), Finite(0.375))
    requires EdgeBounds(p, 2) == (Finite(Sixth), Finite(SeventeenThirtieths))
    ensures EdgeBounds(p, k) == (Finite(ExFirst[k]), Finite(ExSecond[k]))
  {
    if k == 0 {
    } else if k == 1 {
    } else {
    }
  }

  lemma ExampleEdgeAt0(p: PatchData)
    requires WellFormed(p)
    requires p.points[0] == V3(1.0, 0.0, 0.0) && p.tangents[0] == V3(0.6, 0.8, 0.0)
    requires p.points[1] == V3(1.0, 1.0, 0.0) && p.tangents[1] == V3(-0.8, 0.6, 0.0)
    ensures EdgeBounds(p, 0) == (Finite(0.4), Finite(0.3))
  {
    NextBelow(0);
    ExampleEdge0();
    EdgeOfVertices(p, 0, V3(1.0, 0.0, 0.0), V3(0.6, 0.8, 0.0), V3(1.0, 1.0, 0.0), V3(-0.8, 0.6, 0.0));
  }

  lemma ExampleEdgeAt1(p: PatchData)
    requires WellFormed(p)
    requires p.points[1] == V3(1.0, 1.0, 0.0) && p.tangents[1] == V3(-0.8, 0.6, 0.0)
    requires p.points[2] == V3(0.0, 1.0, 0.0) && p.tangents[2] == V3(-0.96, -0.28, 0.0)
    ensures EdgeBounds(p, 1) == (Finite(0.175), Finite(0.375))
  {
    NextBelow(1);
    ExampleEdge1();
    EdgeOfVertices(p, 1, V3(1.0, 1.0, 0.0), V3(-0.8, 0.6, 0.0), V3(0.0, 1.0, 0.0), V3(-0.96, -0.28, 0.0));
  }

  lemma ExampleEdgeAt2(p: PatchData)
    requires WellFormed(p)
    requires p.points[2] == V3(0.0, 1.0, 0.0) && p.tangents[2] == V3(-0.96, -0.28, 0.0)
    requires p.points[3] == V3(-1.0, 0.0, 0.0) && p.tangents[3] == V3(-0.6, -0.8, 0.0)
    ensures EdgeBounds(p, 2) == (Finite(Sixth), Finite(SeventeenThirtieths))
  {
    NextBelow(2);
    ExampleEdge2();
    EdgeOfVertices(p, 2, V3(0.0, 1.0, 0.0), V3(-0.96, -0.28, 0.0), V3(-1.0, 0.0, 0.0), V3(-0.6, -0.8, 0.0));
  }

  /** The six edge bounds of the example patch. */
  function ExEdges(): (es: Edges)
    ensures |es| == 6 && forall k :: 0 <= k < 6 ==> es[k] == (Finite(ExFirst[k]), Finite(ExSecond[k]))
  {
    seq(6, k requires 0 <= k < 6 => (Finite(ExFirst[k]), Finite(ExSecond[k])))
  }

  /** A mirrored patch whose tension edges have the bounds of the example. */
  predicate ShapedLikeExample(p: PatchData)
  {
    WellFormed(p) && IsMirrored(p) && forall k :: 0 <= k < 3 ==> EdgeBounds(p, k) == ExEdges()[k]
  }

  /** The example patch is shaped like itself. */
  lemma ExampleTensionEdges(p: PatchData)
    requires p == ExamplePatch()
    ensures ShapedLikeExample(p)
  {
    forall k | 0 <= k < 3 ensures EdgeBounds(p, k) == ExEdges()[k] {
      ExampleEdgeValue(p, k);
    }
  }

  /** A mirrored patch whose tension edges have the example's bounds has
      all six of them. */
  lemma MirroredExampleEdges(p: PatchData)
    requires WellFormed(p) && IsMirrored(p)
    requires forall k :: 0 <= k < 3 ==> EdgeBounds(p, k) == ExEdges()[k]
    ensures PatchEdges(p) == ExEdges()
  {
    var es := PatchEdges(p);
    forall k | 3 <= k < 6 ensures es[k] == ExEdges()[k] {
      MirroredEdge(p, k);
    }
  }

  /** What folding the example patch into the initial bounds gives:
      v0 = min(2/5, 17/30), v1 = min(3/10, 7/40), v2 = min(3/8, 1/6). */
  const ExFolded: seq<real> := [0.4, 0.175, Sixth, 0.4, 0.175, Sixth]

  /** Folding a single patch is folding its six edges. */
  lemma FoldSinglePatch(v: seq<real>, p: PatchData)
    requires |v| == 6 && WellFormed(p)
    ensures FoldPatches(v, [p]) == FoldEdges(v, PatchEdges(p), 0)
  {
    assert EdgeList([p]) == [PatchEdges(p)];
    FoldOneEdges(v, PatchEdges(p));
  }

  lemma FoldOneEdges(v: seq<real>, es: Edges)
    requires |v| == 6 && |es| == 6
    ensures FoldAll(v, [es]) == FoldEdges(v, es, 0)
  {
    assert [es][..0] == [];
  }

  lemma FoldExampleEdges()
    ensures FoldEdges(InitialBounds(), ExEdges(), 0) == Some(ExFolded)
  {
    var es := ExEdges();
    assert Accepted(es);
    FoldEdgesClosedForm(InitialBounds(), es);
    var w := FoldEdges(InitialBounds(), es, 0).value;
    forall i | 0 <= i < 6 ensures w[i] == ExFolded[i] {
      assert Prev(i) == [5, 0, 1, 2, 3, 4][i];
    }
    assert w == ExFolded;
  }

  /** Folding a patch shaped like the example (ExampleTensionEdges shows
      that one exists) gives [2/5, 7/40, 1/6, 2/5, 7/40, 1/6]. The
      symmetric branch's layout then puts 2/5 at vertex 2, above the bound
      1/6 that edge 2 gives that vertex; the shared layout puts 1/6 there. */
  lemma SymmetricLayoutExceedsBound(p: PatchData)
    requires ShapedLikeExample(p)
    ensures FoldPatches(InitialBounds(), [p]) == Some(ExFolded)
    ensures Sixth in VertexBounds(PatchEdges(p), 2)
    ensures SymmetricLayoutAsWritten(ExFolded)[2] == 0.4 > Sixth
    ensures SharedLayout(ExFolded) == [Sixth, 0.175, Sixth, Sixth, 0.175, Sixth]
  {
    MirroredExampleEdges(p);
    FoldSinglePatch(InitialBounds(), p);
    FoldExampleEdges();
    ExampleLayouts();
  }

  lemma ExampleLayouts()
    ensures SymmetricLayoutAsWritten(ExFolded)[2] == 0.4
    ensures SharedLayout(ExFolded) == [Sixth, 0.175, Sixth, Sixth, 0.175, Sixth]
  {
  }
  /** protoData's final step as the source writes it: the symmetric branch
      lays the bounds out as [v0, v1, v0, v0, v1, v0], the asymmetric one
      shares min(v0, v2) and min(v3, v5); with shapeBAX == 0 both then put
      their least entry in all six places. */
  function FinalLayoutAsWritten(v: seq<real>, assym: bool, shapeBAX: real): (r: seq<real>)
    requires |v| == 6
    ensures |r| == 6 && forall i :: 0 <= i < 6 ==> r[i] in v
    ensures assym ==> r == FinalLayout(v, shapeBAX)
    ensures !assym && shapeBAX != 0.0 ==> r == SymmetricLayoutAsWritten(v)
    ensures !assym && shapeBAX == 0.0 ==> forall i :: 0 <= i < 6 ==> r[i] == Min(v[0], v[1])
  {
    var l := if assym then SharedLayout(v) else SymmetricLayoutAsWritten(v);
    if shapeBAX == 0.0 then
      var m := MinOf(l);
      assert forall x :: x in l ==> x in v;
      assert !assym ==> l == [v[0], v[1], v[0], v[0], v[1], v[0]] && m <= l[0] && m <= l[1];
      seq(6, i => m)
    else
      l
  }

  /** protoData as the source computes it, on the completed patches. */
  function ProtoDataSpecAsWritten(ps: seq<PatchData>, assym: bool, shapeBAX: real): Option<seq<real>>
    requires AllWellFormed(ps)
  {
    match FoldPatches(InitialBounds(), ps)
    case None => None
    case Some(v) => Some(FinalLayoutAsWritten(v, assym, shapeBAX))
  }

  /** On symmetric bounds with shapeBAX != 0 the two layouts agree exactly
      when v0 <= v2: only then does line 839's v0 equal min(v0, v2). */
  lemma SymmetricLayoutAgrees(v: seq<real>, shapeBAX: real)
    requires |v| == 6 && Symmetric(v) && shapeBAX != 0.0
    ensures FinalLayoutAsWritten(v, false, shapeBAX) == FinalLayout(v, shapeBAX) <==> v[0] <= v[2]
  {
    if v[0] <= v[2] {
      assert FinalLayoutAsWritten(v, false, shapeBAX) == FinalLayout(v, shapeBAX);
    } else {
      assert FinalLayoutAsWritten(v, false, shapeBAX)[2] != FinalLayout(v, shapeBAX)[2];
    }
  }

  /** With shapeBAX == 0 the symmetric branch puts min(v0, v1) everywhere,
      the corrected layout the least of v0, v1 and v2: they agree exactly
      when v2 is not below min(v0, v1). */
  lemma FlatLayoutAgrees(v: seq<real>)
    requires |v| == 6 && Symmetric(v)
    ensures FinalLayoutAsWritten(v, false, 0.0) == FinalLayout(v, 0.0) <==> Min(v[0], v[1]) <= v[2]
  {
    var l := SharedLayout(v);
    var m := MinOf(l);
    assert l[0] <= l[1] ==> m == l[0];
    if Min(v[0], v[1]) <= v[2] {
      assert m == Min(v[0], v[1]);
      assert FinalLayoutAsWritten(v, false, 0.0) == FinalLayout(v, 0.0);
    } else {
      assert m == v[2];
      assert FinalLayoutAsWritten(v, false, 0.0)[0] != FinalLayout(v, 0.0)[0];
    }
  }

  /** For an asymmetric material the source's result is the corrected one;
      for a symmetric material (mirrored patches) it is whenever the folded
      bounds have v0 <= min(v1, v2), which covers both shapeBAX cases. */
  lemma ProtoDataAsWrittenAgrees(ps: seq<PatchData>, assym: bool, shapeBAX: real)
    requires AllWellFormed(ps)
    requires !assym ==> forall j :: 0 <= j < |ps| ==> IsMirrored(ps[j])
    ensures ProtoDataSpecAsWritten(ps, assym, shapeBAX).Some? <==> ProtoDataSpec(ps, shapeBAX).Some?
    ensures assym ==> ProtoDataSpecAsWritten(ps, assym, shapeBAX) == ProtoDataSpec(ps, shapeBAX)
    ensures ProtoDataSpec(ps, shapeBAX).Some? ==>
      var v := FoldPatches(InitialBounds(), ps).value;
      v[0] <= v[1] && v[0] <= v[2] ==>
        ProtoDataSpecAsWritten(ps, assym, shapeBAX) == ProtoDataSpec(ps, shapeBAX)
  {
    if !assym && ProtoDataSpec(ps, shapeBAX).Some? {
      var ess := EdgeList(ps);
      forall j | 0 <= j < |ess| ensures MirroredEdges(ess[j]) {
        MirroredPatchEdges(ps[j]);
      }
      FoldAllSymmetric(InitialBounds(), ess);
      var v := FoldPatches(InitialBounds(), ps).value;
      if shapeBAX == 0.0 {
        FlatLayoutAgrees(v);
      } else {
        SymmetricLayoutAgrees(v, shapeBAX);
      }
    }
  }

  /** The discrepancy at the level of protoData: for a symmetric material
      whose one patch is shaped like the example (the example patch itself
      is the lift at theta = 0, ExampleIsLifted) the source returns 2/5 at
      vertex 2 when shapeBAX != 0 and 7/40 everywhere when shapeBAX == 0,
      above the bound 1/6 the patch gives that vertex; the corrected result
      is 1/6 there in both cases. */
  lemma ProtoDataAsWrittenExceedsBound(p: PatchData, shapeBAX: real)
    requires ShapedLikeExample(p)
    ensures Sixth in VertexBounds(PatchEdges(p), 2)
    ensures shapeBAX != 0.0 ==>
      ProtoDataSpecAsWritten([p], false, shapeBAX) == Some(SymmetricLayoutAsWritten(ExFolded)) &&
      ProtoDataSpecAsWritten([p], false, shapeBAX).value[2] == 0.4 &&
      ProtoDataSpec([p], shapeBAX).value[2] == Sixth
    ensures shapeBAX == 0.0 ==>
      ProtoDataSpecAsWritten([p], false, 0.0) == Some(seq(6, i => 0.175)) &&
      ProtoDataSpec([p], 0.0) == Some(seq(6, i => Sixth))
  {
    SymmetricLayoutExceedsBound(p);
    FlatLayoutExceedsBound();
  }

  /** The shapeBAX == 0 consequence on the example's folded bounds, whose
      vertex 2 is the tightest: the source puts min(v0, v1) = 7/40
      everywhere, above v2 = 1/6; the corrected result is 1/6. */
  lemma FlatLayoutExceedsBound()
    ensures FinalLayoutAsWritten(ExFolded, false, 0.0) == seq(6, i => 0.175)
    ensures FinalLayout(ExFolded, 0.0) == seq(6, i => Sixth)
  {
    FlatLayoutAgrees(ExFolded);
    assert MinOf(SharedLayout(ExFolded)) == Sixth;
  }

  // ---------------------------------------------------------------------
  // Patches as the source stores them: 3x6 arrays updated column by column

  /** One patch: six points and six tangents, column k of each array being
      vertex k. Columns 0..2 are the tension side, 3..5 the compression side. */
  class Patch {
    const points: array<V3>
    const tangents: array<V3>

    predicate Valid()
    {
      points.Length == 6 && tangents.Length == 6 && points != tangents
    }

    function Data(): (d: PatchData)
      requires Valid()
      reads points, tangents
      ensures WellFormed(d)
    {
      PatchData(points[..], tangents[..])
    }

    /** A patch built from its tension side, the other columns zero. */
    constructor (tension: Side)
      requires SideWellFormed(tension)
      ensures Valid() && fresh(points) && fresh(tangents)
      ensures Data() == PatchData(tension.points + [Origin, Origin, Origin],
                                  tension.tangents + [Origin, Origin, Origin])
    {
      var ps := new V3[6](_ => Origin);
      var ts := new V3[6](_ => Origin);
      ps[0], ps[1], ps[2] := tension.points[0], tension.points[1], tension.points[2];
      ts[0], ts[1], ts[2] := tension.tangents[0], tension.tangents[1], tension.tangents[2];
      points, tangents := ps, ts;
    }

    /** Columns 3..5 set to the given compression side. */
    method SetCompression(c: Side)
      requires Valid() && SideWellFormed(c)
      modifies points, tangents
      ensures Data() == WithSide(old(Data()), c)
    {
      points[3], points[4], points[5] := c.points[0], c.points[1], c.points[2];
      tangents[3], tangents[4], tangents[5] := c.tangents[0], c.tangents[1], c.tangents[2];
    }

    /** Columns 3..5 set to the negated columns 0..2. */
    method Mirror()
      requires Valid()
      modifies points, tangents
      ensures Data() == WithSide(old(Data()), MirrorSide(old(Data())))
      ensures IsMirrored(Data())
    {
      ghost var d, m := Data(), MirrorSide(Data());
      points[3], points[4], points[5] := Neg3(points[0]), Neg3(points[1]), Neg3(points[2]);
      tangents[3], tangents[4], tangents[5] := Neg3(tangents[0]), Neg3(tangents[1]), Neg3(tangents[2]);
      assert points[..] == d.points[..3] + m.points;
      assert tangents[..] == d.tangents[..3] + m.tangents;
    }
  }

  /** One accepted edge of the fold. */
  lemma FoldEdgesStep(w: seq<real>, es: Edges, k: nat)
    requires |w| == 6 && |es| == 6 && k < 6
    ensures !(Positive(es[k].0) && Positive(es[k].1)) ==> FoldEdges(w, es, k) == None
    ensures Positive(es[k].0) && Positive(es[k].1) ==>
      FoldEdges(w, es, k)
      == FoldEdges(w[k := MinWith(w[k], es[k].0)][Next(k) := MinWith(w[Next(k)], es[k].1)], es, k + 1)
  {
  }

  /** Edge k of a patch object is lambdaMax of its columns k and k + 1. */
  lemma PatchEdgeAt(p: Patch, k: nat)
    requires p.Valid() && k < 6
    ensures PatchEdges(p.Data())[k]
         == LambdaMax(p.points[k], p.tangents[k], p.points[Next(k)], p.tangents[Next(k)])
  {
  }

  /** Fold one patch's six edges into the running bounds in place, edge kk
      from vertex kk to kk + 1 and then the wrap edge from 5 to 0. Returns
      false, with the bounds partly updated, at the first edge whose pair is
      not positive. */
  method FoldPatchBounds(v: array<real>, p: Patch) returns (ok: bool)
    requires v.Length == 6 && p.Valid()
    modifies v
    ensures ok <==> FoldEdges(old(v[..]), PatchEdges(p.Data()), 0).Some?
    ensures ok ==> FoldEdges(old(v[..]), PatchEdges(p.Data()), 0) == Some(v[..])
  {
    ghost var es := PatchEdges(p.Data());
    for kk := 0 to 5
      invariant FoldEdges(v[..], es, kk) == FoldEdges(old(v[..]), es, 0)
    {
      ghost var w := v[..];
      FoldEdgesStep(w, es, kk);
      PatchEdgeAt(p, kk);
      NextBelow(kk);
      var (lbd1, lbd2) := LambdaMax(p.points[kk], p.tangents[kk], p.points[kk + 1], p.tangents[kk + 1]);
      if Positive(lbd1) && Positive(lbd2) {
        v[kk] := MinWith(v[kk], lbd1);
        v[kk + 1] := MinWith(v[kk + 1], lbd2);
        assert v[..] == w[kk := MinWith(w[kk], es[kk].0)][Next(kk) := MinWith(w[Next(kk)], es[kk].1)];
      } else {
        return false;
      }
    }
    ghost var w := v[..];
    FoldEdgesStep(w, es, 5);
    PatchEdgeAt(p, 5);
    assert Next(5) == 0;
    var (lbd1, lbd2) := LambdaMax(p.points[5], p.tangents[5], p.points[0], p.tangents[0]);
    if Positive(lbd1) && Positive(lbd2) {
      v[5] := MinWith(v[5], lbd1);
      v[0] := MinWith(v[0], lbd2);
      assert v[..] == w[5 := MinWith(w[5], es[5].0)][0 := MinWith(w[0], es[5].1)];
      ok := true;
    } else {
      ok := false;
    }
  }

  /** Folding one more patch. */
  lemma FoldPatchesSnoc(v: seq<real>, ds: seq<PatchData>, j: nat)
    requires |v| == 6 && AllWellFormed(ds) && j < |ds|
    ensures FoldPatches(v, ds[..j + 1]) ==
      match FoldPatches(v, ds[..j])
      case None => None
      case Some(w) => FoldEdges(w, PatchEdges(ds[j]), 0)
  {
    var ess := EdgeList(ds[..j + 1]);
    assert ess[..j] == EdgeList(ds[..j]);
    assert ess[j] == PatchEdges(ds[j]);
  }

  /** ProtoDataSpec after j patches have been folded into w and patch j
      folds w into u (or aborts). */
  lemma ProtoDataStep(ds: seq<PatchData>, j: nat, w: seq<real>, u: Option<seq<real>>)
    requires AllWellFormed(ds) && j < |ds| && |w| == 6
    requires FoldPatches(InitialBounds(), ds[..j]) == Some(w)
    requires u == FoldEdges(w, PatchEdges(ds[j]), 0)
    ensures u.Some? ==> FoldPatches(InitialBounds(), ds[..j + 1]) == u
    ensures u.None? ==> forall s :: ProtoDataSpec(ds, s) == None
  {
    FoldPatchesSnoc(InitialBounds(), ds, j);
    if u.None? {
      FoldPatchesPrefixAborts(InitialBounds(), ds, j + 1);
    }
  }

  /** Once a prefix of the patches aborts, the whole run does. */
  lemma FoldPatchesPrefixAborts(v: seq<real>, ds: seq<PatchData>, n: nat)
    requires |v| == 6 && AllWellFormed(ds) && n <= |ds|
    requires FoldPatches(v, ds[..n]) == None
    ensures FoldPatches(v, ds) == None
  {
    assert EdgeList(ds)[..n] == EdgeList(ds[..n]);
    FoldAllPrefixAborts(v, EdgeList(ds), n);
  }

  /** Patch objects whose arrays are pairwise distinct. */
  predicate Separate(ps: seq<Patch>)
  {
    forall i, j :: 0 <= i < |ps| && 0 <= j < |ps| && i != j ==>
      ps[i].points != ps[j].points && ps[i].points != ps[j].tangents && ps[i].tangents != ps[j].tangents
  }

  function AllData(ps: seq<Patch>): (ds: seq<PatchData>)
    requires forall j :: 0 <= j < |ps| ==> ps[j].Valid()
    reads set j | 0 <= j < |ps| :: ps[j].points, set j | 0 <= j < |ps| :: ps[j].tangents
    ensures |ds| == |ps| && AllWellFormed(ds)
    ensures forall j :: 0 <= j < |ps| ==> ds[j] == ps[j].Data()
  {
    if ps == [] then []
    else AllData(ps[..|ps| - 1]) + [ps[|ps| - 1].Data()]
  }

  /** A patch once its compression side is set: the measured compression
      side c of an asymmetric material, the mirrored tension side of a
      symmetric one. */
  function Complete(d: PatchData, assym: bool, c: Side): (r: PatchData)
    requires WellFormed(d) && (assym ==> SideWellFormed(c))
    ensures WellFormed(r) && r.points[..3] == d.points[..3] && r.tangents[..3] == d.tangents[..3]
    ensures !assym ==> IsMirrored(r)
    ensures assym ==> r.points[3..] == c.points && r.tangents[3..] == c.tangents
  {
    if assym then WithSide(d, c) else WithSide(d, MirrorSide(d))
  }

  /** The compression side patch j receives. */
  function SideFor(compression: seq<Side>, assym: bool, j: nat): Side
  {
    if assym && j < |compression| then compression[j] else Side([], [])
  }

  function Completed(ds: seq<PatchData>, compression: seq<Side>, assym: bool): (r: seq<PatchData>)
    requires AllWellFormed(ds)
    requires assym ==> |compression| == |ds| && forall j :: 0 <= j < |ds| ==> SideWellFormed(compression[j])
    ensures |r| == |ds| && AllWellFormed(r)
    ensures forall j :: 0 <= j < |ds| ==> r[j] == Complete(ds[j], assym, SideFor(compression, assym, j))
  {
    seq(|ds|, j requires 0 <= j < |ds| => Complete(ds[j], assym, SideFor(compression, assym, j)))
  }

  /** Set the compression side of one patch in place. */
  method CompletePatch(p: Patch, assym: bool, c: Side)
    requires p.Valid() && (assym ==> SideWellFormed(c))
    modifies p.points, p.tangents
    ensures p.Data() == Complete(old(p.Data()), assym, c)
  {
    if assym {
      p.SetCompression(c);
    } else {
      p.Mirror();
    }
  }

  /** One patch of protoData's loop: set its compression side, then fold
      its edges into the running bounds. */
  method CompleteAndFold(v: array<real>, p: Patch, assym: bool, c: Side) returns (ok: bool)
    requires v.Length == 6 && p.Valid() && (assym ==> SideWellFormed(c))
    modifies v, p.points, p.tangents
    ensures p.Data() == Complete(old(p.Data()), assym, c)
    ensures ok <==> FoldEdges(old(v[..]), PatchEdges(p.Data()), 0).Some?
    ensures ok ==> FoldEdges(old(v[..]), PatchEdges(p.Data()), 0) == Some(v[..])
  {
    CompletePatch(p, assym, c);
    ok := FoldPatchBounds(v, p);
  }

  /** protoData's bound computation: complete each patch in place and fold it
      into the running bounds, then lay the six bounds out. None stands for
      the aborted run. */
  method ProtoData(patches: seq<Patch>, compression: seq<Side>, assym: bool, shapeBAX: real)
    returns (r: Option<seq<real>>)
    requires forall j :: 0 <= j < |patches| ==> patches[j].Valid()
    requires Separate(patches)
    requires assym ==> |compression| == |patches| && forall j :: 0 <= j < |patches| ==> SideWellFormed(compression[j])
    modifies set j | 0 <= j < |patches| :: patches[j].points
    modifies set j | 0 <= j < |patches| :: patches[j].tangents
    ensures r == ProtoDataSpec(Completed(old(AllData(patches)), compression, assym), shapeBAX)
    ensures r.Some? ==> AllData(patches) == Completed(old(AllData(patches)), compression, assym)
  {
    ghost var ds0 := AllData(patches);
    ghost var ds := Completed(ds0, compression, assym);
    var v := new real[6](_ => LambdaCap);
    assert v[..] == InitialBounds();
    assert ds[..0] == [];
    for j := 0 to |patches|
      invariant FoldPatches(InitialBounds(), ds[..j]) == Some(v[..])
      invariant forall i :: 0 <= i < |patches| ==> patches[i].Data() == if i < j then ds[i] else ds0[i]
    {
      ghost var w := v[..];
      var ok := CompleteAndFold(v, patches[j], assym, SideFor(compression, assym, j));
      ProtoDataStep(ds, j, w, if ok then Some(v[..]) else None);
      if !ok {
        return None;
      }
    }
    assert ds[..|patches|] == ds;
    r := Some(FinalLayout(v[..], shapeBAX));
  }
}
