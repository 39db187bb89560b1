# SHYqp yield-surface fitting: a Dafny model of its exact core

SHYqp fits a homogeneous polynomial yield function `1 + P(u) + Q(u)` to
sheet-metal test data. `P` has degree `d - 1`, `Q` has degree `d`, and `d` is
even. The fit is a convex quadratic program. The program around that solve is
mostly exact bookkeeping, and this project models that part:

- `monomials.dfy` (module `Monomials`): the monomial basis `vPoly` and its
  first-partial and Hessian tables, and the counts `nMonoms`, `nMonomials`
  and `nMonomials2`.
- `bezier.dfy` (module `Bezier`): the quintic Bezier segments `curveSeg3`,
  `curveSegF` and `curveSegFDF`, and the damped Newton inversion
  `curveSegTheta`.
- `shape_bound.dfy` (module `ShapeBound`): `lambdaMax`, and the shape-bound
  part of `protoData`. That part covers how patches are completed, the
  mirroring for symmetric materials, the running minimum `vLbdMax` over the
  six edges of every patch, and the final layout of the six shape
  parameters. The patches are a `class` whose point and tangent arrays are
  updated in place.
- `proto_points.dfy` (module `ProtoPoints`): `protoDataPoints`. It fills a
  zeroed point buffer through the cursor `jj`, six edges of `n` rows per
  patch.
- `coeff_layout.dfy` (module `CoeffLayout`): the coefficient layout of
  `genConstraints2D`, `dataFitSHYqp` and their symmetric versions.
  - The four coefficients fixed by the uniaxial data are `cP0`, `cP1`, `cQ0`
    and `cQ1`, at indices 0, 1, `nP` and `nP + 1`.
  - The layout removes their columns from every constraint and data row and
    moves their contribution to the right-hand side.
  - After the solve it reinserts them.
- `vectors.dfy` and `space.dfy`: vectors of reals and 3-vectors.

Real numbers stand in for float64 in three ways:

- Exact arithmetic replaces rounding.
- Where the source divides numpy floats, division by zero produces an
  infinity or NaN. `ShapeBound.Divide` models that.
- Where the source divides Python floats, division by zero raises
  `ZeroDivisionError`. `CoeffLayout.FixedCoefficients` models that as `None`.

The source's `print(...); exit()` abort paths are `None` results.

## Model

| member | source | states |
|---|---|---|
| Monomials.BuildTriples | SHYqpV1.py:376-382 | the while loop over the third exponent builds exactly the list `Triples(n)` of `(n-c-k, k, c)` blocks and its block index `Blocks(n)` |
| Monomials.VPoly | SHYqpV1.py:372-406 | an odd degree aborts (None) and only an odd degree does; otherwise the result is the P list of degree `d-1` and the Q list of degree `d`, each with its block index |
| Monomials.TriplesMembership | SHYqpV1.py:376-382 | a triple is listed exactly when its exponents sum to the degree and its third exponent is even |
| Monomials.TriplesFromMembership | SHYqpV1.py:376-382 | the blocks from third exponent `c` on hold exactly the triples of that degree with even third exponent at least `c` |
| Monomials.BlockMembership | SHYqpV1.py:380 | one block holds exactly the triples of that degree with the given third exponent |
| Monomials.TriplesFromSorted | SHYqpV1.py:376-382 | along the list the third exponent never decreases and never falls below the first block's |
| Monomials.BlocksDescribe | SHYqpV1.py:376-382 | `vPidx`/`vQidx` cover the indices `0..len-1` in order; block `k` has third exponent `2k`, and every index in it points at a triple with that exponent |
| Monomials.BlocksFromDescribe | SHYqpV1.py:376-382 | the same description for the blocks from third exponent `c` on, starting at list position `lv` |
| Monomials.BlocksFromFlatten | SHYqpV1.py:376-382 | the positions of the blocks from third exponent `c` on, read in order, are `lv, lv+1, ...` without gap |
| Monomials.BlocksFromExponents | SHYqpV1.py:376-382 | block `k` from third exponent `c` on has third exponent `c + 2k` |
| Monomials.BlocksFromPositions | SHYqpV1.py:376-382 | every position in block `k` points at a triple with third exponent `c + 2k` |
| Monomials.TriplesFromCount | SHYqpV1.py:376-382 | the number of triples from third exponent `c` on is the closed count of `n - c` |
| Monomials.ClosedCountStep | SHYqpV1.py:378-381 | the closed count grows by the block length `m + 1` from `m - 2` to `m` |
| Monomials.BasisCounts | SHYqpV1.py:367-369 | for degree `2h`, `len(vQ) = (h+1)^2` and `len(vP) = h(h+1)` |
| Monomials.NMonomsMatchesBasis | SHYqpV1.py:367-369 | `nMonoms(d)` is exactly the pair of list lengths `vPoly(d)` builds |
| Monomials.NMonomials2 | SHYqpV1.py:357-365 | eleven rows; row i is for degree 2(i+2), so the degrees run 4 to 24, and its last column is the sum of the P and Q counts |
| Monomials.NMonomials | SHYqpV1.py:345-356 | the summing loops of `nMonomials` give exactly the closed-form table of `nMonomials2` |
| Monomials.BlockSums | SHYqpV1.py:349-353 | for `deg = 2h` the inner while loop ends with `sOdd = h(h+1)` and `sEven + 1 = (h+1)^2` |
| Monomials.NMonomials2MatchesBasis | SHYqpV1.py:357-365 | row i is degree 2(i+2); its columns are the lengths of the P list (degree 2i+3) and the Q list (degree 2i+4) that vPoly builds, and their total |
| Monomials.AcceptedDegreeIsEvenRange | SHYqpV1.py:83 | the whitelist is exactly the even degrees from 4 to 24 |
| Monomials.FirstPartialsRule | SHYqpV1.py:384-389 | entry `k` of `vD<i>X`/`vC<i>X`: with `a_i > 0` the triple with `a_i` lowered by one and coefficient `a_i`, otherwise `(0,0,0)` and 0 |
| Monomials.HessCoefClosed | SHYqpV1.py:390-401 | the Hessian coefficient is `a_i (a_j - [i=j])`: `a(a-1)` on the diagonal, `a*b` off it |
| Monomials.HessTripleClosed | SHYqpV1.py:390-401 | when the Hessian coefficient is 0 the triple is `(0,0,0)`; otherwise the triple lowers `a_i` and `a_j` (by two when `i=j`) and the degree drops by two |
| Monomials.ShiftExp | SHYqpV1.py:384-389 | differentiating along an axis with a positive exponent lowers that exponent by one and keeps the others |
| Monomials.ShiftDegree | SHYqpV1.py:384-389 | a first partial has degree one less |
| Monomials.HessSymmetric | SHYqpV1.py:390-401 | the tables for `(i,j)` and `(j,i)` agree, so tabulating `i <= j` loses nothing |
| Monomials.AxisTermValue | SHYqpV1.py:384-389 | `u_i` times the tabulated partial is `a_i` times the monomial: the tables are the true partial derivatives |
| Monomials.EulerFirstOrder | SHYqpV1.py:384-389 | the first-partial coefficients sum to the degree (Euler's identity), and raising a shifted triple restores it |
| Monomials.EulerSecondOrder | SHYqpV1.py:390-401 | row `i` of the Hessian coefficients sums to `(deg - 1)` times the first-partial coefficient |
| Monomials.HessianRaise | SHYqpV1.py:390-401 | a non-zero Hessian entry raised along `j` is the first partial along `i` |
| Monomials.HessianTotal | SHYqpV1.py:390-401 | all nine Hessian coefficients sum to `deg (deg - 1)` |
| Bezier.SegmentEnds | SHYqpV1.py:488-494 | the segment starts at `Bs`, ends at `Be`, and has derivative `5 lambdaS Ts` at 0 and `5 lambdaE Te` at 1 |
| Bezier.PowerFormIsBernstein | SHYqpV1.py:490-495 | the Horner form with `A1..A5` is the Bernstein form of the control polygon `Bs, B1, B2, B3, B4, Be` |
| Bezier.BernsteinNegated | SHYqpV1.py:490-495 | negating every control point negates the curve |
| Bezier.SegmentNegated | SHYqpV1.py:489 | negated end points and tangents give the negated segment |
| Bezier.DiffQuotFactor | SHYqpV1.py:530 | `f(s) - f(t) = (s - t) D(s, t)` for the divided-difference polynomial |
| Bezier.DiffQuotDiagonal | SHYqpV1.py:530 | at `s = t` the divided difference is the formal derivative |
| Bezier.EvalPolyAdd | SHYqpV1.py:530 | polynomial evaluation is additive in the coefficients |
| Bezier.DerivativeStep | SHYqpV1.py:530 | the formal derivative obeys the product rule for `c0 + t p(t)` |
| Bezier.EvalIsPoly | SHYqpV1.py:529 | Horner's rule evaluates the polynomial with coefficients `Bs, A1, ..., A5` |
| Bezier.EvalDIsDerivative | SHYqpV1.py:529-530 | `df` is the formal derivative of `f`, and the divided difference at `s = t` |
| Bezier.EvalDividedDifference | SHYqpV1.py:529-530 | `f(s) - f(t) = (s - t) D(s, t)`, so `df` is the limit of the difference quotient |
| Bezier.LinspaceSpacing | SHYqpV1.py:488-491 | `np.linspace(a, b, n)` starts at `a`, ends at `b` and steps by `(b - a)/(n - 1)` |
| Bezier.Linspace | SHYqpV1.py:488-491 | `np.linspace(a, b, n)` has `n` entries |
| Bezier.EvalAllIsBernstein | SHYqpV1.py:495-499 | entry `[c][k]` is the Bezier curve of coordinate `c` at `vTT[k]` |
| Bezier.EvalAll | SHYqpV1.py:495-499 | one row per coordinate, one column per parameter |
| Bezier.CurveParams | SHYqpV1.py:487-491 | 101 parameters when plotting, `nTT` otherwise |
| Bezier.CurveSeg3 | SHYqpV1.py:481-499 | one row per coordinate and one column per parameter, 101 when plotting and `nTT` otherwise |
| Bezier.CurveSeg3Points | SHYqpV1.py:481-499 | every sample is the Bezier curve of its coordinate's control polygon at its parameter; a plotted segment starts at `Bs` and ends at `Be` |
| Bezier.CurveSegF | SHYqpV1.py:501-515 | entry `[c][k]` is the Bezier curve of coordinate `c` with one shape parameter at `vTT[k]` |
| Bezier.CurveSegFDF | SHYqpV1.py:517-533 | `f` as in `curveSegF`; `df[c][k]` is the formal derivative of `f`'s polynomial at `vTT[k]` |
| Bezier.Newton | SHYqpV1.py:551-561 | at most 500 steps; a stop before 500 means `abs(f) <= 1e-9` or `abs(df) < 1e-12`; a start already within `1e-9` stops at once |
| Bezier.InvertAllCarry | SHYqpV1.py:549-563 | result `k` is the Newton search for target `k` started where target `k-1`'s search ended (0 for the first) |
| Bezier.InvertAll | SHYqpV1.py:549-563 | one parameter per target |
| Bezier.Invert | SHYqpV1.py:550-561 | the inner while loop returns the Newton function's parameter |
| Bezier.CurveSegTheta | SHYqpV1.py:541-563 | the outer loop returns one parameter per target, in order, each search starting from the previous result |
| ShapeBound.Divide | SHYqpV1.py:709-710 | a non-zero divisor gives the quotient; a zero one gives +inf, -inf or NaN by the numerator's sign |
| ShapeBound.MinWith | SHYqpV1.py:822-823 | `min(x, bound)` for an accepted bound: at most `x` and the bound, one of them; an infinite bound leaves `x` |
| ShapeBound.NotParallel | SHYqpV1.py:708 | `ddet = 1 - m^2` is non-zero for `abs(m) < 1` |
| ShapeBound.ClosedPairOf | SHYqpV1.py:705-711 | `lambdaMax` in terms of the numerators over `ddet` |
| ShapeBound.LambdaMaxExpanded | SHYqpV1.py:705-711 | the numerators are `b.T1 - m b.T2` and `b.T2 - m b.T1` |
| ShapeBound.NormalEquations | SHYqpV1.py:709-710 | the pair solves the two normal equations of the closest points of the tangent lines |
| ShapeBound.ClosedPairNormal | SHYqpV1.py:705-711 | for non-parallel tangents the pair is finite and solves the normal equations |
| ShapeBound.GapOrthogonal | SHYqpV1.py:705-711 | the gap between the points at `2 t1` and `2 t2` along the tangents is orthogonal to both tangents |
| ShapeBound.LambdaMaxClosestPoints | SHYqpV1.py:705-711 | for unit non-parallel tangents both ratios are finite, and the gap between `p1 + 2 t1 T1` and `p2 - 2 t2 T2` is orthogonal to both tangents: these are the closest points of the two tangent lines |
| ShapeBound.LambdaMaxNegated | SHYqpV1.py:705-711 | negating both end points and both tangents leaves the pair unchanged |
| ShapeBound.Min | SHYqpV1.py:908 | Python's `min` on two reals |
| ShapeBound.MinWithCommute | SHYqpV1.py:822-823 | tightening against two bounds does not depend on their order |
| ShapeBound.ApplyEdge | SHYqpV1.py:819-828 | the edge is accepted iff both bounds are `> 0`; then only entries `k` and `k+1` change, each to `min(old, bound)` |
| ShapeBound.FoldEdges | SHYqpV1.py:817-837 | the six edges of a patch, 0->1 to 4->5 and the wrap-around 5->0, keep six entries |
| ShapeBound.FoldAll | SHYqpV1.py:810-837 | the patches in order keep six entries |
| ShapeBound.InitialBounds | SHYqpV1.py:808 | every entry starts at 1000 |
| ShapeBound.TightenBounds | SHYqpV1.py:817-837 | one patch never raises an entry, ends below every bound that reaches that vertex, and keeps a positive entry positive |
| ShapeBound.FoldEdgesAborts | SHYqpV1.py:824-828 | a rejected edge aborts the run |
| ShapeBound.FoldEdgesClosedForm | SHYqpV1.py:817-837 | a patch passes iff all six edges are accepted; then each vertex is tightened by both edges that meet there |
| ShapeBound.FoldEdgesAccepts | SHYqpV1.py:817-837 | a patch passes iff all six edges are accepted |
| ShapeBound.FoldAllAccepts | SHYqpV1.py:810-837 | the run passes iff every edge of every patch is accepted |
| ShapeBound.TightenStep | SHYqpV1.py:817-837 | one more patch keeps the running-minimum invariant |
| ShapeBound.FoldAllBounds | SHYqpV1.py:810-837 | a completed run is the running minimum of the start and every accepted bound at each vertex, and keeps positive entries positive |
| ShapeBound.FoldAllPrefixAborts | SHYqpV1.py:824-837 | once a prefix of the patches aborts, the whole run does |
| ShapeBound.FoldedBoundsInRange | SHYqpV1.py:808-837 | the bound vector exists iff every edge is accepted; then every entry lies in (0, 1000] and below every accepted bound at its vertex |
| ShapeBound.WithSide | SHYqpV1.py:880-887 | setting columns 3..5 keeps the patch well formed |
| ShapeBound.MirrorSide | SHYqpV1.py:811-816 | the negated columns 0..2 form a well-formed side |
| ShapeBound.MirrorSideMirrors | SHYqpV1.py:811-816 | mirroring makes columns 3..5 the negations of 0..2 and keeps 0..2 |
| ShapeBound.MirroredPatchEdges | SHYqpV1.py:811-837 | in a mirrored patch edge `k+3` has the same bounds as edge `k` |
| ShapeBound.MirroredEdge | SHYqpV1.py:811-837 | the same for one edge |
| ShapeBound.TightenMirrored | SHYqpV1.py:817-837 | on a mirrored patch vertex `i+3` is tightened exactly as vertex `i` |
| ShapeBound.FoldAllSymmetric | SHYqpV1.py:810-837 | folding mirrored patches into symmetric bounds keeps them symmetric |
| ShapeBound.SharedLayout | SHYqpV1.py:908-910 | `[aa, v1, aa, bb, v4, bb]` with `aa = min(v0, v2)` and `bb = min(v3, v5)`: every entry at most its own vertex's bound |
| ShapeBound.SymmetricLayoutAsWritten | SHYqpV1.py:839 | every entry of `[v0, v1, v0, v0, v1, v0]` is `v0` or `v1` |
| ShapeBound.MinOf | SHYqpV1.py:841 | `np.min`: an entry of the list and at most every entry |
| ShapeBound.FinalLayout | SHYqpV1.py:908-912 | with `shapeBAX == 0` all six entries are equal; otherwise the shared layout; every entry is one of the bounds and at most its own |
| ShapeBound.LayoutWithinBounds | SHYqpV1.py:908-912 | a layout of running minima is positive, at most 1000 and below every accepted bound at its vertex |
| ShapeBound.ProtoDataWithinBounds | SHYqpV1.py:807-912 | the shape vector exists iff every edge is accepted; every entry is then in (0, 1000] and below every accepted bound at its vertex |
| ShapeBound.MirroredLayout | SHYqpV1.py:809-842 | for mirrored patches and `shapeBAX != 0` the shape vector has the symmetric form `[a, b, a, a, b, a]` of the symmetric branch's layout |
| ShapeBound.ExamplePatch | SHYqpV1.py:811-816 | a concrete mirrored patch: points (1, 0, 0), (1, 1, 0), (0, 1, 0) with unit tangents (3/5, 4/5, 0), (-4/5, 3/5, 0), (-24/25, -7/25, 0), and their negations |
| ShapeBound.ExampleIsLifted | SHYqpV1.py:795-802 | the example's tension side is what the lift builds in the direction θ = 0, where the π-plane normal `vV` is (0, 0, 2), for unit stresses sT, sTb, sB and r-values r0 = 3, rTb = 4/3, r90 = 7/17: vertex 0 on the s11 axis, vertex 1 on the diagonal with z = 0, vertex 2 on the s22 axis, each tangent the unit vector along the direction that `vectorProd` gives there |
| ShapeBound.ClosedValues | SHYqpV1.py:705-711 | numerators equal to l1·ddet and l2·ddet over a non-zero ddet give the finite bounds l1 and l2 |
| ShapeBound.EqualEdgeBounds | SHYqpV1.py:705-711 | an edge with equal projections has two equal finite bounds |
| ShapeBound.ExampleEdgeValue | SHYqpV1.py:705-711 | the bounds of each edge of the example patch |
| ShapeBound.ExEdges | SHYqpV1.py:817-837 | the six edge bounds of the example |
| ShapeBound.ExampleTensionEdges | SHYqpV1.py:817-837 | the example patch is mirrored and its three tension edges have the example's bounds |
| ShapeBound.MirroredExampleEdges | SHYqpV1.py:811-837 | a mirrored patch whose tension edges match the example has the example's six edge bounds |
| ShapeBound.FoldSinglePatch | SHYqpV1.py:810-837 | one patch folds as its six edges |
| ShapeBound.FoldExampleEdges | SHYqpV1.py:817-837 | the fold of the example's edges from the initial bounds |
| ShapeBound.SymmetricLayoutExceedsBound | SHYqpV1.py:839 | a patch shaped like the example folds to `[2/5, 7/40, 1/6, 2/5, 7/40, 1/6]`; the symmetric layout then gives vertex 2 the value 2/5, above the accepted bound 1/6 at that vertex, while the shared layout is `[1/6, 7/40, 1/6, 1/6, 7/40, 1/6]` |
| ShapeBound.FinalLayoutAsWritten | SHYqpV1.py:839-841 | protoData's last step as written: for an asymmetric material the corrected layout; for a symmetric one `[v0, v1, v0, v0, v1, v0]`, or `min(v0, v1)` in all six places when `shapeBAX == 0` |
| ShapeBound.SymmetricLayoutAgrees | SHYqpV1.py:839 | on symmetric bounds with `shapeBAX != 0` the written and the corrected layouts agree iff `v0 <= v2` |
| ShapeBound.FlatLayoutAgrees | SHYqpV1.py:840-841 | on symmetric bounds with `shapeBAX == 0` they agree iff `min(v0, v1) <= v2` |
| ShapeBound.ProtoDataAsWrittenAgrees | SHYqpV1.py:807-912 | protoData as written succeeds iff the corrected one does; it returns the same vector for an asymmetric material, and for mirrored patches whenever the folded `v0` is at most `v1` and `v2` |
| ShapeBound.ProtoDataAsWrittenExceedsBound | SHYqpV1.py:839-841 | for a symmetric material with one patch shaped like the example (the lift at θ = 0, `ExampleIsLifted`), protoData as written returns 2/5 at vertex 2 when `shapeBAX != 0` and 7/40 everywhere when `shapeBAX == 0`, both above the bound 1/6 that the patch gives vertex 2; the corrected result is 1/6 there in both cases |
| ShapeBound.FlatLayoutExceedsBound | SHYqpV1.py:840-841 | with `shapeBAX == 0` the example's folded bounds become `min(v0, v1) = 7/40` everywhere as written, above `v2 = 1/6`, and 1/6 everywhere corrected |
| ShapeBound.ExampleLayouts | SHYqpV1.py:839 | the two layouts of the example's folded bounds |
| ShapeBound.Patch.Data | SHYqpV1.py:795-806 | a valid patch object reads as a well-formed six-column patch |
| ShapeBound.Patch.constructor | SHYqpV1.py:795-806 | a patch built from its tension side, columns 3..5 zero |
| ShapeBound.Patch.SetCompression | SHYqpV1.py:880-887 | columns 3..5 in place become the given compression side, nothing else changes |
| ShapeBound.Patch.Mirror | SHYqpV1.py:811-816 | columns 3..5 in place become the negated columns 0..2 |
| ShapeBound.FoldEdgesStep | SHYqpV1.py:819-828 | one edge of the fold: reject aborts, accept tightens and continues |
| ShapeBound.PatchEdgeAt | SHYqpV1.py:819 | edge `k` of a patch object is `lambdaMax` of its columns `k` and `k+1` |
| ShapeBound.FoldPatchBounds | SHYqpV1.py:817-837 | the in-place edge loop over `vLbdMax` succeeds iff the fold does, and then leaves the folded vector |
| ShapeBound.FoldPatchesSnoc | SHYqpV1.py:810-837 | folding one more patch |
| ShapeBound.ProtoDataStep | SHYqpV1.py:810-837 | one turn of the patch loop: success extends the fold, failure aborts the whole run |
| ShapeBound.FoldPatchesPrefixAborts | SHYqpV1.py:824-837 | an aborted prefix aborts the run |
| ShapeBound.AllData | SHYqpV1.py:810 | the patch objects read as a list of well-formed patches |
| ShapeBound.Complete | SHYqpV1.py:809-816 | a symmetric material's patch is mirrored; an asymmetric one takes the measured compression side; columns 0..2 never change |
| ShapeBound.Completed | SHYqpV1.py:809-887 | every patch completed |
| ShapeBound.CompletePatch | SHYqpV1.py:811-816 | completing a patch object in place |
| ShapeBound.CompleteAndFold | SHYqpV1.py:810-837 | complete one patch in place, then fold its edges into `vLbdMax` |
| ShapeBound.ProtoData | SHYqpV1.py:807-912 | the bound vector of the completed patches with the shared (corrected) layout for both materials, or None on the first rejected edge; on success every patch object holds its completed data |
| ProtoPoints.EffectiveShape | SHYqpV1.py:923 | `min(bound, lbd) * shapeVBAX` per vertex: for non-negative factors at most both scaled bounds and equal to one of them |
| ProtoPoints.EffectiveShapeMirrored | SHYqpV1.py:923 | mirrored inputs give a mirrored shape |
| ProtoPoints.ProtoShapeMirrored | SHYqpV1.py:922-923 | mirrored patches with mirrored caller bounds and factors give a mirrored shape |
| ProtoPoints.SegmentRows | SHYqpV1.py:929-933 | `curveSeg3(..., False, n).T` has `n` rows |
| ProtoPoints.SegmentRowsAt | SHYqpV1.py:929-933 | row `i` is the edge's curve at the `i`-th of `n` parameters from 0.2 to 0.8 |
| ProtoPoints.OffsetIsProduct | SHYqpV1.py:931 | the cursor after `j` blocks of `w` rows is `j w` |
| ProtoPoints.OffsetMonotone | SHYqpV1.py:931 | the cursor only moves forward |
| ProtoPoints.ConcatAt | SHYqpV1.py:929-934 | row `i` of block `j` sits at `j w + i` |
| ProtoPoints.FlattenAt | SHYqpV1.py:927-934 | row `i` of edge `k` of patch `j` sits at `(6 j + k) n + i` |
| ProtoPoints.PatchSegments | SHYqpV1.py:928-933 | six edges of `n` rows each |
| ProtoPoints.PatchBlock | SHYqpV1.py:928-934 | a patch writes `6 n` rows |
| ProtoPoints.CloudFlattens | SHYqpV1.py:927-934 | the rows written are the edges of every patch in order |
| ProtoPoints.CloudLength | SHYqpV1.py:927-934 | the rows written number `6 n` per patch |
| ProtoPoints.PatchPoint | SHYqpV1.py:927-934 | the row at the cursor of edge `k` of patch `j` is that edge's `i`-th point |
| ProtoPoints.SlotFormula | SHYqpV1.py:926-934 | the running cursor equals `(6 j + k) n + i` |
| ProtoPoints.CloudPoint | SHYqpV1.py:927-934 | the row in slot `(j, k, i)` is point `i` of edge `k` of patch `j` |
| ProtoPoints.CurvePointNegated | SHYqpV1.py:929-933 | a segment between negated points and tangents is the negated segment |
| ProtoPoints.EdgeMirrored | SHYqpV1.py:929-933 | on a mirrored patch with a mirrored shape, edge `k+3` is edge `k` negated |
| ProtoPoints.CloudPointReflection | SHYqpV1.py:927-934 | for a symmetric material the compression half of every patch's rows is the tension half negated |
| ProtoPoints.WriteRows | SHYqpV1.py:929 | `vYSpoints[at:at+len(rows)] = rows` changes exactly that slice |
| ProtoPoints.WritePatch | SHYqpV1.py:928-934 | the inner loop writes the patch's `6 n` rows at the cursor and advances it by `6 n`, leaving the rest |
| ProtoPoints.FillPatch | SHYqpV1.py:927-934 | one patch goes right after the rows already written |
| ProtoPoints.FillPatches | SHYqpV1.py:927-934 | the patch loop writes the whole cloud at the front of the buffer |
| ProtoPoints.PaddedPrefix | SHYqpV1.py:925 | rows written over a zero buffer leave zero rows behind them |
| ProtoPoints.FillCloud | SHYqpV1.py:925-935 | a buffer of `(nSections - 1) 6 n` rows: the cloud first, zero rows after it |
| CoeffLayout.FixedCoefficients | SHYqpV1.py:1260-1263 | None iff `sC0 == 0`, `rT0 == -1` or `rC0 == -1`; otherwise `cP0 = -cQ0`, `1 + cQ0 - cP0 = 1/sC0`, `sq3 (cQ1 + cP1) = rt` and `sq3 (cQ1 - cP1) = rc` |
| CoeffLayout.FixedCoefficientsSymm | SHYqpV1.py:1494-1496 | None iff `rT0 == -1`; otherwise `cP0 = cP1 = cQ0 = 0` and `sq3 cQ1 = rt` |
| CoeffLayout.SlotOnto | SHYqpV1.py:1476-1477 | every index that is not fixed is the slot of exactly one packed unknown |
| CoeffLayout.Pack | SHYqpV1.py:1163 | the packed row has four entries fewer, and entry `j` is the row's entry at the non-fixed slot `j` |
| CoeffLayout.Unpack | SHYqpV1.py:1476-1477 | the fixed coefficients sit at 0, 1, `nP`, `nP+1`, and `vsq[j]` sits at slot `j` |
| CoeffLayout.PackUnpack | SHYqpV1.py:1476-1477 | packing the reassembled vector returns the solution |
| CoeffLayout.UnpackPack | SHYqpV1.py:1476-1477 | a full vector is its packed unknowns reassembled with its own fixed coefficients |
| CoeffLayout.DotSplit | SHYqpV1.py:1163-1164 | full row against the reassembled vector = packed row against the solution + the fixed part |
| CoeffLayout.GenConstraints | SHYqpV1.py:1161-1164 | `MCC` and `MUB` have a row per constraint, and `MCC` has `nCol - 4` columns |
| CoeffLayout.ConstraintRow | SHYqpV1.py:1161-1164 | a packed constraint holds iff the full row against the reassembled coefficients is at most `1 - epsilon` |
| CoeffLayout.ConstraintsEquivalent | SHYqpV1.py:1161-1164 | the packed program is feasible at `vsq` iff the reassembled coefficients meet every full constraint |
| CoeffLayout.FillDataRows | SHYqpV1.py:1309-1319 | through `kRow`, row `k` of `AA` is the packed row and `BB[k]` is the target minus the fixed part |
| CoeffLayout.DataResidual | SHYqpV1.py:1316-1317 | a packed data row's residual equals the full row's residual against the reassembled coefficients |
| CoeffLayout.Reassemble | SHYqpV1.py:1476-1477 | the `vCoeff` written in place is the reassembled vector |
| CoeffLayout.PackSymm | SHYqpV1.py:1551 | `vv[2:]`: the row without its first two columns |
| CoeffLayout.UnpackSymm | SHYqpV1.py:1624-1625 | the symmetric `vCoeff` has `nP + nQ` entries |
| CoeffLayout.SymmIsGeneral | SHYqpV1.py:1624-1625 | the symmetric layout is the general one with `P = 0` |
| CoeffLayout.DotSplitSymm | SHYqpV1.py:1236-1237 | Q row against the Q block of the reassembled vector = packed row against the solution + `cQ1 vv[1]` |
| CoeffLayout.GenConstraintsSymm | SHYqpV1.py:1234-1237 | `MCC` has `nQ - 2` columns and a row per constraint |
| CoeffLayout.ConstraintRowSymm | SHYqpV1.py:1234-1237 | a packed symmetric constraint holds iff the full Q row against the reassembled Q block is at most `1 - epsilon` |
| CoeffLayout.ConstraintsEquivalentSymm | SHYqpV1.py:1234-1237 | the packed symmetric program is feasible iff the reassembled coefficients meet every full constraint |
| CoeffLayout.FillDataRowsSymm | SHYqpV1.py:1551-1554 | through `kRow`, `AA[k] = vv[2:]` and `BB[k] = target - cQ1 vv[1]` |
| CoeffLayout.ReassembleSymm | SHYqpV1.py:1624-1625 | the `vCoeff` written in place is the symmetric reassembled vector |

## Left out

- `readData`, `prtData`, `prtMonomials`, every plotting and report
  function, and `SHYqp_main.py` are left out. They do file I/O, printing and
  plotting. Of `readData` only the degree whitelist (`Monomials.AcceptedDegree`)
  is modelled.
- Trigonometry and square roots are left out.
  - `uaxLambda`, `protoTheta` and the PI-plane lifts and `vectorProd` in
    `protoData` are not modelled, so the patches' points and tangents, and
    the compression sides, are inputs.
  - The square root of 3 in the fixed coefficients is a positive parameter
    `sq3`.
  - The stress directions and the sphere grid of the constraint points are
    left out too, so constraint and data rows of monomial values are inputs.
- The quadratic program is left out: `quadprog.solve_qp` and
  `cvxopt.solvers.qp` are foreign calls. The solution `vsq` is an input of
  the reassembly.
  - The weights `vecDiag` and the products `MAA`, `MBB` are left out as well.
- The constraint-point generators `genConstraintsPoints2D`,
  `genConstraintsPoints2DOpt` and `genConstraintsPoints2DOptPoints` are left
  out. They use trigonometry. So are the loops of `genConstraints2D` that
  evaluate monomials at those points.
- `SHYqp_Predictions`, `bxCurve2`, `getCoeff` and the test and plot helpers
  are left out. They read files, print, plot or use trigonometry.
- `SHYqp_HessGaussCheck` is left out. It uses floating-point sums and random
  sampling.
- Floating-point rounding is not modelled. Reals stand in for float64, and
  the Newton tolerances `1e-9` and `1e-12` are exact rationals.
- The abort paths are `None` results. Their messages are not modelled. These
  messages would themselves raise `NameError`, because they name `lbd` and
  `sqSolver`, which are undefined there.
- `CoeffLayout.Unpack` and `CoeffLayout.Reassemble` size `vCoeff` as
  `|vsq| + 4`. The source sizes it as `nCol`. The two agree because the
  solver returns `nCol - 4` unknowns. Both members require
  `2 <= nP <= |vsq| + 2`, which holds for every accepted degree
  (`nP >= 6`).
- `ProtoPoints.FillCloud` requires `|patches| <= nSections - 1`, the number
  of patches `protoTheta` yields. With more patches the source's slice
  assignment would go past the buffer.
- `ShapeBound.ProtoData` requires, for an asymmetric material, one
  compression side per patch, which the second loop of `protoData` supplies.
- `ShapeBound.ProtoData` lays out a symmetric material's bounds with the
  corrected shared layout, not as SHYqpV1.py:839-841 do (see "## Findings").
  The source's result is `ShapeBound.ProtoDataSpecAsWritten`. The two differ
  at vertices 2 and 5 when `v2 < v0`. With `shapeBAX == 0` they differ everywhere
  when `v2 < min(v0, v1)`. `ShapeBound.ProtoDataAsWrittenAgrees` states when
  they agree. `ProtoPoints.ProtoShapeMirrored` is stated for the corrected
  layout as well.
- `Bezier.CurveSeg3`, `Bezier.Segment` and the other Bezier functions state
  their geometric facts in separate lemmas. `Bezier.SegmentEnds`,
  `Bezier.CurveSeg3Points` and `Bezier.EvalDIsDerivative` are the
  contracts.
- `curveSeg` (SHYqpV1.py:461) and `lambdaMaxDebug` are left out. The first
  is superseded by `curveSeg3`; the second prints.
- The second `lambdaMax` at SHYqpV1.py:452 is inside a string literal and is
  dead code.

## Findings

| source | as written | input that shows it | evidently intended | confidence | as-written member | corrected member |
|---|---|---|---|---|---|---|
| SHYqpV1.py:839-841 | for a symmetric material the shape vector is `[v0, v1, v0, v0, v1, v0]`, so vertex 2 takes `v0` and ignores its own running minimum `v2`; with `shapeBAX == 0` every entry becomes `min(v0, v1)`, which again ignores `v2` | the patch that lines 795-802 and 811-816 build in the direction θ = 0 (the first direction of every run) for a material with unit stresses sT, sTb, sB and r-values r0 = 3, rTb = 4/3, r90 = 7/17 (`ShapeBound.ExamplePatch`, `ShapeBound.ExampleIsLifted`). Its edges are accepted with bounds (2/5, 3/10), (7/40, 3/8) and (1/6, 17/30). The fold gives `[2/5, 7/40, 1/6, 2/5, 7/40, 1/6]`. Vertex 2's accepted bound is therefore 1/6, but protoData returns 2/5 there when `shapeBAX != 0` and 7/40 everywhere when `shapeBAX == 0`. This patch is the whole run for `protoData(uaxData, 1)`, since `np.linspace(0, 45, 1)` is `[0]`. The callers use nSections = 11, 15 or 31, and whether their other directions keep v2 below v0 is not shown. The tangents are exact only in exact arithmetic: `np.cos(np.pi/2)` is not exactly 0 | the asymmetric branch's `[aa, v1, aa, bb, v4, bb]` with `aa = min(v0, v2)`, and its minimum when `shapeBAX == 0`; for mirrored patches it is symmetric and respects every bound | medium (not executed) | ShapeBound.ProtoDataAsWrittenExceedsBound | ShapeBound.ProtoDataWithinBounds |
