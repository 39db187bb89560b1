/** The point cloud of the biaxial proto-model (SHYqpV1.py: protoDataPoints).
    Every patch contributes its six edges, in the order 0->1, ..., 4->5 and
    the wrap-around edge 5->0; each edge is the quintic segment between its
    two vertices, shaped by the bounds of its two end vertices, sampled at
    nPointsSegment parameters over [0.2, 0.8].  A cursor jj walks through a
    zero-initialised buffer of (nSections - 1) * 6 * nPointsSegment rows. */
module ProtoPoints {
  import opened Vectors
  import opened Space
  import opened Bezier
  import opened ShapeBound

  /** The shape vector used for the cloud: the smaller of the protoData bound
      and the caller's bound, vertex by vertex, scaled by the biaxial shape
      factors. */
  function EffectiveShape(bound: seq<real>, lbd: seq<real>, shapeVBAX: seq<real>): (r: seq<real>)
    requires |bound| == 6 && |lbd| == 6 && |shapeVBAX| == 6
    ensures |r| == 6
    ensures forall k :: 0 <= k < 6 && shapeVBAX[k] >= 0.0 ==>
      r[k] <= bound[k] * shapeVBAX[k] && r[k] <= lbd[k] * shapeVBAX[k] &&
      (r[k] == bound[k] * shapeVBAX[k] || r[k] == lbd[k] * shapeVBAX[k])
  {
    seq(6, k requires 0 <= k < 6 => Min(bound[k], lbd[k]) * shapeVBAX[k])
  }

  /** A six-entry vector whose compression half repeats its tension half. */
  predicate MirroredShape(v: seq<real>)
    requires |v| == 6
  {
    v[3] == v[0] && v[4] == v[1] && v[5] == v[2]
  }

  /** Mirrored bounds and mirrored shape factors give a mirrored shape. */
  lemma EffectiveShapeMirrored(bound: seq<real>, lbd: seq<real>, shapeVBAX: seq<real>)
    requires |bound| == 6 && |lbd| == 6 && |shapeVBAX| == 6
    requires MirroredShape(bound) && MirroredShape(lbd) && MirroredShape(shapeVBAX)
    ensures MirroredShape(EffectiveShape(bound, lbd, shapeVBAX))
  {
  }

  /** With mirrored patches, the protoData bound, a mirrored caller bound
      and mirrored shape factors (such as [V0, V1, V0, V0, V1, V0]) give a
      mirrored shape. */
  lemma ProtoShapeMirrored(ps: seq<PatchData>, shapeBAX: real, lbd: seq<real>, shapeVBAX: seq<real>)
    requires AllWellFormed(ps) && forall j :: 0 <= j < |ps| ==> IsMirrored(ps[j])
    requires ProtoDataSpec(ps, shapeBAX).Some?
    requires |lbd| == 6 && |shapeVBAX| == 6 && MirroredShape(lbd) && MirroredShape(shapeVBAX)
    ensures var bound := ProtoDataSpec(ps, shapeBAX).value;
      |bound| == 6 && MirroredShape(EffectiveShape(bound, lbd, shapeVBAX))
  {
    var bound := ProtoDataSpec(ps, shapeBAX).value;
    assert |bound| == 6;
    if shapeBAX != 0.0 {
      MirroredLayout(ps, shapeBAX);
    }
    EffectiveShapeMirrored(bound, lbd, shapeVBAX);
  }

  /** The point of the segment from a (tangent ta, shape la) to b (tangent
      tb, shape lb) at parameter t, coordinate by coordinate. */
  function CurvePoint(a: V3, ta: V3, b: V3, tb: V3, la: real, lb: real, t: real): V3
  {
    V3(Bernstein(Controls(a.x, ta.x, b.x, tb.x, la, lb), t),
       Bernstein(Controls(a.y, ta.y, b.y, tb.y, la, lb), t),
       Bernstein(Controls(a.z, ta.z, b.z, tb.z, la, lb), t))
  }

  /** The rows curveSeg3(..., plot = False, n).T of edge k of a patch. */
  function SegmentRows(p: PatchData, shape: seq<real>, k: nat, n: nat): (rows: seq<V3>)
    requires WellFormed(p) && |shape| == 6 && k < 6
    ensures |rows| == n
  {
    seq(n, i requires 0 <= i < n =>
      var r := CurveSeg3(AsVec(p.points[k]), AsVec(p.tangents[k]), AsVec(p.points[Next(k)]), AsVec(p.tangents[Next(k)]),
                         shape[k], shape[Next(k)], false, n);
      V3(r[0][i], r[1][i], r[2][i]))
  }

  /** Row i of an edge is the segment's point at the i-th of n parameters
      spread evenly over [0.2, 0.8]. */
  lemma SegmentRowsAt(p: PatchData, shape: seq<real>, k: nat, n: nat, i: nat)
    requires WellFormed(p) && |shape| == 6 && k < 6 && i < n
    ensures SegmentRows(p, shape, k, n)[i] == EdgePoint(p, shape, k, Linspace(0.2, 0.8, n)[i])
  {
    CurveSeg3Points(AsVec(p.points[k]), AsVec(p.tangents[k]), AsVec(p.points[Next(k)]), AsVec(p.tangents[Next(k)]),
                    shape[k], shape[Next(k)], false, n);
  }

  /** The cursor position after j blocks of w rows: j w, as the running sum
      jj += w computes it. */
  function Offset(j: nat, w: nat): nat
  {
    if j == 0 then 0 else Offset(j - 1, w) + w
  }

  lemma {:induction false} OffsetIsProduct(j: nat, w: nat)
    ensures Offset(j, w) == j * w
  {
    if j > 0 {
      OffsetIsProduct(j - 1, w);
      assert j * w == (j - 1) * w + w;
    }
  }

  lemma {:induction false} OffsetMonotone(j: nat, c: nat, w: nat)
    requires j <= c
    ensures Offset(j, w) <= Offset(c, w)
  {
    if j < c {
      OffsetMonotone(j, c - 1, w);
    }
  }

  /** Blocks of rows written one after the other. */
  function Concat(blocks: seq<seq<V3>>): seq<V3>
  {
    if blocks == [] then [] else Concat(blocks[..|blocks| - 1]) + blocks[|blocks| - 1]
  }

  predicate Uniform(blocks: seq<seq<V3>>, w: nat)
  {
    forall q :: 0 <= q < |blocks| ==> |blocks[q]| == w
  }

  lemma {:induction false} ConcatLength(blocks: seq<seq<V3>>, w: nat)
    requires Uniform(blocks, w)
    ensures |Concat(blocks)| == Offset(|blocks|, w)
  {
    if blocks != [] {
      ConcatLength(blocks[..|blocks| - 1], w);
    }
  }

  /** Row i of block j sits at j w + i when every block has w rows. */
  lemma {:induction false} ConcatAt(blocks: seq<seq<V3>>, w: nat, j: nat, i: nat)
    requires Uniform(blocks, w) && j < |blocks| && i < w
    ensures Offset(j, w) + i < |Concat(blocks)| && Concat(blocks)[Offset(j, w) + i] == blocks[j][i]
  {
    var init := blocks[..|blocks| - 1];
    ConcatLength(init, w);
    if j < |init| {
      ConcatAt(init, w, j, i);
      assert init[j] == blocks[j];
    }
  }

  lemma ConcatSnoc(blocks: seq<seq<V3>>, j: nat)
    requires j < |blocks|
    ensures Concat(blocks[..j + 1]) == Concat(blocks[..j]) + blocks[j]
  {
    assert blocks[..j + 1][..j] == blocks[..j];
  }

  /** A table of patches, each a list of six edges of n rows. */
  predicate Table(t: seq<seq<seq<V3>>>, n: nat)
  {
    forall j :: 0 <= j < |t| ==> |t[j]| == 6 && Uniform(t[j], n)
  }

  /** Every patch's edges written one after the other, patch after patch. */
  function Flatten(t: seq<seq<seq<V3>>>): seq<V3>
  {
    Concat(seq(|t|, j requires 0 <= j < |t| => Concat(t[j])))
  }

  /** Row i of edge k of patch j sits at (6 j + k) n + i, written as running sums. */
  lemma FlattenAt(t: seq<seq<seq<V3>>>, n: nat, j: nat, k: nat, i: nat)
    requires Table(t, n) && j < |t| && k < 6 && i < n
    ensures Offset(j, Offset(6, n)) + Offset(k, n) + i < |Flatten(t)| &&
      Flatten(t)[Offset(j, Offset(6, n)) + Offset(k, n) + i] == t[j][k][i]
  {
    var blocks := seq(|t|, j requires 0 <= j < |t| => Concat(t[j]));
    forall q | 0 <= q < |t| ensures |blocks[q]| == Offset(6, n) {
      ConcatLength(t[q], n);
    }
    ConcatAt(t[j], n, k, i);
    ConcatLength(t[j], n);
    ConcatAt(blocks, Offset(6, n), j, Offset(k, n) + i);
  }

  lemma {:induction false} FlattenLength(t: seq<seq<seq<V3>>>, n: nat)
    requires Table(t, n)
    ensures |Flatten(t)| == Offset(|t|, Offset(6, n))
  {
    var blocks := seq(|t|, j requires 0 <= j < |t| => Concat(t[j]));
    forall q | 0 <= q < |t| ensures |blocks[q]| == Offset(6, n) {
      ConcatLength(t[q], n);
    }
    ConcatLength(blocks, Offset(6, n));
  }

  /** The six edges of a patch, 0->1, ..., 4->5 and 5->0. */
  function PatchSegments(p: PatchData, shape: seq<real>, n: nat): (segs: seq<seq<V3>>)
    requires WellFormed(p) && |shape| == 6
    ensures |segs| == 6 && Uniform(segs, n)
  {
    seq(6, k requires 0 <= k < 6 => SegmentRows(p, shape, k, n))
  }

  /** The edges of every patch. */
  function Segments(ps: seq<PatchData>, shape: seq<real>, n: nat): (t: seq<seq<seq<V3>>>)
    requires AllWellFormed(ps) && |shape| == 6
    ensures |t| == |ps| && Table(t, n)
  {
    seq(|ps|, j requires 0 <= j < |ps| => PatchSegments(ps[j], shape, n))
  }

  /** The 6 n rows of one patch, edge after edge. */
  function PatchBlock(p: PatchData, shape: seq<real>, n: nat): (b: seq<V3>)
    requires WellFormed(p) && |shape| == 6
    ensures |b| == Offset(6, n)
  {
    ConcatLength(PatchSegments(p, shape, n), n);
    Concat(PatchSegments(p, shape, n))
  }

  /** The rows of every patch, patch by patch. */
  function Blocks(ps: seq<PatchData>, shape: seq<real>, n: nat): (bs: seq<seq<V3>>)
    requires AllWellFormed(ps) && |shape| == 6
    ensures |bs| == |ps| && Uniform(bs, Offset(6, n))
  {
    seq(|ps|, j requires 0 <= j < |ps| => PatchBlock(ps[j], shape, n))
  }

  /** The rows protoDataPoints writes, before the zero padding. */
  function Cloud(ps: seq<PatchData>, shape: seq<real>, n: nat): (rows: seq<V3>)
    requires AllWellFormed(ps) && |shape| == 6
  {
    Concat(Blocks(ps, shape, n))
  }

  /** The cloud is the table of edges flattened. */
  lemma CloudFlattens(ps: seq<PatchData>, shape: seq<real>, n: nat)
    requires AllWellFormed(ps) && |shape| == 6
    ensures Cloud(ps, shape, n) == Flatten(Segments(ps, shape, n))
  {
    var t := Segments(ps, shape, n);
    assert Blocks(ps, shape, n) == seq(|t|, j requires 0 <= j < |t| => Concat(t[j]));
  }

  /** The cloud holds 6 n rows per patch. */
  lemma CloudLength(ps: seq<PatchData>, shape: seq<real>, n: nat)
    requires AllWellFormed(ps) && |shape| == 6
    ensures |Cloud(ps, shape, n)| == |ps| * (6 * n)
  {
    ConcatLength(Blocks(ps, shape, n), Offset(6, n));
    OffsetIsProduct(6, n);
    OffsetIsProduct(|ps|, 6 * n);
  }

  /** Row i of edge k of patch j, at cursor position (6 j + k) n + i written
      as running sums. */
  lemma PatchPoint(ps: seq<PatchData>, shape: seq<real>, n: nat, j: nat, k: nat, i: nat)
    requires AllWellFormed(ps) && |shape| == 6 && j < |ps| && k < 6 && i < n
    ensures Offset(j, Offset(6, n)) + Offset(k, n) + i < |Cloud(ps, shape, n)| &&
      Cloud(ps, shape, n)[Offset(j, Offset(6, n)) + Offset(k, n) + i] == SegmentRows(ps[j], shape, k, n)[i]
  {
    CloudFlattens(ps, shape, n);
    FlattenAt(Segments(ps, shape, n), n, j, k, i);
  }

  /** Point t of edge k of a patch. */
  function EdgePoint(p: PatchData, shape: seq<real>, k: nat, t: real): V3
    requires WellFormed(p) && |shape| == 6 && k < 6
  {
    CurvePoint(p.points[k], p.tangents[k], p.points[Next(k)], p.tangents[Next(k)], shape[k], shape[Next(k)], t)
  }

  /** The cursor position of row i of edge k of patch j, as the running sums
      jj += nPointsSegment reach it. */
  function Slot(j: nat, k: nat, i: nat, n: nat): nat
  {
    Offset(j, Offset(6, n)) + Offset(k, n) + i
  }

  /** The cursor formula: the slot is (6 j + k) n + i. */
  lemma SlotFormula(j: nat, k: nat, i: nat, n: nat)
    ensures Slot(j, k, i, n) == (6 * j + k) * n + i
  {
    OffsetIsProduct(6, n);
    OffsetIsProduct(j, 6 * n);
    OffsetIsProduct(k, n);
    assert j * (6 * n) + k * n == (6 * j + k) * n;
  }

  /** The row in slot (j, k, i) of the cloud is point i of edge k of patch j. */
  lemma CloudPoint(ps: seq<PatchData>, shape: seq<real>, n: nat, j: nat, k: nat, i: nat)
    requires AllWellFormed(ps) && |shape| == 6 && j < |ps| && k < 6 && i < n
    ensures Slot(j, k, i, n) < |Cloud(ps, shape, n)| &&
      Cloud(ps, shape, n)[Slot(j, k, i, n)] == EdgePoint(ps[j], shape, k, Linspace(0.2, 0.8, n)[i])
  {
    PatchPoint(ps, shape, n, j, k, i);
    SegmentRowsAt(ps[j], shape, k, n, i);
  }

  lemma CurvePointNegated(a: V3, ta: V3, b: V3, tb: V3, la: real, lb: real, t: real)
    ensures CurvePoint(Neg3(a), Neg3(ta), Neg3(b), Neg3(tb), la, lb, t) == Neg3(CurvePoint(a, ta, b, tb, la, lb, t))
  {
    SegmentNegated(a.x, ta.x, b.x, tb.x, la, lb, t);
    SegmentNegated(a.y, ta.y, b.y, tb.y, la, lb, t);
    SegmentNegated(a.z, ta.z, b.z, tb.z, la, lb, t);
  }

  /** On a mirrored patch with a mirrored shape, edge k + 3 is the point
      reflection of edge k (the wrap-around edge 5->0 reflects edge 2->3). */
  lemma EdgeMirrored(p: PatchData, shape: seq<real>, k: nat, t: real)
    requires WellFormed(p) && IsMirrored(p) && |shape| == 6 && MirroredShape(shape) && k < 3
    ensures EdgePoint(p, shape, k + 3, t) == Neg3(EdgePoint(p, shape, k, t))
  {
    var a, ta := p.points[k], p.tangents[k];
    var b, tb := p.points[Next(k)], p.tangents[Next(k)];
    assert p.points[k + 3] == Neg3(a) && p.tangents[k + 3] == Neg3(ta);
    if k < 2 {
      NextBelow(k);
      NextBelow(k + 3);
      assert p.points[Next(k + 3)] == Neg3(b) && p.tangents[Next(k + 3)] == Neg3(tb);
    } else {
      NextBelow(2);
      assert Next(5) == 0;
      assert p.points[0] == Neg3(b) && p.tangents[0] == Neg3(tb);
    }
    CurvePointNegated(a, ta, b, tb, shape[k], shape[Next(k)], t);
  }

  /** For a symmetric material the compression half of every patch's rows is
      the point reflection of its tension half. */
  lemma CloudPointReflection(ps: seq<PatchData>, shape: seq<real>, n: nat, j: nat, k: nat, i: nat)
    requires AllWellFormed(ps) && |shape| == 6 && MirroredShape(shape)
    requires j < |ps| && IsMirrored(ps[j]) && k < 3 && i < n
    ensures var rows := Cloud(ps, shape, n);
      Slot(j, k + 3, i, n) < |rows| && Slot(j, k, i, n) < |rows| &&
      rows[Slot(j, k + 3, i, n)] == Neg3(rows[Slot(j, k, i, n)])
  {
    CloudPoint(ps, shape, n, j, k, i);
    CloudPoint(ps, shape, n, j, k + 3, i);
    EdgeMirrored(ps[j], shape, k, Linspace(0.2, 0.8, n)[i]);
  }

  // ---------------------------------------------------------------------
  // The cursor fill

  /** vYSpoints[at:at+len(rows)] = rows */
  method WriteRows(buffer: array<V3>, at: nat, rows: seq<V3>)
    requires at + |rows| <= buffer.Length
    modifies buffer
    ensures buffer[..] == old(buffer[..at]) + rows + old(buffer[at + |rows|..])
  {
    forall i | 0 <= i < |rows| {
      buffer[at + i] := rows[i];
    }
    assert buffer[..] == old(buffer[..at]) + rows + old(buffer[at + |rows|..]);
  }

  /** The segment written by the cursor at edge k of patch j fits the buffer. */
  lemma ProductBound(sections: nat, n: nat)
    ensures Offset(sections, Offset(6, n)) == sections * 6 * n
  {
    OffsetIsProduct(6, n);
    OffsetIsProduct(sections, 6 * n);
    assert sections * (6 * n) == sections * 6 * n;
  }

  /** Writing rows right after the rows already written at the cursor. */
  lemma Splice(orig: seq<V3>, at: nat, written: seq<V3>, rows: seq<V3>, buf: seq<V3>, next: seq<V3>)
    requires at + |written| + |rows| <= |orig|
    requires buf == orig[..at] + written + orig[at + |written|..]
    requires next == buf[..at + |written|] + rows + buf[at + |written| + |rows|..]
    ensures next == orig[..at] + (written + rows) + orig[at + |written| + |rows|..]
  {
    assert buf[..at + |written|] == orig[..at] + written;
    assert buf[at + |written| + |rows|..] == orig[at + |written| + |rows|..];
  }

  /** The body of the loop over patches: the five edges 0->1 .. 4->5, then
      the wrap-around edge 5->0, each written at the cursor, which advances
      by n rows per edge. */
  method WritePatch(cloud: array<V3>, at: nat, p: PatchData, shape: seq<real>, n: nat) returns (jj: nat)
    requires WellFormed(p) && |shape| == 6 && at + Offset(6, n) <= cloud.Length
    modifies cloud
    ensures jj == at + Offset(6, n)
    ensures cloud[..] == old(cloud[..at]) + PatchBlock(p, shape, n) + old(cloud[at + Offset(6, n)..])
  {
    ghost var segs := PatchSegments(p, shape, n);
    ghost var orig := cloud[..];
    jj := at;
    for kk := 0 to 6
      invariant jj == at + Offset(kk, n) && jj <= at + Offset(6, n)
      invariant |Concat(segs[..kk])| == Offset(kk, n)
      invariant cloud[..] == orig[..at] + Concat(segs[..kk]) + orig[jj..]
    {
      OffsetMonotone(kk + 1, 6, n);
      var rows := SegmentRows(p, shape, kk, n);
      ghost var written := Concat(segs[..kk]);
      ghost var buf := cloud[..];
      assert jj == at + |written| && buf == orig[..at] + written + orig[at + |written|..];
      WriteRows(cloud, jj, rows);
      Splice(orig, at, written, rows, buf, cloud[..]);
      ConcatSnoc(segs, kk);
      jj := jj + n;
    }
    assert segs[..6] == segs;
  }

  /** One turn of the loop over patches keeps "the first j blocks are
      written, the rest of the buffer is untouched". */
  lemma PatchStep(orig: seq<V3>, blocks: seq<seq<V3>>, j: nat, w: nat, buf: seq<V3>, next: seq<V3>)
    requires Uniform(blocks, w) && j < |blocks| && Offset(j + 1, w) <= |orig| && |buf| == |orig|
    requires buf == Concat(blocks[..j]) + orig[Offset(j, w)..]
    requires next == buf[..Offset(j, w)] + blocks[j] + buf[Offset(j, w) + w..]
    ensures next == Concat(blocks[..j + 1]) + orig[Offset(j + 1, w)..]
  {
    ConcatLength(blocks[..j], w);
    Splice(orig, 0, Concat(blocks[..j]), blocks[j], buf, next);
    ConcatSnoc(blocks, j);
    assert orig[..0] + (Concat(blocks[..j]) + blocks[j]) == Concat(blocks[..j + 1]);
  }

  /** One turn of the loop over patches: patch j goes right after the
      patches before it. */
  method FillPatch(cloud: array<V3>, jj: nat, patches: seq<PatchData>, j: nat, shape: seq<real>, n: nat,
                   ghost orig: seq<V3>, ghost blocks: seq<seq<V3>>) returns (next: nat)
    requires AllWellFormed(patches) && |shape| == 6 && j < |patches| && blocks == Blocks(patches, shape, n)
    requires jj == Offset(j, Offset(6, n)) && Offset(j + 1, Offset(6, n)) <= cloud.Length == |orig|
    requires cloud[..] == Concat(blocks[..j]) + orig[jj..]
    modifies cloud
    ensures next == Offset(j + 1, Offset(6, n))
    ensures cloud[..] == Concat(blocks[..j + 1]) + orig[next..]
  {
    ghost var buf := cloud[..];
    next := WritePatch(cloud, jj, patches[j], shape, n);
    PatchStep(orig, blocks, j, Offset(6, n), buf, cloud[..]);
  }

  /** The loop over patches: patch j's six edges go to rows 6 n j onwards,
      and nothing past the last patch is touched. */
  method FillPatches(cloud: array<V3>, patches: seq<PatchData>, shape: seq<real>, n: nat)
    requires AllWellFormed(patches) && |shape| == 6
    requires Offset(|patches|, Offset(6, n)) <= cloud.Length
    modifies cloud
    ensures cloud[..] == Cloud(patches, shape, n) + old(cloud[Offset(|patches|, Offset(6, n))..])
  {
    ghost var blocks := Blocks(patches, shape, n);
    ghost var orig := cloud[..];
    var jj := 0;
    for j := 0 to |patches|
      invariant jj == Offset(j, Offset(6, n)) <= Offset(|patches|, Offset(6, n))
      invariant cloud[..] == Concat(blocks[..j]) + orig[jj..]
    {
      OffsetMonotone(j + 1, |patches|, Offset(6, n));
      jj := FillPatch(cloud, jj, patches, j, shape, n, orig, blocks);
    }
    assert blocks[..|patches|] == blocks;
  }

  /** A buffer of zero rows whose front was overwritten by rows. */
  lemma PaddedPrefix(rows: seq<V3>, zeros: seq<V3>, after: seq<V3>)
    requires |rows| <= |zeros| && after == rows + zeros[|rows|..]
    requires forall m :: 0 <= m < |zeros| ==> zeros[m] == Origin
    ensures |after| == |zeros| && after[..|rows|] == rows
    ensures forall m :: |rows| <= m < |after| ==> after[m] == Origin
  {
    assert after[..|rows|] == rows;
    forall m | |rows| <= m < |after| ensures after[m] == Origin {
      assert after[m] == zeros[m];
    }
  }

  /** protoDataPoints after protoData: a buffer of (nSections - 1) * 6 * n
      zero rows, filled patch by patch through the cursor jj; rows past the
      last patch stay zero. */
  method FillCloud(patches: seq<PatchData>, shape: seq<real>, nSections: nat, n: nat) returns (cloud: array<V3>)
    requires AllWellFormed(patches) && |shape| == 6
    requires 1 <= nSections && |patches| <= nSections - 1
    ensures cloud.Length == (nSections - 1) * 6 * n
    ensures var rows := Cloud(patches, shape, n);
      |rows| <= cloud.Length && cloud[..|rows|] == rows &&
      forall m :: |rows| <= m < cloud.Length ==> cloud[m] == Origin
  {
    var size := (nSections - 1) * 6 * n;
    ProductBound(nSections - 1, n);
    cloud := new V3[size](_ => Origin);
    ghost var zeros := cloud[..];
    OffsetMonotone(|patches|, nSections - 1, Offset(6, n));
    ConcatLength(Blocks(patches, shape, n), Offset(6, n));
    FillPatches(cloud, patches, shape, n);
    PaddedPrefix(Cloud(patches, shape, n), zeros, cloud[..]);
  }
}
