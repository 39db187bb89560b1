/** The monomial basis of the homogeneous yield polynomial (SHYqpV1.py,
    nMonomials, nMonomials2, nMonoms and vPoly).  For an even degree d the
    yield function is 1 + P(u) + Q(u) over the coordinates u = (u1, u2, u3):
    P has degree d - 1 and Q degree d, and only even powers of u3 occur.
    Each monomial is an exponent triple; vPoly lists them block by block of
    increasing u3-exponent and derives the first-partial and Hessian tables
    (shifted triple plus integer coefficient) used by the data rows and by
    the convexity constraints. */
module Monomials {
  import opened Vectors

  /** Exponents of u1, u2, u3 (the Python tuple (a, b, c)). */
  datatype Triple = Triple(e0: nat, e1: nat, e2: nat) {
    function Exp(axis: nat): nat
      requires axis < 3
    {
      if axis == 0 then e0 else if axis == 1 then e1 else e2
    }

    function Degree(): nat {
      e0 + e1 + e2
    }
  }

  const Zero := Triple(0, 0, 0)

  /** One entry of vPidx / vQidx: the u3-exponent of a block and the list
      positions of its triples. */
  datatype IdxBlock = IdxBlock(c: nat, indices: seq<nat>)

  /** A point in the (u1, u2, u3) space. */
  datatype Point3 = Point3(x: real, y: real, z: real) {
    function Coord(axis: nat): real
      requires axis < 3
    {
      if axis == 0 then x else if axis == 1 then y else z
    }
  }

  /** The result of vPoly: degree nQ, the P list (degree nQ - 1), the Q list
      (degree nQ) and their block indices. */
  datatype Basis = Basis(nQ: int, p: seq<Triple>, pIdx: seq<IdxBlock>,
                         q: seq<Triple>, qIdx: seq<IdxBlock>)

  // ---------------------------------------------------------------------
  // The enumeration

  function Range(lo: nat, count: nat): (r: seq<nat>)
    ensures |r| == count
  {
    seq(count, i requires 0 <= i < count => lo + i)
  }

  /** The triples (n - c - k, k, c), k = 0 .. n - c, of one u3-block. */
  function BlockOf(n: int, c: nat): (r: seq<Triple>)
    requires c <= n
    ensures |r| == n - c + 1
  {
    seq(n - c + 1, k requires 0 <= k < n - c + 1 => Triple(n - c - k, k, c))
  }

  /** The blocks of u3-exponent c, c + 2, ... up to n, in order. */
  function TriplesFrom(n: int, c: nat): seq<Triple>
    decreases n - c
  {
    if c > n then [] else BlockOf(n, c) + TriplesFrom(n, c + 2)
  }

  /** All triples of total degree n with even third exponent, in vPoly's order. */
  function Triples(n: int): seq<Triple> {
    TriplesFrom(n, 0)
  }

  function BlocksFrom(n: int, c: nat, lv: nat): seq<IdxBlock>
    decreases n - c
  {
    if c > n then []
    else [IdxBlock(c, Range(lv, n - c + 1))] + BlocksFrom(n, c + 2, lv + n - c + 1)
  }

  function Blocks(n: int): seq<IdxBlock> {
    BlocksFrom(n, 0, 0)
  }

  /** The basis vPoly builds for degree nQ. */
  function BasisOf(nQ: int): Basis {
    Basis(nQ, Triples(nQ - 1), Blocks(nQ - 1), Triples(nQ), Blocks(nQ))
  }

  /** One while-loop of vPoly: builds the monomial list and its block index
      for total degree n, third exponent stepping by 2. */
  method BuildTriples(n: int) returns (v: seq<Triple>, idx: seq<IdxBlock>)
    ensures v == Triples(n) && idx == Blocks(n)
  {
    v := [];
    idx := [];
    var jj: nat := 0;
    while jj <= n
      invariant v + TriplesFrom(n, jj) == Triples(n)
      invariant idx + BlocksFrom(n, jj, |v|) == Blocks(n)
      decreases n - jj
    {
      var lv := |v|;
      BuildStep(n, jj, v, idx);
      idx := idx + [IdxBlock(jj, Range(lv, n - jj + 1))];
      v := v + BlockOf(n, jj);
      jj := jj + 2;
    }
  }

  /** One turn of the loop appends the block of u3-exponent jj to both lists. */
  lemma BuildStep(n: int, jj: nat, v: seq<Triple>, idx: seq<IdxBlock>)
    requires jj <= n
    requires v + TriplesFrom(n, jj) == Triples(n)
    requires idx + BlocksFrom(n, jj, |v|) == Blocks(n)
    ensures (v + BlockOf(n, jj)) + TriplesFrom(n, jj + 2) == Triples(n)
    ensures (idx + [IdxBlock(jj, Range(|v|, n - jj + 1))]) + BlocksFrom(n, jj + 2, |v + BlockOf(n, jj)|) == Blocks(n)
  {
    TriplesFromStep(n, jj);
    AppendAssoc(v, BlockOf(n, jj), TriplesFrom(n, jj + 2));
    BlocksFromStep(n, jj, |v|);
    AppendAssoc(idx, [IdxBlock(jj, Range(|v|, n - jj + 1))], BlocksFrom(n, jj + 2, |v| + n - jj + 1));
  }

  lemma TriplesFromStep(n: int, c: nat)
    requires c <= n
    ensures TriplesFrom(n, c) == BlockOf(n, c) + TriplesFrom(n, c + 2)
  {
  }

  lemma BlocksFromStep(n: int, c: nat, lv: nat)
    requires c <= n
    ensures BlocksFrom(n, c, lv) == [IdxBlock(c, Range(lv, n - c + 1))] + BlocksFrom(n, c + 2, lv + n - c + 1)
  {
  }

  lemma AppendAssoc<T>(a: seq<T>, b: seq<T>, c: seq<T>)
    ensures (a + b) + c == a + (b + c)
  {
  }

  /** vPoly: aborts on an odd degree, otherwise returns the P and Q lists
      with their block indices (the derivative tables are the functions
      FirstPartials and SecondPartials below). */
  method VPoly(degree: int) returns (r: Option<Basis>)
    ensures r.None? <==> degree % 2 != 0
    ensures r.Some? ==> r.value == BasisOf(degree)
  {
    var nQ := degree;
    if nQ % 2 != 0 {
      return None;
    }
    var vP, vPidx := BuildTriples(nQ - 1);
    var vQ, vQidx := BuildTriples(nQ);
    r := Some(Basis(nQ, vP, vPidx, vQ, vQidx));
  }

  // ---------------------------------------------------------------------
  // Properties of the enumeration

  lemma BlockMembership(n: int, c: nat, t: Triple)
    requires c <= n
    ensures t in BlockOf(n, c) <==> (t.e2 == c && t.Degree() == n)
  {
    if t.e2 == c && t.Degree() == n {
      assert BlockOf(n, c)[t.e1] == t;
    }
  }

  lemma {:induction false} TriplesFromMembership(n: int, c: nat, t: Triple)
    requires c % 2 == 0
    ensures t in TriplesFrom(n, c) <==> (t.Degree() == n && t.e2 % 2 == 0 && t.e2 >= c)
    decreases n - c
  {
    if c <= n {
      BlockMembership(n, c, t);
      TriplesFromMembership(n, c + 2, t);
    }
  }

  /** A triple is listed exactly when its degree is n and its u3-exponent is even. */
  lemma TriplesMembership(n: int, t: Triple)
    ensures t in Triples(n) <==> (t.Degree() == n && t.e2 % 2 == 0)
  {
    TriplesFromMembership(n, 0, t);
  }

  /** Number of triples of TriplesFrom(n, c) as a function of m = n - c. */
  function ClosedCount(m: int): nat {
    if m < 0 then 0
    else if m % 2 == 0 then (m / 2 + 1) * (m / 2 + 1)
    else ((m + 1) / 2) * ((m + 1) / 2 + 1)
  }

  lemma ClosedCountStep(m: int)
    requires m >= 0
    ensures ClosedCount(m) == m + 1 + ClosedCount(m - 2)
  {
    if m % 2 == 0 {
      var j := m / 2;
      assert m == 2 * j;
      if j > 0 {
        assert (m - 2) / 2 == j - 1;
        assert (j + 1) * (j + 1) == 2 * j + 1 + j * j;
      }
    } else {
      var j := (m + 1) / 2;
      assert m == 2 * j - 1;
      if j > 1 {
        assert (m - 1) / 2 == j - 1;
        assert j * (j + 1) == 2 * j + (j - 1) * j;
      }
    }
  }

  lemma {:induction false} TriplesFromCount(n: int, c: nat)
    ensures |TriplesFrom(n, c)| == ClosedCount(n - c)
    decreases n - c
  {
    if c <= n {
      TriplesFromCount(n, c + 2);
      ClosedCountStep(n - c);
    }
  }

  /** len(vP) = h(h+1) and len(vQ) = (h+1)^2 for degree 2h. */
  lemma BasisCounts(h: nat)
    ensures |Triples(2 * h)| == (h + 1) * (h + 1)
    ensures |Triples(2 * h - 1)| == h * (h + 1)
  {
    TriplesFromCount(2 * h, 0);
    TriplesFromCount(2 * h - 1, 0);
    if h > 0 {
      assert (2 * h - 1 + 1) / 2 == h;
    }
  }

  function Flatten(blocks: seq<IdxBlock>): seq<nat> {
    if blocks == [] then [] else blocks[0].indices + Flatten(blocks[1..])
  }

  /** The block index describes the list: the k-th block holds u3-exponent
      c + 2k, its positions follow each other without gap, and every listed
      position carries a triple of that u3-exponent. */
  lemma BlocksFromDescribe(n: int, c: nat, lv: nat)
    ensures Flatten(BlocksFrom(n, c, lv)) == Range(lv, |TriplesFrom(n, c)|)
    ensures forall k :: 0 <= k < |BlocksFrom(n, c, lv)| ==> BlocksFrom(n, c, lv)[k].c == c + 2 * k
    ensures forall k, i :: 0 <= k < |BlocksFrom(n, c, lv)| && i in BlocksFrom(n, c, lv)[k].indices ==>
              lv <= i < lv + |TriplesFrom(n, c)| && TriplesFrom(n, c)[i - lv].e2 == c + 2 * k
  {
    BlocksFromFlatten(n, c, lv);
    BlocksFromExponents(n, c, lv);
    BlocksFromPositions(n, c, lv);
  }

  /** The blocks' positions, read in order, are lv, lv + 1, ... without gap. */
  lemma {:induction false} BlocksFromFlatten(n: int, c: nat, lv: nat)
    ensures Flatten(BlocksFrom(n, c, lv)) == Range(lv, |TriplesFrom(n, c)|)
    decreases n - c
  {
    if c <= n {
      var size := n - c + 1;
      var bs := BlocksFrom(n, c, lv);
      BlocksFromFlatten(n, c + 2, lv + size);
      BlocksFromStep(n, c, lv);
      assert bs[1..] == BlocksFrom(n, c + 2, lv + size);
      TriplesFromStep(n, c);
      RangeAppend(lv, size, |TriplesFrom(n, c + 2)|);
    }
  }

  /** Block k holds u3-exponent c + 2k. */
  lemma {:induction false} BlocksFromExponents(n: int, c: nat, lv: nat)
    ensures forall k :: 0 <= k < |BlocksFrom(n, c, lv)| ==> BlocksFrom(n, c, lv)[k].c == c + 2 * k
    decreases n - c
  {
    if c <= n {
      var size := n - c + 1;
      var bs := BlocksFrom(n, c, lv);
      var rest := BlocksFrom(n, c + 2, lv + size);
      BlocksFromExponents(n, c + 2, lv + size);
      BlocksFromStep(n, c, lv);
      forall k | 0 <= k < |bs| ensures bs[k].c == c + 2 * k {
        if k > 0 {
          assert bs[k] == rest[k - 1];
        }
      }
    }
  }

  /** Every position listed in block k carries a triple of u3-exponent c + 2k. */
  lemma {:induction false} BlocksFromPositions(n: int, c: nat, lv: nat)
    ensures forall k, i :: 0 <= k < |BlocksFrom(n, c, lv)| && i in BlocksFrom(n, c, lv)[k].indices ==>
              lv <= i < lv + |TriplesFrom(n, c)| && TriplesFrom(n, c)[i - lv].e2 == c + 2 * k
    decreases n - c
  {
    if c <= n {
      var size := n - c + 1;
      var bs := BlocksFrom(n, c, lv);
      var rest := BlocksFrom(n, c + 2, lv + size);
      var ts := TriplesFrom(n, c);
      BlocksFromPositions(n, c + 2, lv + size);
      BlocksFromStep(n, c, lv);
      TriplesFromStep(n, c);
      forall k, i | 0 <= k < |bs| && i in bs[k].indices
        ensures lv <= i < lv + |ts| && ts[i - lv].e2 == c + 2 * k
      {
        if k > 0 {
          assert bs[k] == rest[k - 1];
          assert ts[i - lv] == TriplesFrom(n, c + 2)[i - lv - size];
        }
      }
    }
  }

  lemma RangeAppend(lo: nat, a: nat, b: nat)
    ensures Range(lo, a) + Range(lo + a, b) == Range(lo, a + b)
  {
    var r := Range(lo, a) + Range(lo + a, b);
    forall i | 0 <= i < a + b
      ensures r[i] == Range(lo, a + b)[i]
    {
      if i >= a {
        assert r[i] == Range(lo + a, b)[i - a];
      }
    }
  }

  lemma BlocksDescribe(n: int)
    ensures Flatten(Blocks(n)) == Range(0, |Triples(n)|)
    ensures forall k :: 0 <= k < |Blocks(n)| ==> Blocks(n)[k].c == 2 * k
    ensures forall k, i :: 0 <= k < |Blocks(n)| && i in Blocks(n)[k].indices ==>
              i < |Triples(n)| && Triples(n)[i].e2 == 2 * k
  {
    BlocksFromDescribe(n, 0, 0);
  }

  /** Along the list the u3-exponent never decreases. */
  lemma {:induction false} TriplesFromSorted(n: int, c: nat)
    ensures forall i, j :: 0 <= i <= j < |TriplesFrom(n, c)| ==>
              c <= TriplesFrom(n, c)[i].e2 <= TriplesFrom(n, c)[j].e2
    decreases n - c
  {
    if c <= n {
      TriplesFromSorted(n, c + 2);
      var b := BlockOf(n, c);
      var rest := TriplesFrom(n, c + 2);
      var all: seq<Triple> := b + rest;
      assert TriplesFrom(n, c) == all;
      forall i, j | 0 <= i <= j < |all| ensures c <= all[i].e2 <= all[j].e2 {
        if j >= |b| {
          assert all[j] == rest[j - |b|];
          if i >= |b| {
            assert all[i] == rest[i - |b|];
          }
        }
      }
    }
  }

  // ---------------------------------------------------------------------
  // Counting (nMonomials, nMonomials2, nMonoms)

  /** nMonoms(degQ): (nQ, nP) = ((h+1)^2, h(h+1)) with h = degQ // 2. */
  function NMonoms(degQ: int): (int, int) {
    var deg := degQ / 2;
    ((deg + 1) * (deg + 1), deg * (deg + 1))
  }

  /** nMonoms gives the lengths of the lists vPoly builds. */
  lemma NMonomsMatchesBasis(degQ: int)
    requires degQ >= 0 && degQ % 2 == 0
    ensures NMonoms(degQ) == (|Triples(degQ)|, |Triples(degQ - 1)|)
  {
    var h := degQ / 2;
    assert degQ == 2 * h;
    BasisCounts(h);
  }

  /** nMonomials2: closed forms for the degrees 4, 6, ..., 24. */
  function NMonomials2(): (r: seq<(int, int, int, int)>)
    ensures |r| == 11
    ensures forall i :: 0 <= i < 11 ==> r[i].0 == 2 * (i + 2) && r[i].3 == r[i].1 + r[i].2
  {
    seq(11, i requires 0 <= i < 11 =>
      var kk := i + 2;
      (2 * kk, kk * (kk + 1), (kk + 1) * (kk + 1), kk * (kk + 1) + (kk + 1) * (kk + 1)))
  }

  /** nMonomials: the same table summed by the block loop. */
  method NMonomials() returns (vDeg: seq<(int, int, int, int)>)
    ensures vDeg == NMonomials2()
  {
    vDeg := [];
    for kk := 2 to 13
      invariant |vDeg| == kk - 2
      invariant forall i :: 0 <= i < kk - 2 ==> vDeg[i] == NMonomials2()[i]
    {
      var deg := 2 * kk;
      var sOdd, sEven := BlockSums(deg);
      sEven := sEven + 1;
      vDeg := vDeg + [(deg, sOdd, sEven, sOdd + sEven)];
    }
  }

  /** The inner loop of nMonomials: for deg = 2h it sums the block lengths
      deg - jj of P and deg + 1 - jj of Q over jj = 0, 2, ..., deg - 2, which
      gives h(h+1) and (h+1)^2 - 1. */
  method BlockSums(deg: int) returns (sOdd: int, sEven: int)
    requires deg >= 0 && deg % 2 == 0
    ensures sOdd == (deg / 2) * (deg / 2 + 1)
    ensures sEven + 1 == (deg / 2 + 1) * (deg / 2 + 1)
  {
    var jj := 0;
    sOdd := 0;
    sEven := 0;
    while jj < deg
      invariant jj % 2 == 0 && 0 <= jj <= deg
      invariant sOdd == (jj / 2) * deg - (jj / 2) * (jj / 2 - 1)
      invariant sEven == (jj / 2) * (deg + 1) - (jj / 2) * (jj / 2 - 1)
    {
      sOdd := sOdd + deg - jj;
      sEven := sEven + deg + 1 - jj;
      jj := jj + 2;
    }
    assert jj == deg;
  }

  /** Row i is degree 2(i + 2); its columns are the lengths of vPoly's P and
      Q lists for that degree and their total. */
  lemma NMonomials2MatchesBasis(i: nat)
    requires i < 11
    ensures NMonomials2()[i].0 == 2 * (i + 2)
    ensures NMonomials2()[i].1 == |Triples(2 * (i + 2) - 1)|
    ensures NMonomials2()[i].2 == |Triples(2 * (i + 2))|
    ensures NMonomials2()[i].3 == |Triples(2 * (i + 2) - 1)| + |Triples(2 * (i + 2))|
  {
    BasisCounts(i + 2);
  }

  /** readData's whitelist of degrees: [2*k for k in range(2,13)]. */
  predicate AcceptedDegree(d: int) {
    d in seq(11, k requires 0 <= k < 11 => 2 * (k + 2))
  }

  lemma AcceptedDegreeIsEvenRange(d: int)
    ensures AcceptedDegree(d) <==> (4 <= d <= 24 && d % 2 == 0)
  {
    var s := seq(11, k requires 0 <= k < 11 => 2 * (k + 2));
    if 4 <= d <= 24 && d % 2 == 0 {
      assert s[d / 2 - 2] == d;
    }
  }

  // ---------------------------------------------------------------------
  // Derivative tables

  /** The exponent triple after differentiating along axis (vD1P ...):
      that exponent lowered by one, or (0,0,0) when it is zero. */
  function Shift(t: Triple, axis: nat): Triple
    requires axis < 3
  {
    if t.Exp(axis) == 0 then Zero
    else if axis == 0 then t.(e0 := t.e0 - 1)
    else if axis == 1 then t.(e1 := t.e1 - 1)
    else t.(e2 := t.e2 - 1)
  }

  /** The first-partial coefficient (vC1P ...): the exponent, or 0. */
  function Coef(t: Triple, axis: nat): nat
    requires axis < 3
  {
    if t.Exp(axis) > 0 then t.Exp(axis) else 0
  }

  /** Hessian entry (i, j): the triple and coefficient of differentiating
      the first-partial triple once more (vH12P, vCH12P = vC1P * vD1P[.][1]). */
  function HessTriple(t: Triple, i: nat, j: nat): Triple
    requires i < 3 && j < 3
  {
    Shift(Shift(t, i), j)
  }

  function HessCoef(t: Triple, i: nat, j: nat): nat
    requires i < 3 && j < 3
  {
    Coef(t, i) * Shift(t, i).Exp(j)
  }

  /** vD<axis>X / vC<axis>X for a whole list. */
  function FirstPartials(v: seq<Triple>, axis: nat): (r: (seq<Triple>, seq<nat>))
    requires axis < 3
  {
    (seq(|v|, k requires 0 <= k < |v| => Shift(v[k], axis)),
     seq(|v|, k requires 0 <= k < |v| => Coef(v[k], axis)))
  }

  /** vH<ij>X / vCH<ij>X for a whole list. */
  function SecondPartials(v: seq<Triple>, i: nat, j: nat): (r: (seq<Triple>, seq<nat>))
    requires i < 3 && j < 3
  {
    (seq(|v|, k requires 0 <= k < |v| => HessTriple(v[k], i, j)),
     seq(|v|, k requires 0 <= k < |v| => HessCoef(v[k], i, j)))
  }

  function Pow(x: real, k: nat): real {
    if k == 0 then 1.0 else x * Pow(x, k - 1)
  }

  /** The value of a monomial at u (powerP[:,0]*powerP[:,1]*powerP[:,2]). */
  function Mono(t: Triple, u: Point3): real {
    Pow(u.x, t.e0) * Pow(u.y, t.e1) * Pow(u.z, t.e2)
  }

  /** The first-partial tables: when the exponent is positive the shifted
      triple lowers exactly that exponent and the coefficient is the
      exponent; otherwise both are zero. */
  lemma FirstPartialsRule(v: seq<Triple>, axis: nat, k: nat)
    requires axis < 3 && k < |v|
    ensures var (d, cf) := FirstPartials(v, axis);
      && cf[k] == v[k].Exp(axis)
      && (v[k].Exp(axis) > 0 ==>
            d[k].Exp(axis) == v[k].Exp(axis) - 1 && d[k].Degree() == v[k].Degree() - 1 &&
            forall other :: 0 <= other < 3 && other != axis ==> d[k].Exp(other) == v[k].Exp(other))
      && (v[k].Exp(axis) == 0 ==> d[k] == Zero)
  {
  }

  /** Hessian coefficient in closed form: a_i * (a_j - [i == j]), that is
      a(a-1) on the diagonal and a*b off it. */
  lemma HessCoefClosed(t: Triple, i: nat, j: nat)
    requires i < 3 && j < 3
    ensures HessCoef(t, i, j) as int == t.Exp(i) * (t.Exp(j) - (if i == j then 1 else 0))
  {
  }

  /** Hessian triple in closed form: (0,0,0) when the coefficient vanishes,
      otherwise a_i and a_j are lowered (a_i by two when i == j). */
  lemma HessTripleClosed(t: Triple, i: nat, j: nat)
    requires i < 3 && j < 3
    ensures HessCoef(t, i, j) == 0 ==> HessTriple(t, i, j) == Zero
    ensures HessCoef(t, i, j) != 0 ==>
              && HessTriple(t, i, j).Degree() + 2 == t.Degree()
              && forall a :: 0 <= a < 3 ==>
                   HessTriple(t, i, j).Exp(a) as int ==
                     t.Exp(a) - (if a == i then 1 else 0) - (if a == j then 1 else 0)
  {
  }

  /** Differentiating along axis lowers that exponent by one and keeps the others. */
  lemma ShiftExp(t: Triple, axis: nat, a: nat)
    requires axis < 3 && a < 3 && t.Exp(axis) > 0
    ensures Shift(t, axis).Exp(a) as int == t.Exp(a) - (if a == axis then 1 else 0)
  {
  }

  lemma ShiftDegree(t: Triple, axis: nat)
    requires axis < 3 && t.Exp(axis) > 0
    ensures Shift(t, axis).Degree() + 1 == t.Degree()
  {
  }

  /** Only the six entries i <= j are tabulated: the Hessian is symmetric. */
  lemma HessSymmetric(t: Triple, i: nat, j: nat)
    requires i < 3 && j < 3
    ensures HessTriple(t, i, j) == HessTriple(t, j, i) && HessCoef(t, i, j) == HessCoef(t, j, i)
  {
    if i != j {
      ShiftOther(t, i, j);
      ShiftOther(t, j, i);
      MulCommute(Coef(t, i), Coef(t, j));
      if t.Exp(i) > 0 && t.Exp(j) > 0 {
        forall a | 0 <= a < 3
          ensures HessTriple(t, i, j).Exp(a) == HessTriple(t, j, i).Exp(a)
        {
          ShiftExp(t, i, a);
          ShiftExp(Shift(t, i), j, a);
          ShiftExp(t, j, a);
          ShiftExp(Shift(t, j), i, a);
        }
        SameExponents(HessTriple(t, i, j), HessTriple(t, j, i));
      }
    }
  }

  /** Differentiating along one axis keeps the exponent of another. */
  lemma ShiftOther(t: Triple, i: nat, j: nat)
    requires i < 3 && j < 3 && i != j
    ensures Shift(t, i).Exp(j) == (if t.Exp(i) > 0 then t.Exp(j) else 0)
  {
  }

  lemma MulCommute(a: nat, b: nat)
    ensures a * b == b * a
  {
  }

  lemma SameExponents(s: Triple, t: Triple)
    requires forall a :: 0 <= a < 3 ==> s.Exp(a) == t.Exp(a)
    ensures s == t
  {
    assert s.Exp(0) == t.Exp(0) && s.Exp(1) == t.Exp(1) && s.Exp(2) == t.Exp(2);
  }

  lemma PowStep(x: real, k: nat)
    requires k > 0
    ensures x * Pow(x, k - 1) == Pow(x, k)
  {
  }

  /** Moving the factor x of the first, second or third power into place:
      x * e * (a * b * c) is e times the product with x joined to one power. */
  lemma FactorFirst(x: real, e: real, a: real, b: real, c: real)
    ensures x * e * (a * b * c) == e * ((x * a) * b * c)
  {
  }

  lemma FactorSecond(x: real, e: real, a: real, b: real, c: real)
    ensures x * e * (a * b * c) == e * (a * (x * b) * c)
  {
  }

  lemma FactorThird(x: real, e: real, a: real, b: real, c: real)
    ensures x * e * (a * b * c) == e * (a * b * (x * c))
  {
  }

  /** u_axis times the tabulated partial derivative along axis:
      u_axis * C_axis * u^(D_axis). */
  function AxisTerm(t: Triple, axis: nat, u: Point3): real
    requires axis < 3
  {
    u.Coord(axis) * (Coef(t, axis) as real) * Mono(Shift(t, axis), u)
  }

  /** The tabulated partial derivative along axis equals a_axis * u^t / u_axis:
      u_axis * C_axis * u^(D_axis) == a_axis * u^t. */
  lemma {:induction false} AxisTermValue(t: Triple, axis: nat, u: Point3)
    requires axis < 3
    ensures AxisTerm(t, axis, u) == (t.Exp(axis) as real) * Mono(t, u)
  {
    if axis == 0 {
      AxisTermX(t, u);
    } else if axis == 1 {
      AxisTermY(t, u);
    } else {
      AxisTermZ(t, u);
    }
  }

  lemma AxisTermX(t: Triple, u: Point3)
    ensures AxisTerm(t, 0, u) == (t.e0 as real) * Mono(t, u)
  {
    if t.e0 > 0 {
      assert Shift(t, 0) == Triple(t.e0 - 1, t.e1, t.e2) && Coef(t, 0) == t.e0;
      PowStep(u.x, t.e0);
      FactorFirst(u.x, t.e0 as real, Pow(u.x, t.e0 - 1), Pow(u.y, t.e1), Pow(u.z, t.e2));
    }
  }

  lemma AxisTermY(t: Triple, u: Point3)
    ensures AxisTerm(t, 1, u) == (t.e1 as real) * Mono(t, u)
  {
    if t.e1 > 0 {
      assert Shift(t, 1) == Triple(t.e0, t.e1 - 1, t.e2) && Coef(t, 1) == t.e1;
      PowStep(u.y, t.e1);
      FactorSecond(u.y, t.e1 as real, Pow(u.x, t.e0), Pow(u.y, t.e1 - 1), Pow(u.z, t.e2));
    }
  }

  lemma AxisTermZ(t: Triple, u: Point3)
    ensures AxisTerm(t, 2, u) == (t.e2 as real) * Mono(t, u)
  {
    if t.e2 > 0 {
      assert Shift(t, 2) == Triple(t.e0, t.e1, t.e2 - 1) && Coef(t, 2) == t.e2;
      PowStep(u.z, t.e2);
      FactorThird(u.z, t.e2 as real, Pow(u.x, t.e0), Pow(u.y, t.e1), Pow(u.z, t.e2 - 1));
    }
  }

  /** Multiplying by u_axis raises that exponent by one. */
  function Raise(t: Triple, axis: nat): Triple
    requires axis < 3
  {
    if axis == 0 then t.(e0 := t.e0 + 1)
    else if axis == 1 then t.(e1 := t.e1 + 1)
    else t.(e2 := t.e2 + 1)
  }

  /** Euler's identity for homogeneous functions, sum_i u_i dm/du_i = deg(m) m,
      on the tables: the coefficients along the three axes add up to the
      degree, and every non-zero entry times u_axis is the monomial itself. */
  lemma EulerFirstOrder(t: Triple)
    ensures Coef(t, 0) + Coef(t, 1) + Coef(t, 2) == t.Degree()
    ensures forall axis :: 0 <= axis < 3 && Coef(t, axis) != 0 ==> Raise(Shift(t, axis), axis) == t
  {
  }

  lemma Distribute(k: int, a: int, b: int, c: int)
    ensures k * a + k * b + k * c == k * (a + b + c)
  {
  }

  /** Euler's identity for the first partial, sum_j u_j H_ij = (deg - 1) dm/du_i,
      on the tables: row i of the Hessian coefficients adds up to
      (deg - 1) * C_i. */
  lemma EulerSecondOrder(t: Triple, i: nat)
    requires i < 3
    ensures HessCoef(t, i, 0) + HessCoef(t, i, 1) + HessCoef(t, i, 2) == Coef(t, i) * (t.Degree() - 1)
  {
    var s := Shift(t, i);
    var ci := Coef(t, i);
    assert HessCoef(t, i, 0) == ci * Coef(s, 0);
    assert HessCoef(t, i, 1) == ci * Coef(s, 1);
    assert HessCoef(t, i, 2) == ci * Coef(s, 2);
    Distribute(ci, Coef(s, 0), Coef(s, 1), Coef(s, 2));
    if ci > 0 {
      EulerFirstOrder(s);
      ShiftDegree(t, i);
    } else {
      assert ci == 0;
    }
  }

  /** Every non-zero Hessian entry (i, j) times u_j is the first-partial
      monomial D_i. */
  lemma HessianRaise(t: Triple, i: nat, j: nat)
    requires i < 3 && j < 3 && HessCoef(t, i, j) != 0
    ensures Raise(HessTriple(t, i, j), j) == Shift(t, i)
  {
    assert Coef(Shift(t, i), j) != 0;
    EulerFirstOrder(Shift(t, i));
  }

  /** The quadratic form of the Hessian tables, u^T H u = deg (deg - 1) m,
      coefficient-wise: all nine entries add up to deg (deg - 1). */
  lemma HessianTotal(t: Triple)
    ensures HessCoef(t, 0, 0) + HessCoef(t, 0, 1) + HessCoef(t, 0, 2)
          + HessCoef(t, 1, 0) + HessCoef(t, 1, 1) + HessCoef(t, 1, 2)
          + HessCoef(t, 2, 0) + HessCoef(t, 2, 1) + HessCoef(t, 2, 2)
         == t.Degree() * (t.Degree() - 1)
  {
    EulerSecondOrder(t, 0);
    EulerSecondOrder(t, 1);
    EulerSecondOrder(t, 2);
    EulerFirstOrder(t);
    var d := t.Degree() - 1;
    DistributeRight(Coef(t, 0), Coef(t, 1), Coef(t, 2), d);
  }

  lemma DistributeRight(a: int, b: int, c: int, k: int)
    ensures a * k + b * k + c * k == (a + b + c) * k
  {
  }
}
