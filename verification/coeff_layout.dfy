/** The coefficient vector of the fitted yield function and the layout the
    fit works in. The full vector holds the nP coefficients of the P
    polynomial followed by the nQ coefficients of the Q polynomial. Four of
    them are fixed analytically by the uniaxial data (indices 0, 1, nP and
    nP + 1). The quadratic program only sees the others, packed in order, and
    every constraint or data row moves its fixed part to the right-hand
    side. After the solve the fixed coefficients are put back. */
module CoeffLayout {
  import opened Vectors

  /** cP0, cP1 at indices 0 and 1, cQ0, cQ1 at indices nP and nP + 1. */
  datatype Fixed = Fixed(cP0: real, cP1: real, cQ0: real, cQ1: real)

  // ---------------------------------------------------------------------
  // The fixed coefficients

  /** cQ0 = (1 / sC0 - 1) / 2 and cP0 = -cQ0; with rt = (1 - rT0) / (1 + rT0)
      and rc = (1 - rC0) / (sC0 (1 + rC0)), cP1 = (rt - rc) / (2 sq3) and
      cQ1 = (rt + rc) / (2 sq3). sq3 is the caller's square root of 3. The
      source divides Python floats, so a zero divisor raises instead of
      giving an infinity: that is None here. */
  function FixedCoefficients(sC0: real, rT0: real, rC0: real, sq3: real): (r: Option<Fixed>)
    requires sq3 > 0.0
    ensures r.None? <==> sC0 == 0.0 || rT0 == -1.0 || rC0 == -1.0
    ensures r.Some? ==>
      var f := r.value;
      f.cP0 == -f.cQ0 &&
      1.0 + (f.cQ0 - f.cP0) == 1.0 / sC0 &&
      sq3 * (f.cQ1 + f.cP1) == (1.0 - rT0) / (1.0 + rT0) &&
      sq3 * (f.cQ1 - f.cP1) == (1.0 - rC0) / (sC0 * (1.0 + rC0))
  {
    if sC0 == 0.0 || rT0 == -1.0 || rC0 == -1.0 then None
    else
      var cQ0 := 0.5 * (1.0 / sC0 - 1.0);
      var rt := (1.0 - rT0) / (1.0 + rT0);
      var rc := (1.0 - rC0) / (sC0 * (1.0 + rC0));
      var cP1, cQ1 := 0.5 * (rt - rc) / sq3, 0.5 * (rt + rc) / sq3;
      assert sq3 * (cQ1 + cP1) == rt && sq3 * (cQ1 - cP1) == rc by {
        HalfSums(rt, rc, sq3);
      }
      Some(Fixed(-cQ0, cP1, cQ0, cQ1))
  }

  lemma HalfSums(rt: real, rc: real, s: real)
    requires s > 0.0
    ensures s * (0.5 * (rt + rc) / s + 0.5 * (rt - rc) / s) == rt
    ensures s * (0.5 * (rt + rc) / s - 0.5 * (rt - rc) / s) == rc
  {
    var a, b := 0.5 * (rt + rc) / s, 0.5 * (rt - rc) / s;
    assert s * a == 0.5 * (rt + rc);
    assert s * b == 0.5 * (rt - rc);
    assert s * (a + b) == s * a + s * b;
    assert s * (a - b) == s * a - s * b;
  }

  /** The symmetric fit: cQ0 = 0 and cQ1 = rt / sq3; the P polynomial is
      zero altogether. */
  function FixedCoefficientsSymm(rT0: real, sq3: real): (r: Option<Fixed>)
    requires sq3 > 0.0
    ensures r.None? <==> rT0 == -1.0
    ensures r.Some? ==>
      r.value.cP0 == r.value.cP1 == r.value.cQ0 == 0.0 &&
      sq3 * r.value.cQ1 == (1.0 - rT0) / (1.0 + rT0)
  {
    if rT0 == -1.0 then None
    else Some(Fixed(0.0, 0.0, 0.0, (1.0 - rT0) / (1.0 + rT0) / sq3))
  }

  // ---------------------------------------------------------------------
  // Packing and unpacking

  predicate IsFixed(i: nat, nP: nat)
  {
    i == 0 || i == 1 || i == nP || i == nP + 1
  }

  /** Where packed unknown j sits in the full vector: the first nP - 2 after
      cP0, cP1, the rest after cQ0, cQ1. */
  function Slot(j: nat, nP: nat): nat
  {
    if j + 2 < nP then j + 2 else j + 4
  }

  /** Every index of the full vector that is not fixed is the slot of
      exactly one packed unknown. */
  lemma SlotOnto(i: nat, nP: nat)
    requires 2 <= nP && !IsFixed(i, nP)
    ensures (if i < nP then i - 2 else i - 4) >= 0
    ensures var j := if i < nP then i - 2 else i - 4; Slot(j, nP) == i
    ensures forall j: nat :: Slot(j, nP) == i ==> j == (if i < nP then i - 2 else i - 4)
  {
  }

  /** AA[kRow, 0:nP-2] = vv[2:nP]; AA[kRow, nP-2:] = vv[nP+2:]: the row
      without the columns of the fixed coefficients. */
  function Pack(row: Vec, nP: nat): (r: Vec)
    requires 2 <= nP && nP + 2 <= |row|
    ensures |r| == |row| - 4
    ensures forall j :: 0 <= j < |r| ==>
      Slot(j, nP) < |row| && !IsFixed(Slot(j, nP), nP) && r[j] == row[Slot(j, nP)]
  {
    row[2..nP] + row[nP + 2..]
  }

  /** vCoeff after the solve: the fixed coefficients at 0, 1, nP, nP + 1 and
      the solution vsq, in order, everywhere else. */
  function Unpack(vsq: Vec, nP: nat, f: Fixed): (v: Vec)
    requires 2 <= nP <= |vsq| + 2
    ensures |v| == |vsq| + 4
    ensures v[0] == f.cP0 && v[1] == f.cP1 && v[nP] == f.cQ0 && v[nP + 1] == f.cQ1
    ensures forall j :: 0 <= j < |vsq| ==> Slot(j, nP) < |v| && v[Slot(j, nP)] == vsq[j]
  {
    [f.cP0, f.cP1] + vsq[..nP - 2] + [f.cQ0, f.cQ1] + vsq[nP - 2..]
  }

  /** The fixed coefficients a full vector holds. */
  function FixedOf(v: Vec, nP: nat): Fixed
    requires nP + 2 <= |v|
  {
    Fixed(v[0], v[1], v[nP], v[nP + 1])
  }

  /** Packing the reassembled vector gives back the solution. */
  lemma PackUnpack(vsq: Vec, nP: nat, f: Fixed)
    requires 2 <= nP <= |vsq| + 2
    ensures Pack(Unpack(vsq, nP, f), nP) == vsq
  {
    var p := Pack(Unpack(vsq, nP, f), nP);
    forall j | 0 <= j < |vsq| ensures p[j] == vsq[j] {
    }
  }

  /** A full vector is its packed unknowns reassembled with its own fixed
      coefficients. */
  lemma UnpackPack(v: Vec, nP: nat)
    requires 2 <= nP && nP + 2 <= |v|
    ensures Unpack(Pack(v, nP), nP, FixedOf(v, nP)) == v
  {
    var u := Unpack(Pack(v, nP), nP, FixedOf(v, nP));
    forall i | 0 <= i < |v| ensures u[i] == v[i] {
      if !IsFixed(i, nP) {
        SlotOnto(i, nP);
      }
    }
  }

  // ---------------------------------------------------------------------
  // Moving the fixed part to the right-hand side

  /** cP0 vv[0] + cP1 vv[1] + cQ0 vv[nP] + cQ1 vv[nP + 1] */
  function FixedPart(row: Vec, nP: nat, f: Fixed): real
    requires nP + 2 <= |row|
  {
    f.cP0 * row[0] + f.cP1 * row[1] + f.cQ0 * row[nP] + f.cQ1 * row[nP + 1]
  }

  /** A row against the reassembled vector is the packed row against the
      solution plus the fixed part. */
  lemma DotSplit(row: Vec, vsq: Vec, nP: nat, f: Fixed)
    requires |row| == |vsq| + 4 && 2 <= nP <= |vsq| + 2
    ensures Dot(row, Unpack(vsq, nP, f)) == Dot(Pack(row, nP), vsq) + FixedPart(row, nP, f)
  {
    DotSplitBlocks(row, vsq, nP, f);
    DotFixedPart(row, nP, f);
  }

  /** DotSplit on the blocks that Pack and Unpack are made of. */
  lemma DotSplitBlocks(row: Vec, vsq: Vec, nP: nat, f: Fixed)
    requires |row| == |vsq| + 4 && 2 <= nP <= |vsq| + 2
    ensures Dot(row, [f.cP0, f.cP1] + vsq[..nP - 2] + [f.cQ0, f.cQ1] + vsq[nP - 2..]) ==
      Dot(row[2..nP] + row[nP + 2..], vsq) + Dot(row[0..2], [f.cP0, f.cP1]) + Dot(row[nP..nP + 2], [f.cQ0, f.cQ1])
  {
    var a, b, c, d := row[0..2], row[2..nP], row[nP..nP + 2], row[nP + 2..];
    var u1, v1, u2, v2 := [f.cP0, f.cP1], vsq[..nP - 2], [f.cQ0, f.cQ1], vsq[nP - 2..];
    Quarters(row, nP);
    Halves(vsq, nP - 2);
    DotFour(a, b, c, d, u1, v1, u2, v2);
  }

  /** Regrouping a four-block dot product: blocks one and three apart,
      blocks two and four together. */
  lemma DotFour(a: Vec, b: Vec, c: Vec, d: Vec, u1: Vec, v1: Vec, u2: Vec, v2: Vec)
    requires |a| == |u1| && |b| == |v1| && |c| == |u2| && |d| == |v2|
    ensures Dot(a + b + c + d, u1 + v1 + u2 + v2) == Dot(a, u1) + Dot(c, u2) + Dot(b + d, v1 + v2)
  {
    DotAppend(a + b + c, d, u1 + v1 + u2, v2);
    DotAppend(a + b, c, u1 + v1, u2);
    DotAppend(a, b, u1, v1);
    DotAppend(b, d, v1, v2);
  }

  lemma Quarters(row: Vec, nP: nat)
    requires 2 <= nP && nP + 2 <= |row|
    ensures row == row[0..2] + row[2..nP] + row[nP..nP + 2] + row[nP + 2..]
  {
  }

  lemma Halves(v: Vec, k: nat)
    requires k <= |v|
    ensures v == v[..k] + v[k..]
  {
  }

  /** The fixed part is the row's two fixed pairs against the fixed
      coefficients. */
  lemma DotFixedPart(row: Vec, nP: nat, f: Fixed)
    requires 2 <= nP && nP + 2 <= |row|
    ensures Dot(row[0..2], [f.cP0, f.cP1]) + Dot(row[nP..nP + 2], [f.cQ0, f.cQ1]) == FixedPart(row, nP, f)
  {
    DotPair(row, 0, f.cP0, f.cP1);
    DotPair(row, nP, f.cQ0, f.cQ1);
  }

  /** A dot product over two consecutive entries of a row. */
  lemma DotPair(row: Vec, i: nat, x: real, y: real)
    requires i + 2 <= |row|
    ensures Dot(row[i..i + 2], [x, y]) == x * row[i] + y * row[i + 1]
  {
    var a := row[i..i + 2];
    assert [x, y][1..] == [y] && [y][1..] == [];
    assert a[1..] == [row[i + 1]] && a[1..][1..] == [];
    assert Dot(a[1..], [y]) == row[i + 1] * y;
    assert Dot(a, [x, y]) == row[i] * x + row[i + 1] * y;
  }

  // ---------------------------------------------------------------------
  // genConstraints2D: the convexity constraints in packed form

  datatype Constraints = Constraints(mcc: seq<Vec>, mub: seq<real>)

  /** Rows of equal width holding both fixed pairs. */
  predicate Rows(vv: seq<Vec>, width: nat, nP: nat)
  {
    2 <= nP && nP + 2 <= width && forall r :: 0 <= r < |vv| ==> |vv[r]| == width
  }

  /** MCC is vv without the fixed columns; MUB[r] = 1 - epsilon - the fixed
      part of row r. */
  function GenConstraints(vv: seq<Vec>, width: nat, nP: nat, f: Fixed, epsilon: real): (c: Constraints)
    requires Rows(vv, width, nP)
    ensures |c.mcc| == |c.mub| == |vv|
    ensures forall r :: 0 <= r < |vv| ==> |c.mcc[r]| == width - 4
  {
    Constraints(seq(|vv|, r requires 0 <= r < |vv| => Pack(vv[r], nP)),
                seq(|vv|, r requires 0 <= r < |vv| => 1.0 - epsilon - FixedPart(vv[r], nP, f)))
  }

  /** MCC vsq <= MUB, row by row. */
  predicate Satisfies(c: Constraints, x: Vec)
  {
    |c.mcc| == |c.mub| &&
    forall r :: 0 <= r < |c.mcc| ==> |c.mcc[r]| == |x| && Dot(c.mcc[r], x) <= c.mub[r]
  }

  /** One packed constraint holds exactly when the full row against the
      reassembled coefficients is at most 1 - epsilon. */
  lemma ConstraintRow(vv: seq<Vec>, width: nat, nP: nat, f: Fixed, epsilon: real, vsq: Vec, r: nat)
    requires Rows(vv, width, nP) && |vsq| == width - 4 && r < |vv|
    ensures var c := GenConstraints(vv, width, nP, f, epsilon);
      Dot(c.mcc[r], vsq) <= c.mub[r] <==> Dot(vv[r], Unpack(vsq, nP, f)) <= 1.0 - epsilon
  {
    DotSplit(vv[r], vsq, nP, f);
  }

  /** The packed program is feasible at vsq exactly when the reassembled
      coefficients meet every full constraint. */
  lemma ConstraintsEquivalent(vv: seq<Vec>, width: nat, nP: nat, f: Fixed, epsilon: real, vsq: Vec)
    requires Rows(vv, width, nP) && |vsq| == width - 4
    ensures Satisfies(GenConstraints(vv, width, nP, f, epsilon), vsq) <==>
      forall r :: 0 <= r < |vv| ==> Dot(vv[r], Unpack(vsq, nP, f)) <= 1.0 - epsilon
  {
    forall r | 0 <= r < |vv| {
      ConstraintRow(vv, width, nP, f, epsilon, vsq, r);
    }
  }

  // ---------------------------------------------------------------------
  // dataFitSHYqp: the data rows and the reassembly

  /** The data rows AA and right-hand sides BB, written row by row through
      the cursor kRow: AA[kRow] is the packed row and BB[kRow] the target
      minus the row's fixed part. */
  method FillDataRows(rows: seq<Vec>, targets: seq<real>, width: nat, nP: nat, f: Fixed)
    returns (AA: array2<real>, BB: array<real>)
    requires Rows(rows, width, nP) && |targets| == |rows|
    ensures AA.Length0 == BB.Length == |rows| && AA.Length1 == width - 4
    ensures forall k, c :: 0 <= k < |rows| && 0 <= c < width - 4 ==> AA[k, c] == Pack(rows[k], nP)[c]
    ensures forall k :: 0 <= k < |rows| ==> BB[k] == targets[k] - FixedPart(rows[k], nP, f)
  {
    AA := new real[|rows|, width - 4]((i, j) => 0.0);
    BB := new real[|rows|](_ => 0.0);
    var kRow := 0;
    while kRow < |rows|
      invariant 0 <= kRow <= |rows|
      invariant forall k, c :: 0 <= k < kRow && 0 <= c < width - 4 ==> AA[k, c] == Pack(rows[k], nP)[c]
      invariant forall k :: 0 <= k < kRow ==> BB[k] == targets[k] - FixedPart(rows[k], nP, f)
    {
      var vv := rows[kRow];
      forall c | 0 <= c < nP - 2 {
        AA[kRow, c] := vv[c + 2];
      }
      forall c | nP - 2 <= c < width - 4 {
        AA[kRow, c] := vv[c + 4];
      }
      BB[kRow] := targets[kRow] - (f.cP0 * vv[0] + f.cP1 * vv[1] + f.cQ0 * vv[nP] + f.cQ1 * vv[nP + 1]);
      kRow := kRow + 1;
    }
  }

  /** The residual a data row leaves in the packed least-squares problem is
      the residual of the full row against the reassembled coefficients. */
  lemma DataResidual(row: Vec, target: real, vsq: Vec, nP: nat, f: Fixed)
    requires |row| == |vsq| + 4 && 2 <= nP <= |vsq| + 2
    ensures Dot(Pack(row, nP), vsq) - (target - FixedPart(row, nP, f)) ==
      Dot(row, Unpack(vsq, nP, f)) - target
  {
    DotSplit(row, vsq, nP, f);
  }

  /** vCoeff = zeros(nCol) with cP0, cP1, vsq[0:nP-2], cQ0, cQ1, vsq[nP-2:]
      written in place. */
  method Reassemble(vsq: Vec, nP: nat, f: Fixed) returns (vCoeff: array<real>)
    requires 2 <= nP <= |vsq| + 2
    ensures vCoeff[..] == Unpack(vsq, nP, f)
  {
    vCoeff := new real[|vsq| + 4](_ => 0.0);
    vCoeff[0] := f.cP0;
    vCoeff[1] := f.cP1;
    forall i | 2 <= i < nP {
      vCoeff[i] := vsq[i - 2];
    }
    vCoeff[nP] := f.cQ0;
    vCoeff[nP + 1] := f.cQ1;
    forall i | nP + 2 <= i < |vsq| + 4 {
      vCoeff[i] := vsq[i - 4];
    }
    ghost var u := Unpack(vsq, nP, f);
    forall i | 0 <= i < |vsq| + 4 ensures vCoeff[i] == u[i] {
      if !IsFixed(i, nP) {
        SlotOnto(i, nP);
      }
    }
  }

  // ---------------------------------------------------------------------
  // The symmetric fit: Q coefficients only, cQ0 = 0

  /** vv[2:]: a row of Q monomial values without its first two columns. */
  function PackSymm(row: Vec): (r: Vec)
    requires 2 <= |row|
    ensures |r| == |row| - 2
    ensures forall j :: 0 <= j < |r| ==> r[j] == row[j + 2]
  {
    row[2..]
  }

  /** vCoeff = zeros(nP + nQ) with cQ0 = 0 at nP, cQ1 at nP + 1 and vsq
      after them. */
  function UnpackSymm(vsq: Vec, nP: nat, cQ1: real): (v: Vec)
    ensures |v| == nP + |vsq| + 2
  {
    Zeros(nP) + [0.0, cQ1] + vsq
  }

  /** The symmetric layout is the general one with the P polynomial zero. */
  lemma SymmIsGeneral(vsq: Vec, nP: nat, cQ1: real)
    requires 2 <= nP
    ensures UnpackSymm(vsq, nP, cQ1) == Unpack(Zeros(nP - 2) + vsq, nP, Fixed(0.0, 0.0, 0.0, cQ1))
  {
    var z := Zeros(nP - 2) + vsq;
    assert z[..nP - 2] == Zeros(nP - 2) && z[nP - 2..] == vsq;
    assert Zeros(nP) == [0.0, 0.0] + Zeros(nP - 2);
  }

  /** The Q block of the reassembled vector against a row of Q monomial
      values is the packed row against the solution plus cQ1 vv[1]. */
  lemma DotSplitSymm(row: Vec, vsq: Vec, nP: nat, cQ1: real)
    requires |row| == |vsq| + 2
    ensures UnpackSymm(vsq, nP, cQ1)[nP..] == [0.0, cQ1] + vsq
    ensures Dot(row, UnpackSymm(vsq, nP, cQ1)[nP..]) == Dot(PackSymm(row), vsq) + cQ1 * row[1]
  {
    QBlock(vsq, nP, cQ1);
    DotSplitSymmBlocks(row, vsq, cQ1);
    DotQ1(row, cQ1);
  }

  lemma QBlock(vsq: Vec, nP: nat, cQ1: real)
    ensures UnpackSymm(vsq, nP, cQ1)[nP..] == [0.0, cQ1] + vsq
  {
  }

  lemma DotSplitSymmBlocks(row: Vec, vsq: Vec, cQ1: real)
    requires |row| == |vsq| + 2
    ensures Dot(row, [0.0, cQ1] + vsq) == Dot(row[0..2], [0.0, cQ1]) + Dot(row[2..], vsq)
  {
    assert row == row[0..2] + row[2..];
    DotAppend(row[0..2], row[2..], [0.0, cQ1], vsq);
  }

  lemma DotQ1(row: Vec, cQ1: real)
    requires 2 <= |row|
    ensures Dot(row[0..2], [0.0, cQ1]) == cQ1 * row[1]
  {
    DotPair(row, 0, 0.0, cQ1);
  }

  /** genConstraints2DSymm: MCC = vv[:, 2:], MUB = 1 - epsilon - cQ1 vv[:, 1]. */
  function GenConstraintsSymm(vv: seq<Vec>, width: nat, cQ1: real, epsilon: real): (c: Constraints)
    requires 2 <= width && forall r :: 0 <= r < |vv| ==> |vv[r]| == width
    ensures |c.mcc| == |c.mub| == |vv|
    ensures forall r :: 0 <= r < |vv| ==> |c.mcc[r]| == width - 2
  {
    Constraints(seq(|vv|, r requires 0 <= r < |vv| => PackSymm(vv[r])),
                seq(|vv|, r requires 0 <= r < |vv| => 1.0 - epsilon - cQ1 * vv[r][1]))
  }

  /** One packed symmetric constraint holds exactly when the full row
      against the Q block of the reassembled coefficients is at most
      1 - epsilon. */
  lemma ConstraintRowSymm(vv: seq<Vec>, width: nat, nP: nat, cQ1: real, epsilon: real, vsq: Vec, r: nat)
    requires 2 <= width && forall r :: 0 <= r < |vv| ==> |vv[r]| == width
    requires |vsq| == width - 2 && r < |vv|
    ensures var c := GenConstraintsSymm(vv, width, cQ1, epsilon);
      Dot(c.mcc[r], vsq) <= c.mub[r] <==> Dot(vv[r], UnpackSymm(vsq, nP, cQ1)[nP..]) <= 1.0 - epsilon
  {
    DotSplitSymm(vv[r], vsq, nP, cQ1);
  }

  /** The packed symmetric program is feasible at vsq exactly when the Q
      block of the reassembled coefficients meets every full constraint. */
  lemma ConstraintsEquivalentSymm(vv: seq<Vec>, width: nat, nP: nat, cQ1: real, epsilon: real, vsq: Vec)
    requires 2 <= width && forall r :: 0 <= r < |vv| ==> |vv[r]| == width
    requires |vsq| == width - 2
    ensures Satisfies(GenConstraintsSymm(vv, width, cQ1, epsilon), vsq) <==>
      forall r :: 0 <= r < |vv| ==> Dot(vv[r], UnpackSymm(vsq, nP, cQ1)[nP..]) <= 1.0 - epsilon
  {
    forall r | 0 <= r < |vv| {
      ConstraintRowSymm(vv, width, nP, cQ1, epsilon, vsq, r);
    }
  }

  /** The symmetric data rows: AA[kRow] = vv[2:], BB[kRow] = target - cQ1 vv[1]. */
  method FillDataRowsSymm(rows: seq<Vec>, targets: seq<real>, width: nat, cQ1: real)
    returns (AA: array2<real>, BB: array<real>)
    requires 2 <= width && (forall r :: 0 <= r < |rows| ==> |rows[r]| == width) && |targets| == |rows|
    ensures AA.Length0 == BB.Length == |rows| && AA.Length1 == width - 2
    ensures forall k, c :: 0 <= k < |rows| && 0 <= c < width - 2 ==> AA[k, c] == PackSymm(rows[k])[c]
    ensures forall k :: 0 <= k < |rows| ==> BB[k] == targets[k] - cQ1 * rows[k][1]
  {
    AA := new real[|rows|, width - 2]((i, j) => 0.0);
    BB := new real[|rows|](_ => 0.0);
    var kRow := 0;
    while kRow < |rows|
      invariant 0 <= kRow <= |rows|
      invariant forall k, c :: 0 <= k < kRow && 0 <= c < width - 2 ==> AA[k, c] == PackSymm(rows[k])[c]
      invariant forall k :: 0 <= k < kRow ==> BB[k] == targets[k] - cQ1 * rows[k][1]
    {
      var vv := rows[kRow];
      forall c | 0 <= c < width - 2 {
        AA[kRow, c] := vv[c + 2];
      }
      BB[kRow] := targets[kRow] - cQ1 * vv[1];
      kRow := kRow + 1;
    }
  }

  /** vCoeff = zeros(nP + nQ); vCoeff[nP] = cQ0; vCoeff[nP+1] = cQ1;
      vCoeff[nP+2:] = vsq, with cQ0 = 0. */
  method ReassembleSymm(vsq: Vec, nP: nat, cQ1: real) returns (vCoeff: array<real>)
    ensures vCoeff[..] == UnpackSymm(vsq, nP, cQ1)
  {
    vCoeff := new real[nP + |vsq| + 2](_ => 0.0);
    vCoeff[nP] := 0.0;
    vCoeff[nP + 1] := cQ1;
    forall i | nP + 2 <= i < nP + |vsq| + 2 {
      vCoeff[i] := vsq[i - nP - 2];
    }
    assert vCoeff[..] == UnpackSymm(vsq, nP, cQ1);
  }
}
