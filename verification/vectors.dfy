/** Column vectors of reals, as the numpy arrays of the yield-surface code use
    them (2-D and 3-D points, tangents, coefficient rows), and an Option type
    for the computations that abort. Real arithmetic stands in for float64. */
module Vectors {

  type Vec = seq<real>

  datatype Option<T> = None | Some(value: T)

  function Add(a: Vec, b: Vec): (r: Vec)
    requires |a| == |b|
    ensures |r| == |a|
  {
    seq(|a|, i requires 0 <= i < |a| => a[i] + b[i])
  }

  function Sub(a: Vec, b: Vec): (r: Vec)
    requires |a| == |b|
    ensures |r| == |a|
  {
    seq(|a|, i requires 0 <= i < |a| => a[i] - b[i])
  }

  function Scale(k: real, a: Vec): (r: Vec)
    ensures |r| == |a|
  {
    seq(|a|, i requires 0 <= i < |a| => k * a[i])
  }

  function Neg(a: Vec): (r: Vec)
    ensures |r| == |a|
  {
    seq(|a|, i requires 0 <= i < |a| => -a[i])
  }

  /** np.sum(a*b) */
  function Dot(a: Vec, b: Vec): real
    requires |a| == |b|
  {
    if |a| == 0 then 0.0 else a[0] * b[0] + Dot(a[1..], b[1..])
  }

  function Zeros(n: nat): (r: Vec)
    ensures |r| == n
  {
    seq(n, i => 0.0)
  }

  lemma {:induction false} DotSymmetric(a: Vec, b: Vec)
    requires |a| == |b|
    ensures Dot(a, b) == Dot(b, a)
  {
    if |a| > 0 {
      DotSymmetric(a[1..], b[1..]);
    }
  }

  lemma {:induction false} DotSubRight(a: Vec, b: Vec, c: Vec)
    requires |a| == |b| == |c|
    ensures Dot(a, Sub(b, c)) == Dot(a, b) - Dot(a, c)
  {
    if |a| > 0 {
      assert Sub(b, c)[1..] == Sub(b[1..], c[1..]);
      DotSubRight(a[1..], b[1..], c[1..]);
    }
  }

  lemma {:induction false} DotAddRight(a: Vec, b: Vec, c: Vec)
    requires |a| == |b| == |c|
    ensures Dot(a, Add(b, c)) == Dot(a, b) + Dot(a, c)
  {
    if |a| > 0 {
      assert Add(b, c)[1..] == Add(b[1..], c[1..]);
      DotAddRight(a[1..], b[1..], c[1..]);
    }
  }

  lemma {:induction false} DotScaleRight(a: Vec, k: real, b: Vec)
    requires |a| == |b|
    ensures Dot(a, Scale(k, b)) == k * Dot(a, b)
  {
    if |a| > 0 {
      forall i | 0 <= i < |b| - 1 ensures Scale(k, b)[1..][i] == Scale(k, b[1..])[i] {
        assert Scale(k, b)[i + 1] == k * b[i + 1];
      }
      assert Scale(k, b)[1..] == Scale(k, b[1..]);
      DotScaleRight(a[1..], k, b[1..]);
      MulSwap(a[0], k, b[0], Dot(a[1..], b[1..]));
    }
  }

  lemma MulSwap(x: real, k: real, y: real, rest: real)
    ensures x * (k * y) + k * rest == k * (x * y + rest)
  {
  }

  lemma {:induction false} DotNegBoth(a: Vec, b: Vec)
    requires |a| == |b|
    ensures Dot(Neg(a), Neg(b)) == Dot(a, b)
  {
    if |a| > 0 {
      assert Neg(a)[1..] == Neg(a[1..]);
      assert Neg(b)[1..] == Neg(b[1..]);
      DotNegBoth(a[1..], b[1..]);
    }
  }

  /** The dot product splits over concatenation. */
  lemma {:induction false} DotAppend(a1: Vec, a2: Vec, b1: Vec, b2: Vec)
    requires |a1| == |b1| && |a2| == |b2|
    ensures Dot(a1 + a2, b1 + b2) == Dot(a1, b1) + Dot(a2, b2)
  {
    if |a1| > 0 {
      assert (a1 + a2)[1..] == a1[1..] + a2;
      assert (b1 + b2)[1..] == b1[1..] + b2;
      DotAppend(a1[1..], a2, b1[1..], b2);
    } else {
      assert a1 + a2 == a2;
      assert b1 + b2 == b2;
    }
  }

  lemma {:induction false} DotZerosLeft(n: nat, b: Vec)
    requires |b| == n
    ensures Dot(Zeros(n), b) == 0.0
  {
    if n > 0 {
      assert Zeros(n)[1..] == Zeros(n - 1);
      DotZerosLeft(n - 1, b[1..]);
    }
  }
}
