/**
 A dense vector of reals tagged with the simulation time it belongs to, and
 the arithmetic the integrator needs.

 Dimensions are an unchecked caller contract in the program: the binary
 operators walk the LEFT operand and index the right one, so the model asks
 only that the right operand be at least as long as the left one; any extra
 entries of the right operand are ignored.

 The operators' contracts give the time stamp and the length; the value of
 each entry is stated by a companion lemma (`AddAt`, `SubAt`, ...), so that
 proofs about long chains of operations only pay for the entries they use.
 */
module TimeVectors {

  datatype TimeVector = TimeVector(time: real, vec: seq<real>)

  /** `n` copies of `v`. */
  function Fill(n: nat, v: real): seq<real>
  {
    seq(n, _ => v)
  }

  /** The harmonic sequence 1, 1/2, ..., 1/n. */
  function HarmonicSeq(n: nat): (r: seq<real>)
    ensures |r| == n
  {
    if n == 0 then [] else HarmonicSeq(n - 1) + [1.0 / ((n - 1) as real + 1.0)]
  }

  lemma {:induction false} HarmonicSeqEntries(n: nat)
    ensures forall i :: 0 <= i < n ==> HarmonicSeq(n)[i] == 1.0 / (i as real + 1.0)
  {
    if n > 0 {
      HarmonicSeqEntries(n - 1);
      assert HarmonicSeq(n)[..n - 1] == HarmonicSeq(n - 1);
    }
  }

  /** Entry-wise `op` over the left operand's length. */
  function ZipWith(op: (real, real) -> real, a: seq<real>, b: seq<real>): (r: seq<real>)
    requires |a| <= |b|
    ensures |r| == |a|
  {
    if |a| == 0 then [] else ZipWith(op, a[..|a| - 1], b) + [op(a[|a| - 1], b[|a| - 1])]
  }

  lemma {:induction false} ZipWithAt(op: (real, real) -> real, a: seq<real>, b: seq<real>, i: nat)
    requires |a| <= |b| && i < |a|
    ensures ZipWith(op, a, b)[i] == op(a[i], b[i])
    decreases |a|
  {
    var n := |a| - 1;
    if i < n {
      ZipWithAt(op, a[..n], b, i);
      assert ZipWith(op, a, b)[i] == ZipWith(op, a[..n], b)[i];
    }
  }

  /** Entry-wise `op` over one sequence. */
  function MapWith(op: real -> real, a: seq<real>): (r: seq<real>)
    ensures |r| == |a|
  {
    if |a| == 0 then [] else MapWith(op, a[..|a| - 1]) + [op(a[|a| - 1])]
  }

  lemma {:induction false} MapWithAt(op: real -> real, a: seq<real>, i: nat)
    requires i < |a|
    ensures MapWith(op, a)[i] == op(a[i])
    decreases |a|
  {
    var n := |a| - 1;
    if i < n {
      MapWithAt(op, a[..n], i);
      assert MapWith(op, a)[i] == MapWith(op, a[..n])[i];
    }
  }

  function Zero(dim: nat): (r: TimeVector)
    ensures r.time == 0.0 && |r.vec| == dim
    ensures forall i :: 0 <= i < dim ==> r.vec[i] == 0.0
  {
    TimeVector(0.0, Fill(dim, 0.0))
  }

  function OneFill(dim: nat): (r: TimeVector)
    ensures r.time == 0.0 && |r.vec| == dim
    ensures forall i :: 0 <= i < dim ==> r.vec[i] == 1.0
  {
    TimeVector(0.0, Fill(dim, 1.0))
  }

  function Harmonic(dim: nat): (r: TimeVector)
    ensures r.time == 0.0 && |r.vec| == dim
    ensures forall i :: 0 <= i < dim ==> r.vec[i] == 1.0 / (i as real + 1.0)
  {
    HarmonicSeqEntries(dim);
    TimeVector(0.0, HarmonicSeq(dim))
  }

  /** `a + b`: the left operand's time survives. */
  function Add(a: TimeVector, b: TimeVector): (r: TimeVector)
    requires |a.vec| <= |b.vec|
    ensures r.time == a.time && |r.vec| == |a.vec|
  {
    TimeVector(a.time, ZipWith((p, q) => p + q, a.vec, b.vec))
  }

  lemma AddAt(a: TimeVector, b: TimeVector, i: nat)
    requires |a.vec| <= |b.vec| && i < |a.vec|
    ensures Add(a, b).vec[i] == a.vec[i] + b.vec[i]
  {
    ZipWithAt((p, q) => p + q, a.vec, b.vec, i);
  }

  /** `a - b`: the left operand's time survives. */
  function Sub(a: TimeVector, b: TimeVector): (r: TimeVector)
    requires |a.vec| <= |b.vec|
    ensures r.time == a.time && |r.vec| == |a.vec|
  {
    TimeVector(a.time, ZipWith((p, q) => p - q, a.vec, b.vec))
  }

  lemma SubAt(a: TimeVector, b: TimeVector, i: nat)
    requires |a.vec| <= |b.vec| && i < |a.vec|
    ensures Sub(a, b).vec[i] == a.vec[i] - b.vec[i]
  {
    ZipWithAt((p, q) => p - q, a.vec, b.vec, i);
  }

  /** `v * s`, the vector on the left. */
  function ScaleRight(v: TimeVector, s: real): (r: TimeVector)
    ensures r.time == v.time && |r.vec| == |v.vec|
  {
    TimeVector(v.time, MapWith(p => p * s, v.vec))
  }

  lemma ScaleRightAt(v: TimeVector, s: real, i: nat)
    requires i < |v.vec|
    ensures ScaleRight(v, s).vec[i] == v.vec[i] * s
  {
    MapWithAt(p => p * s, v.vec, i);
  }

  /** `s * v`, the scalar on the left; this is the form the integrator uses. */
  function ScaleLeft(s: real, v: TimeVector): (r: TimeVector)
    ensures r.time == v.time && |r.vec| == |v.vec|
  {
    TimeVector(v.time, MapWith(p => s * p, v.vec))
  }

  lemma ScaleLeftAt(s: real, v: TimeVector, i: nat)
    requires i < |v.vec|
    ensures ScaleLeft(s, v).vec[i] == s * v.vec[i]
  {
    MapWithAt(p => s * p, v.vec, i);
  }

  /** The inner product, accumulated left to right over `a`'s length. */
  function DotSeq(a: seq<real>, b: seq<real>): real
    requires |a| <= |b|
  {
    if |a| == 0 then 0.0 else DotSeq(a[..|a| - 1], b) + a[|a| - 1] * b[|a| - 1]
  }

  /**
   The inner product `a * b`. Only the first `|a|` entries of `b` are read,
   and the inner product of a vector with itself is its sum of squares.
   */
  function Dot(a: TimeVector, b: TimeVector): (r: real)
    requires |a.vec| <= |b.vec|
    ensures r == DotSeq(a.vec, b.vec[..|a.vec|])
    ensures a.vec == b.vec ==> r == SumSquares(a.vec)
  {
    DotSeqPrefix(a.vec, b.vec, |a.vec|);
    SumSquaresIsSelfDotSeq(a.vec);
    DotSeq(a.vec, b.vec)
  }

  /** The sum of squares the norm accumulates before taking the root. */
  function SumSquares(a: seq<real>): (r: real)
    ensures r >= 0.0
    ensures |a| == 0 ==> r == 0.0
  {
    if |a| == 0 then 0.0 else SumSquares(a[..|a| - 1]) + a[|a| - 1] * a[|a| - 1]
  }

  /** The 2-norm, with the square root supplied by the caller. */
  function Norm(v: TimeVector, sqrt: real -> real): (r: real)
    ensures r == sqrt(Dot(v, v))
  {
    sqrt(SumSquares(v.vec))
  }

  // ---------------------------------------------------------------------
  // Algebraic laws

  /** Both scalar products build the same vector. */
  lemma ScalingsAgree(v: TimeVector, s: real)
    ensures ScaleRight(v, s) == ScaleLeft(s, v)
  {
    var l, r := ScaleRight(v, s), ScaleLeft(s, v);
    forall i | 0 <= i < |v.vec|
      ensures l.vec[i] == r.vec[i]
    {
      ScaleRightAt(v, s, i);
      ScaleLeftAt(s, v, i);
    }
    assert l.vec == r.vec;
  }

  /** The inner product ignores both time stamps. */
  lemma DotIgnoresTime(a: TimeVector, b: TimeVector, s: real, t: real)
    requires |a.vec| <= |b.vec|
    ensures Dot(a.(time := s), b.(time := t)) == Dot(a, b)
  {
  }

  /** The inner product depends only on the entries below the left length. */
  lemma {:induction false} DotSeqPrefix(a: seq<real>, b: seq<real>, n: nat)
    requires |a| <= n <= |b|
    ensures DotSeq(a, b) == DotSeq(a, b[..n])
    decreases |a|
  {
    if |a| > 0 {
      DotSeqPrefix(a[..|a| - 1], b, n);
    }
  }

  lemma DotSeqLast(a: seq<real>, b: seq<real>)
    requires 0 < |a| <= |b|
    ensures DotSeq(a, b) == DotSeq(a[..|a| - 1], b) + a[|a| - 1] * b[|a| - 1]
  {
  }

  /** The inner product is symmetric on equal lengths. */
  lemma {:induction false} DotSymmetric(a: TimeVector, b: TimeVector)
    requires |a.vec| == |b.vec|
    ensures Dot(a, b) == Dot(b, a)
  {
    DotSeqSymmetric(a.vec, b.vec);
  }

  lemma {:induction false} DotSeqSymmetric(a: seq<real>, b: seq<real>)
    requires |a| == |b|
    ensures DotSeq(a, b) == DotSeq(b, a)
    decreases |a|
  {
    if |a| > 0 {
      var n := |a| - 1;
      DotSeqSymmetric(a[..n], b[..n]);
      DotSeqPrefix(a[..n], b, n);
      DotSeqPrefix(b[..n], a, n);
    }
  }

  /** The squared norm is the inner product of a sequence with itself. */
  lemma {:induction false} SumSquaresIsSelfDotSeq(a: seq<real>)
    ensures SumSquares(a) == DotSeq(a, a)
    decreases |a|
  {
    if |a| > 0 {
      var n := |a| - 1;
      SumSquaresIsSelfDotSeq(a[..n]);
      DotSeqPrefix(a[..n], a, n);
    }
  }

  /** A sequence of zeros has zero sum of squares. */
  lemma {:induction false} SumSquaresOfZeros(a: seq<real>)
    requires forall i :: 0 <= i < |a| ==> a[i] == 0.0
    ensures SumSquares(a) == 0.0
    decreases |a|
  {
    if |a| > 0 {
      SumSquaresOfZeros(a[..|a| - 1]);
    }
  }

  /**
   Adding a positive product to a non-negative number gives a positive
   number. Stated over two factors so that the solver keeps the product as one
   term; `SquareRaisesSum` uses it with equal factors.
   */
  lemma PositiveProductRaises(s: real, x: real, y: real)
    requires s >= 0.0 && x * y > 0.0
    ensures s + x * y > 0.0
  {
  }

  lemma SquareRaisesSum(s: real, x: real)
    requires s >= 0.0 && x != 0.0
    ensures s + x * x > 0.0
  {
    assert x * x > 0.0;
    PositiveProductRaises(s, x, x);
  }

  /** A single non-zero entry makes the sum of squares positive. */
  lemma {:induction false} NonZeroEntryMakesSumSquaresPositive(a: seq<real>, i: nat)
    requires i < |a| && a[i] != 0.0
    ensures SumSquares(a) > 0.0
    decreases |a|
  {
    var init, last := a[..|a| - 1], a[|a| - 1];
    if i == |a| - 1 {
      SquareRaisesSum(SumSquares(init), last);
    } else {
      assert init[i] == a[i];
      NonZeroEntryMakesSumSquaresPositive(init, i);
    }
  }

  /** Conversely to `SumSquaresOfZeros`, a zero sum of squares means every entry is zero. */
  lemma ZeroSumSquaresMeansZeros(a: seq<real>)
    requires SumSquares(a) == 0.0
    ensures forall i :: 0 <= i < |a| ==> a[i] == 0.0
  {
    forall i | 0 <= i < |a|
      ensures a[i] == 0.0
    {
      if a[i] != 0.0 {
        NonZeroEntryMakesSumSquaresPositive(a, i);
      }
    }
  }

  /** Two vectors whose difference has norm 0 have equal entries, given a square root that vanishes only at 0. */
  lemma NormZeroMeansEqual(a: TimeVector, b: TimeVector, sqrt: real -> real)
    requires |a.vec| == |b.vec|
    requires forall y :: 0.0 <= y && sqrt(y) == 0.0 ==> y == 0.0
    requires Norm(Sub(a, b), sqrt) == 0.0
    ensures a.vec == b.vec
  {
    var d := Sub(a, b);
    ZeroSumSquaresMeansZeros(d.vec);
    forall i | 0 <= i < |a.vec|
      ensures a.vec[i] == b.vec[i]
    {
      SubAt(a, b, i);
    }
  }

  /** The difference of two vectors with equal entries has norm 0. */
  lemma DifferenceOfEqualsHasNormZero(a: TimeVector, b: TimeVector, sqrt: real -> real)
    ensures a.vec == b.vec && sqrt(0.0) == 0.0 ==> Norm(Sub(a, b), sqrt) == 0.0
  {
    if a.vec == b.vec {
      var d := Sub(a, b);
      forall i | 0 <= i < |d.vec|
        ensures d.vec[i] == 0.0
      {
        SubAt(a, b, i);
      }
      SumSquaresOfZeros(d.vec);
    }
  }

  /** Scaling the zero vector by any scalar gives a vector of norm 0. */
  lemma ScaledZeroHasNormZero(dim: nat, s: real, sqrt: real -> real)
    requires sqrt(0.0) == 0.0
    ensures Norm(ScaleLeft(s, Zero(dim)), sqrt) == 0.0
  {
    var v := ScaleLeft(s, Zero(dim));
    forall i | 0 <= i < dim
      ensures v.vec[i] == 0.0
    {
      ScaleLeftAt(s, Zero(dim), i);
    }
    SumSquaresOfZeros(v.vec);
  }

  /** Subtracting what was added gives the left operand back, time included. */
  lemma AddThenSub(a: TimeVector, b: TimeVector)
    requires |a.vec| == |b.vec|
    ensures Sub(Add(a, b), b) == a
  {
    var r := Sub(Add(a, b), b);
    forall i | 0 <= i < |a.vec|
      ensures r.vec[i] == a.vec[i]
    {
      SubAt(Add(a, b), b, i);
      AddAt(a, b, i);
    }
    assert r.vec == a.vec;
  }

  /** Addition commutes on the entries; the time stamp is always the left operand's. */
  lemma AddCommutes(a: TimeVector, b: TimeVector)
    requires |a.vec| == |b.vec|
    ensures Add(a, b).vec == Add(b, a).vec
    ensures Add(a, b).time == a.time && Add(b, a).time == b.time
  {
    var l, r := Add(a, b), Add(b, a);
    forall i | 0 <= i < |a.vec|
      ensures l.vec[i] == r.vec[i]
    {
      AddAt(a, b, i);
      AddAt(b, a, i);
    }
    assert l.vec == r.vec;
  }

  /** `a + a` is `2 a`, so the two have the same norm. */
  lemma AddSelfIsDouble(a: TimeVector, sqrt: real -> real)
    ensures Add(a, a) == ScaleLeft(2.0, a)
    ensures Norm(Add(a, a), sqrt) == Norm(ScaleLeft(2.0, a), sqrt)
  {
    var l, r := Add(a, a), ScaleLeft(2.0, a);
    forall i | 0 <= i < |a.vec|
      ensures l.vec[i] == r.vec[i]
    {
      AddAt(a, a, i);
      ScaleLeftAt(2.0, a, i);
    }
    assert l.vec == r.vec;
  }

  /** `2 a - 3 a` is `(-1) a`, so the two have the same norm. */
  lemma SubOfMultiples(a: TimeVector, sqrt: real -> real)
    ensures Sub(ScaleLeft(2.0, a), ScaleLeft(3.0, a)) == ScaleLeft(-1.0, a)
    ensures Norm(Sub(ScaleLeft(2.0, a), ScaleLeft(3.0, a)), sqrt) == Norm(ScaleLeft(-1.0, a), sqrt)
  {
    var two, three := ScaleLeft(2.0, a), ScaleLeft(3.0, a);
    var l, r := Sub(two, three), ScaleLeft(-1.0, a);
    forall i | 0 <= i < |a.vec|
      ensures l.vec[i] == r.vec[i]
    {
      SubAt(two, three, i);
      ScaleLeftAt(2.0, a, i);
      ScaleLeftAt(3.0, a, i);
      ScaleLeftAt(-1.0, a, i);
    }
    assert l.vec == r.vec;
  }

  // ---------------------------------------------------------------------
  // The harmonic vector

  /** `1 + 1/4 + ... + 1/n^2`, the partial sums of the Basel series. */
  function BaselSum(n: nat): real
  {
    if n == 0 then 0.0 else BaselSum(n - 1) + 1.0 / ((n as real) * (n as real))
  }

  lemma BaselSumLast(n: nat, k: real)
    requires 0 < n && k == n as real
    ensures BaselSum(n) == BaselSum(n - 1) + 1.0 / (k * k)
  {
  }

  lemma ReciprocalSquare(k: real, r: real)
    requires 0.0 < k && r == 1.0 / k
    ensures r * r == 1.0 / (k * k)
  {
    assert r * k == 1.0;
    assert (r * r) * (k * k) == (r * k) * (r * k);
  }

  /**
   The harmonic vector's inner product with itself is the `dim`-th partial
   sum of the Basel series, which tends to `pi^2 / 6`.
   */
  lemma {:induction false} HarmonicSelfDot(dim: nat)
    ensures Dot(Harmonic(dim), Harmonic(dim)) == BaselSum(dim)
  {
    HarmonicSeqSelfDot(dim);
  }

  lemma {:induction false} HarmonicSeqSelfDot(n: nat)
    ensures DotSeq(HarmonicSeq(n), HarmonicSeq(n)) == BaselSum(n)
  {
    if n > 0 {
      var h, shorter := HarmonicSeq(n), HarmonicSeq(n - 1);
      var k := n as real;
      assert h[..n - 1] == shorter;
      HarmonicSeqSelfDot(n - 1);
      DotSeqPrefix(shorter, h, n - 1);
      assert DotSeq(shorter, h) == BaselSum(n - 1);
      DotSeqLast(h, h);
      assert (n - 1) as real + 1.0 == k;
      ReciprocalSquare(k, h[n - 1]);
      BaselSumLast(n, k);
    }
  }

}
