/**
 Stage evaluation of a seven-stage explicit Runge-Kutta scheme over time
 vectors, for any tableau of the right shape.

 Stage `i` (counted from 0) is evaluated on `x + sum_{j<i} a[i][j] * k_j`
 re-timed to `x.time + c[i] * dt`, and `k_i = dt * f(that input)`. The first
 stage is evaluated on `x` itself. The weighted sums are accumulated left to
 right, `(a_i0 k_0 + a_i1 k_1) + a_i2 k_2 + ...`, as the program does.
 */
module ExplicitRk {
  import opened TimeVectors

  const NumStages: nat := 7

  /** Coefficients: stage times `c`, coupling rows `a`, and the two output rows. */
  datatype Tableau = Tableau(c: seq<real>, a: seq<seq<real>>, b5: seq<real>, b4: seq<real>)

  /** Row `i` of `a` has exactly `i` entries: no stage looks at itself or later. */
  predicate WellShaped(t: Tableau)
  {
    && |t.c| == NumStages
    && |t.a| == NumStages
    && |t.b5| == NumStages
    && |t.b4| == NumStages
    && forall i :: 0 <= i < NumStages ==> |t.a[i]| == i
  }

  /** The derivative maps every vector to one of the same dimension. */
  ghost predicate PreservesDim(f: TimeVector -> TimeVector)
  {
    forall v :: |f(v).vec| == |v.vec|
  }

  predicate SameDim(ks: seq<TimeVector>, n: nat)
  {
    forall j :: 0 <= j < |ks| ==> |ks[j].vec| == n
  }

  /** `s[0] + ... + s[n-1]`. */
  function SumTo(s: seq<real>, n: nat): real
    requires n <= |s|
  {
    if n == 0 then 0.0 else SumTo(s, n - 1) + s[n - 1]
  }

  function Sum(s: seq<real>): real
  {
    SumTo(s, |s|)
  }

  /** Entry `m` of `sum_j coeffs[j] * ks[j]`: the reference the combinations are checked against. */
  function WeightedSum(coeffs: seq<real>, ks: seq<TimeVector>, m: nat): real
    requires |coeffs| <= |ks|
    requires forall j :: 0 <= j < |ks| ==> m < |ks[j].vec|
  {
    if |coeffs| == 0 then 0.0
    else WeightedSum(coeffs[..|coeffs| - 1], ks, m) + coeffs[|coeffs| - 1] * ks[|coeffs| - 1].vec[m]
  }

  /** `coeffs[0] * ks[0] + coeffs[1] * ks[1] + ...`, built as the program builds it. */
  function Combine(coeffs: seq<real>, ks: seq<TimeVector>): (r: TimeVector)
    requires 1 <= |coeffs| <= |ks|
    requires SameDim(ks, |ks[0].vec|)
    ensures |r.vec| == |ks[0].vec|
  {
    if |coeffs| == 1 then ScaleLeft(coeffs[0], ks[0])
    else
      var n := |coeffs| - 1;
      Add(Combine(coeffs[..n], ks), ScaleLeft(coeffs[n], ks[n]))
  }

  /** The vector stage `|prev|` is evaluated on, given the earlier stages `prev`. */
  function StageInput(t: Tableau, dt: real, x: TimeVector, prev: seq<TimeVector>): (r: TimeVector)
    requires WellShaped(t) && |prev| < NumStages && SameDim(prev, |x.vec|)
    ensures |prev| == 0 ==> r == x
    ensures |prev| > 0 ==> r.time == x.time + t.c[|prev|] * dt
    ensures |r.vec| == |x.vec|
  {
    if |prev| == 0 then x
    else TimeVector(x.time + t.c[|prev|] * dt, Add(x, Combine(t.a[|prev|], prev)).vec)
  }

  /** The stage derivative `k_i = dt * f(input_i)` for `i == |prev|`. */
  function Stage(t: Tableau, dt: real, f: TimeVector -> TimeVector, x: TimeVector, prev: seq<TimeVector>): (k: TimeVector)
    requires WellShaped(t) && PreservesDim(f) && |prev| < NumStages && SameDim(prev, |x.vec|)
    ensures |k.vec| == |x.vec|
  {
    ScaleLeft(dt, f(StageInput(t, dt, x, prev)))
  }

  /** The first `n` stage derivatives, each computed from the ones before it. */
  function Stages(t: Tableau, dt: real, f: TimeVector -> TimeVector, x: TimeVector, n: nat): (ks: seq<TimeVector>)
    requires WellShaped(t) && PreservesDim(f) && n <= NumStages
    ensures |ks| == n && SameDim(ks, |x.vec|)
  {
    if n == 0 then []
    else
      var prev := Stages(t, dt, f, x, n - 1);
      prev + [Stage(t, dt, f, x, prev)]
  }

  /** The new state `x + sum_j b[j] * k_j`, at time `x.time + dt`. */
  function Advance(dt: real, x: TimeVector, ks: seq<TimeVector>, b: seq<real>): (r: TimeVector)
    requires |b| == NumStages && |ks| == NumStages && SameDim(ks, |x.vec|)
    ensures r.time == x.time + dt && |r.vec| == |x.vec|
  {
    TimeVector(dt + x.time, Add(x, Combine(b, ks)).vec)
  }

  /** One fixed-size step with output row `b`. */
  function Solve(t: Tableau, dt: real, f: TimeVector -> TimeVector, x: TimeVector, b: seq<real>): (r: TimeVector)
    requires WellShaped(t) && PreservesDim(f) && |b| == NumStages
    ensures r.time == x.time + dt && |r.vec| == |x.vec|
  {
    Advance(dt, x, Stages(t, dt, f, x, NumStages), b)
  }

  // ---------------------------------------------------------------------
  // Entry formulas

  /** Entry `m` of a combination is the weighted sum of the stages' entries `m`. */
  lemma {:induction false} CombineEntry(coeffs: seq<real>, ks: seq<TimeVector>, m: nat)
    requires 1 <= |coeffs| <= |ks|
    requires SameDim(ks, |ks[0].vec|) && m < |ks[0].vec|
    ensures Combine(coeffs, ks).vec[m] == WeightedSum(coeffs, ks, m)
    decreases |coeffs|
  {
    var n := |coeffs| - 1;
    if n == 0 {
      assert Combine(coeffs, ks) == ScaleLeft(coeffs[0], ks[0]);
      ScaleLeftAt(coeffs[0], ks[0], m);
    } else {
      var prefix := Combine(coeffs[..n], ks);
      var last := ScaleLeft(coeffs[n], ks[n]);
      assert Combine(coeffs, ks) == Add(prefix, last);
      CombineEntry(coeffs[..n], ks, m);
      AddAt(prefix, last, m);
      ScaleLeftAt(coeffs[n], ks[n], m);
      WeightedSumLast(coeffs, ks, m);
    }
  }

  lemma WeightedSumLast(coeffs: seq<real>, ks: seq<TimeVector>, m: nat)
    requires 1 <= |coeffs| <= |ks|
    requires forall j :: 0 <= j < |ks| ==> m < |ks[j].vec|
    ensures WeightedSum(coeffs, ks, m)
         == WeightedSum(coeffs[..|coeffs| - 1], ks, m) + coeffs[|coeffs| - 1] * ks[|coeffs| - 1].vec[m]
  {
  }

  /** Stage `|prev|` is evaluated on `x + sum_{j<|prev|} a[|prev|][j] * k_j`. */
  lemma StageInputEntry(t: Tableau, dt: real, x: TimeVector, prev: seq<TimeVector>, m: nat)
    requires WellShaped(t) && |prev| < NumStages && SameDim(prev, |x.vec|) && m < |x.vec|
    ensures StageInput(t, dt, x, prev).vec[m] == x.vec[m] + WeightedSum(t.a[|prev|], prev, m)
  {
    if |prev| > 0 {
      CombineEntry(t.a[|prev|], prev, m);
      AddAt(x, Combine(t.a[|prev|], prev), m);
    }
  }

  /** The new state's entry `m` is `x`'s entry plus the `b`-weighted sum of the stages. */
  lemma AdvanceEntry(dt: real, x: TimeVector, ks: seq<TimeVector>, b: seq<real>, m: nat)
    requires |b| == NumStages && |ks| == NumStages && SameDim(ks, |x.vec|) && m < |x.vec|
    ensures Advance(dt, x, ks, b).vec[m] == x.vec[m] + WeightedSum(b, ks, m)
  {
    CombineEntry(b, ks, m);
    AddAt(x, Combine(b, ks), m);
  }

  // ---------------------------------------------------------------------
  // Explicitness

  /** Computing more stages never revises the earlier ones. */
  lemma {:induction false} StagesPrefix(t: Tableau, dt: real, f: TimeVector -> TimeVector, x: TimeVector, i: nat, n: nat)
    requires WellShaped(t) && PreservesDim(f) && i <= n <= NumStages
    ensures Stages(t, dt, f, x, n)[..i] == Stages(t, dt, f, x, i)
    decreases n
  {
    if i < n {
      StagesPrefix(t, dt, f, x, i, n - 1);
      StagesPrefixStep(t, dt, f, x, i, n);
    } else {
      StagesFull(t, dt, f, x, n);
    }
  }

  /** One more stage leaves every prefix of the shorter list in place. */
  lemma StagesPrefixStep(t: Tableau, dt: real, f: TimeVector -> TimeVector, x: TimeVector, i: nat, n: nat)
    requires WellShaped(t) && PreservesDim(f) && i < n <= NumStages
    requires Stages(t, dt, f, x, n - 1)[..i] == Stages(t, dt, f, x, i)
    ensures Stages(t, dt, f, x, n)[..i] == Stages(t, dt, f, x, i)
  {
    StagesExtend(t, dt, f, x, n);
    var ks, shorter := Stages(t, dt, f, x, n), Stages(t, dt, f, x, n - 1);
    PrefixOfPrefix(ks, i, n - 1);
    assert ks[..i] == shorter[..i];
  }

  lemma StagesFull(t: Tableau, dt: real, f: TimeVector -> TimeVector, x: TimeVector, n: nat)
    requires WellShaped(t) && PreservesDim(f) && n <= NumStages
    ensures Stages(t, dt, f, x, n)[..n] == Stages(t, dt, f, x, n)
  {
    var ks := Stages(t, dt, f, x, n);
    assert ks[..|ks|] == ks;
  }

  lemma PrefixOfPrefix<T>(s: seq<T>, i: nat, j: nat)
    requires i <= j <= |s|
    ensures s[..j][..i] == s[..i]
  {
  }

  lemma StagesExtend(t: Tableau, dt: real, f: TimeVector -> TimeVector, x: TimeVector, n: nat)
    requires WellShaped(t) && PreservesDim(f) && 1 <= n <= NumStages
    ensures Stages(t, dt, f, x, n)[..n - 1] == Stages(t, dt, f, x, n - 1)
  {
    var prev := Stages(t, dt, f, x, n - 1);
    assert Stages(t, dt, f, x, n) == prev + [Stage(t, dt, f, x, prev)];
  }

  /**
   Stage `i` of a full step is computed from stages `0..i-1` only; together
   with the contract of `StageInput` this is the explicit structure of the
   scheme.
   */
  lemma StageUsesOnlyEarlierStages(t: Tableau, dt: real, f: TimeVector -> TimeVector, x: TimeVector, i: nat)
    requires WellShaped(t) && PreservesDim(f) && i < NumStages
    ensures Stages(t, dt, f, x, NumStages)[i] == Stage(t, dt, f, x, Stages(t, dt, f, x, NumStages)[..i])
  {
    StagesPrefix(t, dt, f, x, i + 1, NumStages);
    StagesPrefix(t, dt, f, x, i, NumStages);
    var ks := Stages(t, dt, f, x, NumStages);
    assert ks[i] == ks[..i + 1][i];
  }

  /** A weighted sum sees only the stages its coefficients reach. */
  lemma {:induction false} WeightedSumPrefix(coeffs: seq<real>, ks: seq<TimeVector>, n: nat, m: nat)
    requires |coeffs| <= n <= |ks|
    requires forall j :: 0 <= j < |ks| ==> m < |ks[j].vec|
    ensures WeightedSum(coeffs, ks, m) == WeightedSum(coeffs, ks[..n], m)
    decreases |coeffs|
  {
    if |coeffs| > 0 {
      WeightedSumPrefix(coeffs[..|coeffs| - 1], ks, n, m);
    }
  }

  /** `SumTo` reads only the first `n` entries. */
  lemma {:induction false} SumToPrefix(s: seq<real>, u: seq<real>, n: nat)
    requires n <= |s| && n <= |u| && s[..n] == u[..n]
    ensures SumTo(s, n) == SumTo(u, n)
    decreases n
  {
    if n > 0 {
      assert s[..n - 1] == s[..n][..n - 1];
      assert u[..n - 1] == u[..n][..n - 1];
      SumToPrefix(s, u, n - 1);
      assert s[n - 1] == s[..n][n - 1];
      assert u[n - 1] == u[..n][n - 1];
    }
  }

  /** When every stage has the same entry `k`, the weighted sum is the coefficient sum times `k`. */
  lemma {:induction false} WeightedSumOfEqualStages(coeffs: seq<real>, ks: seq<TimeVector>, m: nat, k: real)
    requires |coeffs| <= |ks|
    requires forall j :: 0 <= j < |ks| ==> m < |ks[j].vec|
    requires forall j :: 0 <= j < |ks| ==> ks[j].vec[m] == k
    ensures WeightedSum(coeffs, ks, m) == Sum(coeffs) * k
    decreases |coeffs|
  {
    if |coeffs| > 0 {
      var n := |coeffs| - 1;
      var prefix := coeffs[..n];
      WeightedSumOfEqualStages(prefix, ks, m, k);
      WeightedSumLast(coeffs, ks, m);
      SumToPrefix(prefix, coeffs, n);
      assert Sum(coeffs) == Sum(prefix) + coeffs[n];
      assert Sum(prefix) * k + coeffs[n] * k == (Sum(prefix) + coeffs[n]) * k;
    }
  }

  /** `f` returns the vector `cv` on every input of dimension `|cv|`. */
  ghost predicate ConstantOn(f: TimeVector -> TimeVector, cv: seq<real>)
  {
    forall v: TimeVector :: |v.vec| == |cv| ==> f(v).vec == cv
  }

  /** Every stage in `ks` is computed from the ones before it. */
  predicate Explicit(t: Tableau, dt: real, f: TimeVector -> TimeVector, x: TimeVector, ks: seq<TimeVector>)
    requires WellShaped(t) && PreservesDim(f) && |ks| <= NumStages && SameDim(ks, |x.vec|)
  {
    forall j :: 0 <= j < |ks| ==> ks[j] == Stage(t, dt, f, x, ks[..j])
  }

  lemma StagesAreExplicit(t: Tableau, dt: real, f: TimeVector -> TimeVector, x: TimeVector)
    requires WellShaped(t) && PreservesDim(f)
    ensures Explicit(t, dt, f, x, Stages(t, dt, f, x, NumStages))
  {
    forall j | 0 <= j < NumStages
      ensures Stages(t, dt, f, x, NumStages)[j] == Stage(t, dt, f, x, Stages(t, dt, f, x, NumStages)[..j])
    {
      StageUsesOnlyEarlierStages(t, dt, f, x, j);
    }
  }

  /** With a constant derivative every stage of an explicit list is `dt * cv`. */
  lemma StageOfConstant(t: Tableau, dt: real, f: TimeVector -> TimeVector, x: TimeVector, cv: seq<real>, ks: seq<TimeVector>, j: nat)
    requires WellShaped(t) && PreservesDim(f) && ConstantOn(f, cv) && |cv| == |x.vec|
    requires |ks| <= NumStages && SameDim(ks, |x.vec|) && Explicit(t, dt, f, x, ks)
    requires j < |ks|
    ensures ks[j].vec == ScaleLeft(dt, TimeVector(0.0, cv)).vec
  {
    ConstantStage(t, dt, f, x, cv, ks[..j]);
  }

  lemma ConstantStage(t: Tableau, dt: real, f: TimeVector -> TimeVector, x: TimeVector, cv: seq<real>, prev: seq<TimeVector>)
    requires WellShaped(t) && PreservesDim(f) && ConstantOn(f, cv) && |cv| == |x.vec|
    requires |prev| < NumStages && SameDim(prev, |x.vec|)
    ensures Stage(t, dt, f, x, prev).vec == ScaleLeft(dt, TimeVector(0.0, cv)).vec
  {
    var k := f(StageInput(t, dt, x, prev));
    assert k.vec == cv;
    assert Stage(t, dt, f, x, prev) == ScaleLeft(dt, k);
  }

  /**
   A tableau whose output row sums to 1 integrates a constant derivative
   exactly: one step adds `dt * cv` to the state.
   */
  lemma ConstantDerivativeIsExact(t: Tableau, dt: real, f: TimeVector -> TimeVector, x: TimeVector, cv: seq<real>, b: seq<real>)
    requires WellShaped(t) && PreservesDim(f) && ConstantOn(f, cv) && |cv| == |x.vec|
    requires |b| == NumStages && Sum(b) == 1.0
    ensures Solve(t, dt, f, x, b).vec == Add(x, ScaleLeft(dt, TimeVector(0.0, cv))).vec
  {
    var ks := Stages(t, dt, f, x, NumStages);
    var d := ScaleLeft(dt, TimeVector(0.0, cv));
    StagesAreExplicit(t, dt, f, x);
    forall j | 0 <= j < |ks|
      ensures ks[j].vec == d.vec
    {
      StageOfConstant(t, dt, f, x, cv, ks, j);
    }
    forall m | 0 <= m < |x.vec|
      ensures Solve(t, dt, f, x, b).vec[m] == Add(x, d).vec[m]
    {
      ConstantDerivativeEntry(dt, x, ks, d, b, m);
    }
  }

  lemma ConstantDerivativeEntry(dt: real, x: TimeVector, ks: seq<TimeVector>, d: TimeVector, b: seq<real>, m: nat)
    requires |ks| == NumStages && |b| == NumStages && Sum(b) == 1.0
    requires |d.vec| == |x.vec| && m < |x.vec|
    requires forall j :: 0 <= j < |ks| ==> ks[j].vec == d.vec
    ensures Advance(dt, x, ks, b).vec[m] == Add(x, d).vec[m]
  {
    AdvanceEntry(dt, x, ks, b, m);
    WeightedSumOfEqualStages(b, ks, m, d.vec[m]);
    assert Sum(b) * d.vec[m] == d.vec[m];
    AddAt(x, d, m);
  }

  /** A zero last coefficient drops the last stage from a weighted sum. */
  lemma WeightedSumZeroTail(coeffs: seq<real>, ks: seq<TimeVector>, m: nat)
    requires 1 <= |coeffs| <= |ks| && coeffs[|coeffs| - 1] == 0.0
    requires forall j :: 0 <= j < |ks| ==> m < |ks[j].vec|
    ensures WeightedSum(coeffs, ks, m) == WeightedSum(coeffs[..|coeffs| - 1], ks, m)
  {
    WeightedSumLast(coeffs, ks, m);
  }

}
