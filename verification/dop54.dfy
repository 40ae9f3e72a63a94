/**
 The Dormand-Prince 5(4) embedded pair with adaptive step-size control.

 The integrator state keeps the step size, the tolerance, the growth and
 shrink factors, the step-size cap and two diagnostic counters. The Butcher
 tableau and the method order, which the program stores per instance but
 never changes, are module constants here. Floating-point rounding is not
 modelled: values are exact reals, and the square root and `powf` of the
 platform library are supplied by the caller as a `Libm`.
 */
module DormandPrince54 {
  import opened TimeVectors
  import opened ExplicitRk

  /** The order used in the step-size control exponent. */
  const Order: real := 5.0

  /** The exponent of the shrink law, `1 / order`. */
  const RootExponent: real := 1.0 / Order

  /** The Dormand-Prince (1980) coefficients, exact. `c[0]` is the implicit `c1 = 0`. */
  const Tableau54: Tableau := Tableau(
    [0.0, 1.0 / 5.0, 3.0 / 10.0, 4.0 / 5.0, 8.0 / 9.0, 1.0, 1.0],
    [ [],
      [1.0 / 5.0],
      [3.0 / 40.0, 9.0 / 40.0],
      [44.0 / 45.0, -56.0 / 15.0, 32.0 / 9.0],
      [19372.0 / 6561.0, -25360.0 / 2187.0, 64448.0 / 6561.0, -212.0 / 729.0],
      [9017.0 / 3168.0, -355.0 / 33.0, 46732.0 / 5247.0, 49.0 / 176.0, -5103.0 / 18656.0],
      [35.0 / 384.0, 0.0, 500.0 / 1113.0, 125.0 / 192.0, -2187.0 / 6784.0, 11.0 / 84.0] ],
    [35.0 / 384.0, 0.0, 500.0 / 1113.0, 125.0 / 192.0, -2187.0 / 6784.0, 11.0 / 84.0, 0.0],
    [5179.0 / 57600.0, 0.0, 7571.0 / 16695.0, 393.0 / 640.0, -92097.0 / 339200.0, 187.0 / 2100.0, 1.0 / 40.0])

  /**
   The consistency conditions of the pair: every coupling row sums to its
   stage time, both output rows sum to 1, and the last stage is evaluated on
   the 5th-order solution ("first same as last").
   */
  predicate Consistent(t: Tableau)
  {
    && WellShaped(t)
    && t.c[0] == 0.0
    && (forall i :: 0 <= i < NumStages ==> Sum(t.a[i]) == t.c[i])
    && Sum(t.b5) == 1.0
    && Sum(t.b4) == 1.0
    && t.a[NumStages - 1] == t.b5[..NumStages - 1]
    && t.b5[NumStages - 1] == 0.0
  }

  /** The platform's square root and power function, left uninterpreted. */
  datatype Libm = Libm(sqrt: real -> real, powf: (real, real) -> real)

  /** The one fact about `powf` the controller needs: a fifth root of a ratio in (0, 1) stays in (0, 1). */
  ghost predicate RootBounded(powf: (real, real) -> real)
  {
    forall q :: 0.0 < q < 1.0 ==> 0.0 < powf(q, RootExponent) < 1.0
  }

  datatype Dop54 = Dop54(
    dt: real,
    absTol: real,
    upFactor: real,
    downFactor: real,
    dtMax: real,
    numDtSwitch: nat,
    numSteps: nat)

  datatype StepResult = StepResult(state: Dop54, y: TimeVector)

  /** The outcome of driving to an end time; `OutOfFuel` exists only because the model bounds the loop. */
  datatype Run =
    | Landed(state: Dop54, last: TimeVector, y: TimeVector)
    | OutOfFuel(state: Dop54, last: TimeVector)

  /** `s` and `t` share everything but the step size and the counters. */
  predicate SameConfig(s: Dop54, t: Dop54)
  {
    s.absTol == t.absTol && s.upFactor == t.upFactor && s.downFactor == t.downFactor && s.dtMax == t.dtMax
  }

  /** The state invariant the controller keeps for a sensible configuration. */
  predicate Valid(s: Dop54)
  {
    && 0.0 < s.dt <= s.dtMax
    && 0.0 < s.absTol
    && 0.0 < s.downFactor <= 1.0
    && 0.0 < s.upFactor
  }

  lemma TableauIsWellShaped()
    ensures WellShaped(Tableau54)
  {
    var t := Tableau54;
    assert forall i :: 0 <= i < NumStages ==> |t.a[i]| == i by {
      assert |t.a[0]| == 0 && |t.a[1]| == 1 && |t.a[2]| == 2 && |t.a[3]| == 3;
      assert |t.a[4]| == 4 && |t.a[5]| == 5 && |t.a[6]| == 6;
    }
  }

  lemma TableauIsConsistent()
    ensures Consistent(Tableau54)
  {
    TableauIsWellShaped();
    var t := Tableau54;
    assert forall i :: 0 <= i < NumStages ==> Sum(t.a[i]) == t.c[i] by {
      assert Sum(t.a[0]) == t.c[0];
      assert Sum(t.a[1]) == t.c[1];
      assert Sum(t.a[2]) == t.c[2];
      assert Sum(t.a[3]) == t.c[3];
      assert Sum(t.a[4]) == t.c[4];
      assert Sum(t.a[5]) == t.c[5];
      assert Sum(t.a[6]) == t.c[6];
    }
    assert Sum(t.b5) == 1.0;
    assert Sum(t.b4) == 1.0;
  }

  /** The part of `Consistent` that makes the pair "first same as last". */
  lemma TableauLastRowIsOutputRow()
    ensures WellShaped(Tableau54)
    ensures Tableau54.a[NumStages - 1] == Tableau54.b5[..NumStages - 1]
    ensures Tableau54.b5[NumStages - 1] == 0.0
  {
    TableauIsWellShaped();
  }

  /** `New` starts in a valid state exactly when its arguments form one; the program itself checks nothing. */
  lemma NewIsValid(dt: real, dtMax: real, absTol: real, upFactor: real, downFactor: real)
    ensures Valid(New(dt, dtMax, absTol, upFactor, downFactor)) <==>
      0.0 < dt <= dtMax && 0.0 < absTol && 0.0 < downFactor <= 1.0 && 0.0 < upFactor
  {
  }

  function New(dt: real, dtMax: real, absTol: real, upFactor: real, downFactor: real): (s: Dop54)
    ensures s.dt == dt && s.dtMax == dtMax && s.absTol == absTol
    ensures s.upFactor == upFactor && s.downFactor == downFactor
    ensures s.numSteps == 0 && s.numDtSwitch == 0
  {
    Dop54(dt, absTol, upFactor, downFactor, dtMax, 0, 0)
  }

  function SetDeltaT(s: Dop54, dt: real): (r: Dop54)
    ensures r.dt == dt && SameConfig(r, s)
    ensures r.numSteps == s.numSteps && r.numDtSwitch == s.numDtSwitch
  {
    s.(dt := dt)
  }

  /** One fixed step of the 5th-order solution with the current step size. */
  function Solve5th(s: Dop54, f: TimeVector -> TimeVector, x: TimeVector): (r: TimeVector)
    requires PreservesDim(f)
    ensures r.time == x.time + s.dt && |r.vec| == |x.vec|
  {
    TableauIsWellShaped();
    Solve(Tableau54, s.dt, f, x, Tableau54.b5)
  }

  /** One fixed step of the embedded 4th-order solution with the current step size. */
  function Solve4th(s: Dop54, f: TimeVector -> TimeVector, x: TimeVector): (r: TimeVector)
    requires PreservesDim(f)
    ensures r.time == x.time + s.dt && |r.vec| == |x.vec|
  {
    TableauIsWellShaped();
    Solve(Tableau54, s.dt, f, x, Tableau54.b4)
  }

  /**
   The local error estimate: the norm of the difference of the two
   solutions. It vanishes when the two solutions agree.
   */
  function ErrorEstimate(s: Dop54, m: Libm, f: TimeVector -> TimeVector, x: TimeVector): (r: real)
    requires PreservesDim(f)
    ensures var d := Sub(Solve5th(s, f, x), Solve4th(s, f, x)); r == m.sqrt(Dot(d, d))
    ensures m.sqrt(0.0) == 0.0 && Solve5th(s, f, x).vec == Solve4th(s, f, x).vec ==> r == 0.0
  {
    var y5, y4 := Solve5th(s, f, x), Solve4th(s, f, x);
    DifferenceOfEqualsHasNormZero(y5, y4, m.sqrt);
    Norm(Sub(y5, y4), m.sqrt)
  }

  /**
   Conversely, for a square root that vanishes only at 0, a zero error
   estimate means the two solutions have equal entries.
   */
  lemma ZeroErrorMeansAgreement(s: Dop54, m: Libm, f: TimeVector -> TimeVector, x: TimeVector)
    requires PreservesDim(f)
    requires forall y :: 0.0 <= y && m.sqrt(y) == 0.0 ==> y == 0.0
    requires ErrorEstimate(s, m, f, x) == 0.0
    ensures Solve5th(s, f, x).vec == Solve4th(s, f, x).vec
  {
    NormZeroMeansEqual(Solve5th(s, f, x), Solve4th(s, f, x), m.sqrt);
  }

  /**
   The accept/reject controller, given the error estimate `err`. An error
   above the tolerance rejects and shrinks the step by
   `downFactor * (absTol / err)^(1/order)`; otherwise the step grows by
   `upFactor`, capped at `dtMax`. Both outcomes count a step; only a
   rejection counts a step-size switch.
   */
  function Control(s: Dop54, err: real, powf: (real, real) -> real): (r: Dop54)
    requires 0.0 <= s.absTol
    ensures SameConfig(r, s)
    ensures r.numSteps == s.numSteps + 1
    ensures r.numDtSwitch == s.numDtSwitch + (if err > s.absTol then 1 else 0)
    ensures err > s.absTol ==> r.dt == s.downFactor * s.dt * powf(s.absTol / err, RootExponent)
    ensures err <= s.absTol ==> r.dt <= s.dtMax && r.dt <= s.dt * s.upFactor
    ensures err <= s.absTol ==> r.dt == s.dtMax || r.dt == s.dt * s.upFactor
  {
    if err > s.absTol then
      var shrunk := s.downFactor * s.dt * powf(s.absTol / err, RootExponent);
      s.(dt := shrunk, numDtSwitch := s.numDtSwitch + 1, numSteps := s.numSteps + 1)
    else
      var grown := s.dt * s.upFactor;
      var capped := if grown > s.dtMax then s.dtMax else grown;
      s.(dt := capped, numSteps := s.numSteps + 1)
  }

  /**
   One adaptive step: both solutions come from the same seven stages (see
   `SolutionsShareStages`), their difference is the error estimate, and the
   controller decides. A rejection returns the input unchanged; an
   acceptance returns the 5th-order solution taken with the step size in
   force before the call.
   */
  function Step(s: Dop54, m: Libm, f: TimeVector -> TimeVector, x: TimeVector): (r: StepResult)
    requires PreservesDim(f) && 0.0 <= s.absTol
    ensures r.state == Control(s, ErrorEstimate(s, m, f, x), m.powf)
    ensures ErrorEstimate(s, m, f, x) > s.absTol ==> r.y == x
    ensures ErrorEstimate(s, m, f, x) <= s.absTol ==> r.y == Solve5th(s, f, x) && r.y.time == x.time + s.dt
    ensures |r.y.vec| == |x.vec|
  {
    Decide(s, m.powf, x, Trial(ErrorEstimate(s, m, f, x), Solve5th(s, f, x)))
  }

  /** What the controller needs from one evaluation of the pair: the error estimate and the 5th-order solution. */
  datatype Trial = Trial(err: real, y5: TimeVector)

  /** The trial the pair produces from any state and solution. */
  function Trials(m: Libm, f: TimeVector -> TimeVector): (trial: (Dop54, TimeVector) -> Trial)
    requires PreservesDim(f)
  {
    (st: Dop54, y: TimeVector) => Trial(ErrorEstimate(st, m, f, y), Solve5th(st, f, y))
  }

  /**
   The accept/reject decision on a trial. A rejection hands back `x`, counts
   a switch and shrinks the step by `downFactor * (absTol / err)^(1/order)`;
   an acceptance hands back the trial's solution and grows the step to
   `min(dt * upFactor, dtMax)`. Either way one more step is counted and the
   configuration stays.
   */
  function Decide(s: Dop54, powf: (real, real) -> real, x: TimeVector, t: Trial): (r: StepResult)
    requires 0.0 <= s.absTol
    ensures SameConfig(r.state, s) && r.state.numSteps == s.numSteps + 1
    ensures t.err > s.absTol ==>
      && r.y == x
      && r.state.numDtSwitch == s.numDtSwitch + 1
      && r.state.dt == s.downFactor * s.dt * powf(s.absTol / t.err, RootExponent)
    ensures t.err <= s.absTol ==>
      && r.y == t.y5
      && r.state.numDtSwitch == s.numDtSwitch
      && r.state.dt <= s.dtMax && r.state.dt <= s.dt * s.upFactor
      && (r.state.dt == s.dtMax || r.state.dt == s.dt * s.upFactor)
  {
    StepResult(Control(s, t.err, powf), if t.err > s.absTol then x else t.y5)
  }

  /** How many of the error estimates exceed the tolerance. */
  function Rejections(errs: seq<real>, tol: real): nat
  {
    if |errs| == 0 then 0
    else Rejections(errs[..|errs| - 1], tol) + (if errs[|errs| - 1] > tol then 1 else 0)
  }

  /** The controller driven by one error estimate per step, in order. */
  function ControlRun(s: Dop54, errs: seq<real>, powf: (real, real) -> real): (r: Dop54)
    requires 0.0 <= s.absTol
    ensures SameConfig(r, s)
  {
    if |errs| == 0 then s
    else Control(ControlRun(s, errs[..|errs| - 1], powf), errs[|errs| - 1], powf)
  }

  // ---------------------------------------------------------------------
  // Controller properties

  lemma RatioInUnitInterval(a: real, e: real)
    requires 0.0 < a < e
    ensures 0.0 < a / e < 1.0
  {
    var q := a / e;
    assert q * e == a;
    var d := q - 1.0;
    assert d * e == a - e;
    assert a - e < 0.0;
    assert d * e < 0.0;
  }

  /**
   A product kept as one term, so that comparisons between products and
   their factors stay linear for the solver.
   */
  function Mul(a: real, b: real): real
  {
    a * b
  }

  lemma ProductBelow(a: real, b: real)
    requires 0.0 < a && 0.0 < b < 1.0
    ensures 0.0 < a * b && a * b < a
  {
  }

  /** Scaling a positive number by a factor in (0, 1) strictly shrinks it. */
  lemma MulBelow(a: real, b: real)
    requires 0.0 < a && 0.0 < b < 1.0
    ensures 0.0 < Mul(a, b) < a
  {
    var m := Mul(a, b);
    assert m == a * b;
    ProductBelow(a, b);
    assert m < a;
  }

  lemma MulAtMost(a: real, b: real)
    requires 0.0 < a <= 1.0 && 0.0 < b
    ensures 0.0 < Mul(a, b) <= b
  {
  }

  /** `down * dt * p` with `down` in (0, 1] and `p` in (0, 1) lies strictly between 0 and `dt`. */
  lemma ShrunkIsSmaller(down: real, dt: real, p: real, shrunk: real)
    requires 0.0 < down <= 1.0 && 0.0 < dt && 0.0 < p < 1.0
    requires shrunk == down * dt * p
    ensures 0.0 < shrunk < dt
  {
    MulAtMost(down, dt);
    MulBelow(Mul(down, dt), p);
    assert shrunk == Mul(Mul(down, dt), p);
  }

  /** For any error above a positive tolerance, the controller strictly shrinks a positive step and keeps it positive. */
  lemma RejectShrinks(s: Dop54, err: real, powf: (real, real) -> real)
    requires RootBounded(powf)
    requires 0.0 < s.dt && 0.0 < s.absTol && 0.0 < s.downFactor <= 1.0
    requires err > s.absTol
    ensures 0.0 < Control(s, err, powf).dt < s.dt
  {
    RatioInUnitInterval(s.absTol, err);
    var p := powf(s.absTol / err, RootExponent);
    assert 0.0 < p < 1.0;
    ShrunkIsSmaller(s.downFactor, s.dt, p, Control(s, err, powf).dt);
  }

  /** Whatever the error, the controller keeps the state invariant: `dt` stays positive and never exceeds `dtMax`. */
  lemma ControlPreservesValid(s: Dop54, err: real, powf: (real, real) -> real)
    requires RootBounded(powf) && Valid(s)
    ensures Valid(Control(s, err, powf))
  {
    if err > s.absTol {
      RejectShrinks(s, err, powf);
    } else {
      assert 0.0 < s.dt * s.upFactor;
    }
  }

  /** A rejected adaptive step hands back its input and strictly shrinks the step. */
  lemma RejectedStepRetries(s: Dop54, m: Libm, f: TimeVector -> TimeVector, x: TimeVector)
    requires PreservesDim(f) && RootBounded(m.powf)
    requires 0.0 < s.dt && 0.0 < s.absTol && 0.0 < s.downFactor <= 1.0
    requires ErrorEstimate(s, m, f, x) > s.absTol
    ensures Step(s, m, f, x).y == x
    ensures 0.0 < Step(s, m, f, x).state.dt < s.dt
    ensures Step(s, m, f, x).state.numDtSwitch == s.numDtSwitch + 1
  {
    RejectShrinks(s, ErrorEstimate(s, m, f, x), m.powf);
  }

  /** Both solutions of one step are built from one and the same list of seven stages. */
  lemma SolutionsShareStages(s: Dop54, f: TimeVector -> TimeVector, x: TimeVector)
    requires PreservesDim(f)
    ensures (TableauIsWellShaped();
             var ks := Stages(Tableau54, s.dt, f, x, NumStages);
             && Solve5th(s, f, x) == Advance(s.dt, x, ks, Tableau54.b5)
             && Solve4th(s, f, x) == Advance(s.dt, x, ks, Tableau54.b4))
  {
    TableauIsWellShaped();
  }

  /**
   Whatever the error estimates, after any number of steps the invariant
   still holds, the step counter has advanced by exactly that number and the
   switch counter by exactly the number of estimates above the tolerance.
   */
  lemma {:induction false} ControlRunKeepsInvariant(s: Dop54, errs: seq<real>, powf: (real, real) -> real)
    requires RootBounded(powf) && Valid(s)
    ensures var r := ControlRun(s, errs, powf);
      && Valid(r)
      && r.numSteps == s.numSteps + |errs|
      && r.numDtSwitch == s.numDtSwitch + Rejections(errs, s.absTol)
    decreases |errs|
  {
    if |errs| > 0 {
      var n := |errs| - 1;
      ControlRunKeepsInvariant(s, errs[..n], powf);
      ControlPreservesValid(ControlRun(s, errs[..n], powf), errs[n], powf);
    }
  }

  lemma AdvanceIsLastStageInput(dt: real, x: TimeVector, ks: seq<TimeVector>, i: nat)
    requires |ks| == NumStages && SameDim(ks, |x.vec|) && i < |x.vec|
    ensures (TableauIsWellShaped();
             Advance(dt, x, ks, Tableau54.b5).vec[i] == StageInput(Tableau54, dt, x, ks[..NumStages - 1]).vec[i])
  {
    TableauLastRowIsOutputRow();
    var t := Tableau54;
    var prev := ks[..NumStages - 1];
    AdvanceEntry(dt, x, ks, t.b5, i);
    StageInputEntry(t, dt, x, prev, i);
    WeightedSumZeroTail(t.b5, ks, i);
    WeightedSumPrefix(t.a[NumStages - 1], ks, NumStages - 1, i);
  }

  lemma FirstSameAsLastEntry(s: Dop54, f: TimeVector -> TimeVector, x: TimeVector, i: nat)
    requires PreservesDim(f) && i < |x.vec|
    ensures (TableauIsWellShaped();
             Solve5th(s, f, x).vec[i] == StageInput(Tableau54, s.dt, x, Stages(Tableau54, s.dt, f, x, NumStages - 1)).vec[i])
  {
    TableauIsWellShaped();
    var ks := Stages(Tableau54, s.dt, f, x, NumStages);
    StagesPrefix(Tableau54, s.dt, f, x, NumStages - 1, NumStages);
    AdvanceIsLastStageInput(s.dt, x, ks, i);
  }

  /**
   First same as last: the 5th-order solution is exactly the vector the
   seventh stage is evaluated on, time included.
   */
  lemma FirstSameAsLast(s: Dop54, f: TimeVector -> TimeVector, x: TimeVector)
    requires PreservesDim(f)
    ensures (TableauIsWellShaped();
             Solve5th(s, f, x) == StageInput(Tableau54, s.dt, x, Stages(Tableau54, s.dt, f, x, NumStages - 1)))
  {
    TableauLastRowIsOutputRow();
    var l := Solve5th(s, f, x);
    var r := StageInput(Tableau54, s.dt, x, Stages(Tableau54, s.dt, f, x, NumStages - 1));
    forall i | 0 <= i < |x.vec|
      ensures l.vec[i] == r.vec[i]
    {
      FirstSameAsLastEntry(s, f, x, i);
    }
    assert l.vec == r.vec;
  }

  // ---------------------------------------------------------------------
  // A constant derivative

  /** Both output rows of the pair are consistent weightings. */
  lemma OutputRowsSumToOne()
    ensures WellShaped(Tableau54)
    ensures Sum(Tableau54.b5) == 1.0 && Sum(Tableau54.b4) == 1.0
  {
    TableauIsConsistent();
  }

  /** For `y' = cv` both solutions of the pair are the exact `x + dt * cv`. */
  lemma ConstantDerivativeBothOrders(s: Dop54, f: TimeVector -> TimeVector, x: TimeVector, cv: seq<real>)
    requires PreservesDim(f) && ConstantOn(f, cv) && |cv| == |x.vec|
    ensures Solve5th(s, f, x).vec == Add(x, ScaleLeft(s.dt, TimeVector(0.0, cv))).vec
    ensures Solve4th(s, f, x).vec == Add(x, ScaleLeft(s.dt, TimeVector(0.0, cv))).vec
  {
    OutputRowsSumToOne();
    ConstantDerivativeIsExact(Tableau54, s.dt, f, x, cv, Tableau54.b5);
    ConstantDerivativeIsExact(Tableau54, s.dt, f, x, cv, Tableau54.b4);
  }

  /** For `y' = cv` the two solutions agree, so the error estimate vanishes. */
  lemma ConstantDerivativeHasNoError(s: Dop54, m: Libm, f: TimeVector -> TimeVector, x: TimeVector, cv: seq<real>)
    requires PreservesDim(f) && ConstantOn(f, cv) && |cv| == |x.vec| && m.sqrt(0.0) == 0.0
    ensures ErrorEstimate(s, m, f, x) == 0.0
  {
    ConstantDerivativeBothOrders(s, f, x, cv);
  }

  /** Hence for `y' = cv` any non-negative tolerance accepts the step without a step-size switch. */
  lemma ConstantDerivativeIsAccepted(s: Dop54, m: Libm, f: TimeVector -> TimeVector, x: TimeVector, cv: seq<real>)
    requires PreservesDim(f) && ConstantOn(f, cv) && |cv| == |x.vec|
    requires 0.0 <= s.absTol && m.sqrt(0.0) == 0.0
    ensures Step(s, m, f, x).y == Solve5th(s, f, x)
    ensures Step(s, m, f, x).state.numDtSwitch == s.numDtSwitch
  {
    ConstantDerivativeHasNoError(s, m, f, x, cv);
  }

  // ---------------------------------------------------------------------
  // Driving to an end time

  /** The closing fixed step: the step size is set to reach `endTime` from `last` exactly. */
  function Land(st: Dop54, f: TimeVector -> TimeVector, last: TimeVector, endTime: real): (r: Run)
    requires PreservesDim(f)
    ensures r.Landed? && r.last == last && r.state.dt == endTime - last.time
    ensures SameConfig(r.state, st) && r.state.numSteps == st.numSteps && r.state.numDtSwitch == st.numDtSwitch
    ensures r.y == Solve5th(r.state, f, last) && r.y.time == endTime && |r.y.vec| == |last.vec|
  {
    var landing := SetDeltaT(st, endTime - last.time);
    Landed(landing, last, Solve5th(landing, f, last))
  }

  /**
   `n` adaptive steps from `x`, each deciding on the trial taken from the
   state and solution the previous one left: the reference the driver's loop
   is checked against. With `Trials(m, f)` each step is `Step`
   (`TrialsGiveStep`).
   */
  function Iterate(s: Dop54, powf: (real, real) -> real, trial: (Dop54, TimeVector) -> Trial, x: TimeVector, n: nat): (r: StepResult)
    requires 0.0 <= s.absTol
    ensures SameConfig(r.state, s)
    ensures r.state.numSteps == s.numSteps + n && r.state.numDtSwitch >= s.numDtSwitch
  {
    if n == 0 then StepResult(s, x)
    else
      var p := Iterate(s, powf, trial, x, n - 1);
      Decide(p.state, powf, p.y, trial(p.state, p.y))
  }

  lemma TrialsGiveStep(s: Dop54, m: Libm, f: TimeVector -> TimeVector, x: TimeVector)
    requires PreservesDim(f) && 0.0 <= s.absTol
    ensures Decide(s, m.powf, x, Trials(m, f)(s, x)) == Step(s, m, f, x)
  {
  }

  /** Trials whose solution moves the time stamp by the step size and keeps the dimension. */
  ghost predicate Advances(trial: (Dop54, TimeVector) -> Trial)
  {
    forall st: Dop54, y: TimeVector ::
      trial(st, y).y5.time == y.time + st.dt && |trial(st, y).y5.vec| == |y.vec|
  }

  /** The pair's trials are such trials. */
  lemma TrialsAdvance(m: Libm, f: TimeVector -> TimeVector)
    requires PreservesDim(f)
    ensures Advances(Trials(m, f))
  {
    forall st: Dop54, y: TimeVector
      ensures Trials(m, f)(st, y).y5.time == y.time + st.dt && |Trials(m, f)(st, y).y5.vec| == |y.vec|
    {
      assert Trials(m, f)(st, y).y5 == Solve5th(st, f, y);
    }
  }

  /** Adaptive steps over such trials keep the dimension. */
  lemma {:induction false} IterateKeepsDim(s: Dop54, powf: (real, real) -> real, trial: (Dop54, TimeVector) -> Trial, x: TimeVector, n: nat)
    requires 0.0 <= s.absTol && Advances(trial)
    ensures |Iterate(s, powf, trial, x, n).y.vec| == |x.vec|
  {
    if n > 0 {
      IterateKeepsDim(s, powf, trial, x, n - 1);
    }
  }

  /** None of the first `n` adaptive steps from `x` passes `endTime`. */
  predicate StaysBefore(s: Dop54, powf: (real, real) -> real, trial: (Dop54, TimeVector) -> Trial, x: TimeVector, n: nat, endTime: real)
    requires 0.0 <= s.absTol
  {
    n == 0 || (StaysBefore(s, powf, trial, x, n - 1, endTime) && Iterate(s, powf, trial, x, n).y.time <= endTime)
  }

  /** Read pointwise: every step `k` in `1..n` ends at or before `endTime`. */
  lemma {:induction false} StaysBeforeAt(s: Dop54, powf: (real, real) -> real, trial: (Dop54, TimeVector) -> Trial, x: TimeVector, n: nat, endTime: real, k: nat)
    requires 0.0 <= s.absTol
    requires StaysBefore(s, powf, trial, x, n, endTime) && 1 <= k <= n
    ensures Iterate(s, powf, trial, x, k).y.time <= endTime
    decreases n
  {
    if k < n {
      StaysBeforeAt(s, powf, trial, x, n - 1, endTime, k);
    }
  }

  /**
   For a valid state and trials that advance time by the step size, adaptive
   steps keep the invariant and never move time backwards.
   */
  lemma {:induction false} IterateKeepsValid(s: Dop54, powf: (real, real) -> real, trial: (Dop54, TimeVector) -> Trial, x: TimeVector, n: nat)
    requires Valid(s) && RootBounded(powf)
    requires Advances(trial)
    ensures Valid(Iterate(s, powf, trial, x, n).state) && x.time <= Iterate(s, powf, trial, x, n).y.time
    ensures n > 0 ==> Iterate(s, powf, trial, x, n - 1).y.time <= Iterate(s, powf, trial, x, n).y.time
  {
    if n > 0 {
      var p := Iterate(s, powf, trial, x, n - 1);
      IterateKeepsValid(s, powf, trial, x, n - 1);
      ControlPreservesValid(p.state, trial(p.state, p.y).err, powf);
    }
  }

  /**
   The driver's loop over any trials: takes adaptive steps while they end at
   or before `endTime`, and stops at the first step that would pass it
   (`passed`) or after `fuel` steps. `st` and `last` are what the `steps`
   kept steps left.
   */
  method StepWhileBefore(s: Dop54, powf: (real, real) -> real, trial: (Dop54, TimeVector) -> Trial, x: TimeVector, endTime: real, fuel: nat)
    returns (passed: bool, st: Dop54, last: TimeVector, steps: nat)
    requires 0.0 <= s.absTol
    ensures steps <= fuel && Iterate(s, powf, trial, x, steps) == StepResult(st, last)
    ensures StaysBefore(s, powf, trial, x, steps, endTime)
    ensures passed ==> Decide(st, powf, last, trial(st, last)).y.time > endTime
    ensures !passed ==> steps == fuel
    ensures x.time <= endTime ==> last.time <= endTime
  {
    st, last, steps, passed := s, x, 0, false;
    while steps < fuel
      invariant steps <= fuel && Iterate(s, powf, trial, x, steps) == StepResult(st, last)
      invariant StaysBefore(s, powf, trial, x, steps, endTime)
      invariant x.time <= endTime ==> last.time <= endTime
    {
      var next := Decide(st, powf, last, trial(st, last));
      if next.y.time > endTime {
        passed := true;
        return;
      }
      last, st, steps := next.y, next.state, steps + 1;
    }
  }

  /**
   Steps adaptively until a step would pass `endTime`; then, from the last
   state that did not pass it, takes one fixed 5th-order step of exactly
   `endTime - last.time`, with the controller state that passing step left.
   `pre` is the state before the passing step and `steps` the number of
   adaptive steps kept. The program's loop has no bound; `fuel` caps the
   number of adaptive steps here.
   */
  method SolveToEndTime(s: Dop54, m: Libm, endTime: real, f: TimeVector -> TimeVector, x: TimeVector, fuel: nat)
    returns (r: Run, pre: Dop54, steps: nat)
    requires PreservesDim(f) && 0.0 <= s.absTol
    ensures steps <= fuel && Iterate(s, m.powf, Trials(m, f), x, steps) == StepResult(pre, r.last)
    ensures StaysBefore(s, m.powf, Trials(m, f), x, steps, endTime)
    ensures r.Landed? ==>
      var passing := Step(pre, m, f, r.last);
      && passing.y.time > endTime
      && r == Land(passing.state, f, r.last, endTime)
      && r.state.numSteps == s.numSteps + steps + 1
    ensures r.OutOfFuel? ==> steps == fuel && r.state == pre && r.state.numSteps == s.numSteps + fuel
    ensures SameConfig(r.state, s) && |r.last.vec| == |x.vec|
    ensures x.time <= endTime ==> r.last.time <= endTime
    ensures Valid(s) && RootBounded(m.powf) ==> x.time <= r.last.time
    ensures r.Landed? ==> r.y.time == endTime && |r.y.vec| == |x.vec|
  {
    var trial := Trials(m, f);
    var passed, last;
    passed, pre, last, steps := StepWhileBefore(s, m.powf, trial, x, endTime, fuel);
    TrialsAdvance(m, f);
    IterateKeepsDim(s, m.powf, trial, x, steps);
    if passed {
      TrialsGiveStep(pre, m, f, last);
      r := Land(Step(pre, m, f, last).state, f, last, endTime);
    } else {
      r := OutOfFuel(pre, last);
    }
    if Valid(s) && RootBounded(m.powf) {
      IterateKeepsValid(s, m.powf, trial, x, steps);
    }
  }

}
