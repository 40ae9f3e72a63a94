# Dormand-Prince 5(4) integrator core, modelled in Dafny

This project models the numerical core of an N-body simulator:

- **Time vectors.** These are the `SmpVector` values of `num_core/smp_vector.rs`: a time stamp paired with a vector of reals. The model covers their constructors (zero, ones, harmonic), the 2-norm, the inner product, addition, subtraction and both scalar products.
- **The DOP54 integrator.** This is `num_core/dop54.rs`, the Dormand-Prince 5(4) embedded Runge-Kutta pair with its Butcher tableau. The model covers:
  - the fixed-step 5th- and 4th-order solutions;
  - the adaptive step, which accepts or rejects on the norm of the difference between the two solutions;
  - the step-size controller;
  - the driver that steps to an end time and lands on it with one last fixed step.
- **The setting check `NBody::check`** in `num_core/n_body.rs`.
- **The command-line parser `Config::new`** in `num_core/io_config.rs`.

## Files

| File | Module | Contents |
|---|---|---|
| `results.dfy` | `Results` | The `Ok`/`Err` result type shared by the two validators. |
| `time_vectors.dfy` | `TimeVectors` | The `TimeVector` datatype and its operations. Also algebraic laws about them: the add/subtract round trip, commutativity of the entries, the exact forms of the unit tests' scalar-multiple checks, and the partial Basel sum behind the harmonic-vector check. |
| `explicit_rk.dfy` | `ExplicitRk` | Seven-stage explicit Runge-Kutta stage evaluation for any tableau of the right shape. |
| `dop54.dfy` | `DormandPrince54` | Everything specific to the Dormand-Prince method: the tableau, the state record, the two solutions, the controller, the adaptive step and the end-time driver. |
| `n_body.dfy` | `NBodies` | The `NBody` setting and `Check`. |
| `io_config.dfy` | `IoConfig` | `Config` and `New`. |

### Modelling choices

- **Values.** Values are mathematical reals.
- **Library functions.** The program calls the platform's `sqrt` and `powf`. These arrive as function parameters, bundled in `Libm`. Only two facts about them are ever assumed, and only where stated:
  - `sqrt(0) == 0`;
  - `RootBounded`: a fifth root of a ratio in (0, 1) stays in (0, 1).
- **Program order kept.** Stage inputs and solutions are accumulated in the program's own order: left to right, each stage input re-timed to `x.time + c_i * dt`. `Combine` builds them exactly as the program does. The plain weighted sum `WeightedSum` serves as the independent reference it is proved against (`CombineEntry`).
- **Constants.** The program stores the tableau and the order in every `DOP54` value but never changes them. Here they are the module constants `Tableau54` and `Order`.

## Model

| member | source | states |
|---|---|---|
| TimeVectors.Zero | num_core/smp_vector.rs:23-28 | a zero-filled vector of the requested dimension at time 0 |
| TimeVectors.OneFill | num_core/smp_vector.rs:31-36 | a vector of ones of the requested dimension at time 0 |
| TimeVectors.Harmonic | num_core/smp_vector.rs:39-46 | entry `i` is `1/(i+1)`, the dimension is as requested, the time is 0 |
| TimeVectors.SumSquares | num_core/smp_vector.rs:50-56 | the sum under the norm's square root is never negative and is 0 for the empty vector |
| TimeVectors.Norm | num_core/smp_vector.rs:50-56 | the 2-norm is the square root of the vector's inner product with itself |
| TimeVectors.Dot | num_core/smp_vector.rs:60-70 | the inner product reads only the right operand's first `len(left)` entries, and a vector's inner product with itself is its sum of squares |
| TimeVectors.SumSquaresOfZeros | num_core/smp_vector.rs:50-56 | a vector of zeros has a zero sum of squares |
| TimeVectors.DotSymmetric | num_core/smp_vector.rs:60-70 | on equal lengths the inner product is symmetric |
| TimeVectors.DotIgnoresTime | num_core/smp_vector.rs:60-70 | the inner product does not depend on either time stamp |
| TimeVectors.DotSeqPrefix | num_core/smp_vector.rs:60-70 | the loop runs over the left operand, so only the right operand's first `len(left)` entries matter |
| TimeVectors.Add | num_core/smp_vector.rs:73-84 | the sum has the left operand's length and time stamp |
| TimeVectors.AddAt | num_core/smp_vector.rs:73-84 | entry `i` of the sum is the sum of the entries `i` |
| TimeVectors.AddCommutes | num_core/smp_vector.rs:73-84 | the entries of `a + b` and `b + a` agree; only the time stamps, always the left operand's, can differ |
| TimeVectors.Sub | num_core/smp_vector.rs:87-98 | the difference has the left operand's length and time stamp |
| TimeVectors.SubAt | num_core/smp_vector.rs:87-98 | entry `i` of the difference is the difference of the entries `i` |
| TimeVectors.AddThenSub | num_core/smp_vector.rs:73-98 | subtracting `b` after adding it gives back `a` exactly, time stamp included |
| TimeVectors.ZeroSumSquaresMeansZeros | num_core/smp_vector.rs:50-56 | a zero sum of squares means every entry is zero |
| TimeVectors.NonZeroEntryMakesSumSquaresPositive | num_core/smp_vector.rs:50-56 | one non-zero entry makes the sum of squares positive |
| TimeVectors.NormZeroMeansEqual | num_core/smp_vector.rs:50-98 | two vectors of one length whose difference has norm 0 have equal entries, for a square root that vanishes only at 0 |
| TimeVectors.DifferenceOfEqualsHasNormZero | num_core/smp_vector.rs:87-98 | two vectors with equal entries have a difference of norm 0, given `sqrt(0) == 0` |
| TimeVectors.ScaleRight | num_core/smp_vector.rs:101-112 | `v * s` keeps `v`'s length and time stamp |
| TimeVectors.ScaleRightAt | num_core/smp_vector.rs:101-112 | entry `i` of `v * s` is `v[i] * s` |
| TimeVectors.ScaleLeft | num_core/smp_vector.rs:115-126 | `s * v` keeps `v`'s length and time stamp |
| TimeVectors.ScaleLeftAt | num_core/smp_vector.rs:115-126 | entry `i` of `s * v` is `s * v[i]` |
| TimeVectors.ScalingsAgree | num_core/smp_vector.rs:101-126 | the two scalar products build the same vector |
| TimeVectors.AddSelfIsDouble | num_core/smp_vector.rs:137-142 | `a + a` equals `2 a`, so the two have equal norms |
| TimeVectors.SubOfMultiples | num_core/smp_vector.rs:145-150 | `2 a - 3 a` equals `(-1) a`, so the two have equal norms |
| TimeVectors.ScaledZeroHasNormZero | num_core/smp_vector.rs:153-156 | any multiple of the zero vector has norm 0 |
| TimeVectors.HarmonicSelfDot | num_core/smp_vector.rs:159-163 | the harmonic vector's inner product with itself is the partial Basel sum `1 + 1/4 + ... + 1/n^2` |
| ExplicitRk.StageInput | num_core/dop54.rs:141-181 | the first stage is evaluated on `x` itself; stage `i` is evaluated at time `x.time + c_i dt` |
| ExplicitRk.StageInputEntry | num_core/dop54.rs:144-181 | entry `m` of stage `i`'s input is `x[m] + sum_{j<i} a_ij k_j[m]` |
| ExplicitRk.CombineEntry | num_core/dop54.rs:149-190 | the left-to-right chain of additions of scaled stages equals the weighted sum, entry by entry |
| ExplicitRk.Stages | num_core/dop54.rs:141-182 | `n` stages are produced, each of the state's dimension |
| ExplicitRk.StagesPrefix | num_core/dop54.rs:141-182 | computing more stages never revises the earlier ones |
| ExplicitRk.StageUsesOnlyEarlierStages | num_core/dop54.rs:141-182 | stage `i` of a full step is computed from stages `0..i-1` alone |
| ExplicitRk.Solve | num_core/dop54.rs:192-196 | one step moves the time stamp by exactly `dt` and keeps the dimension |
| ExplicitRk.AdvanceEntry | num_core/dop54.rs:184-196 | entry `m` of the new state is `x[m] + sum_j b_j k_j[m]` |
| ExplicitRk.WeightedSumOfEqualStages | num_core/dop54.rs:184-190 | when all stages share entry `k`, the weighted sum is the coefficient sum times `k` |
| ExplicitRk.ConstantDerivativeIsExact | num_core/dop54.rs:136-197 | for `y' = cv` and an output row summing to 1, one step yields exactly `x + dt cv` |
| DormandPrince54.TableauIsWellShaped | num_core/dop54.rs:79-122 | the constants form a seven-stage explicit tableau: row `i` of `a` has `i` entries |
| DormandPrince54.TableauIsConsistent | num_core/dop54.rs:79-122 | each row of `a` sums to its `c`, both output rows sum to 1, and the seventh row of `a` is the 5th-order row |
| DormandPrince54.TableauLastRowIsOutputRow | num_core/dop54.rs:101-114 | `a7j == b1j` for `j < 7` and `b17 == 0`: the "first same as last" property |
| DormandPrince54.OutputRowsSumToOne | num_core/dop54.rs:107-122 | both output rows sum to 1 |
| DormandPrince54.New | num_core/dop54.rs:67-133 | the arguments are stored in their own fields, note the order `dt, dt_max, abs_tol, up, down`, and both counters start at 0 |
| DormandPrince54.NewIsValid | num_core/dop54.rs:67-133 | the new state satisfies `0 < dt <= dt_max`, `0 < abs_tol`, `0 < down <= 1` and `0 < up` exactly when the arguments do; `new` itself neither clamps nor checks them |
| DormandPrince54.SetDeltaT | num_core/dop54.rs:386-388 | only the step size changes |
| DormandPrince54.Solve5th | num_core/dop54.rs:136-197 | the 5th-order solution is stamped `x.time + dt` and keeps the dimension |
| DormandPrince54.Solve4th | num_core/dop54.rs:199-260 | the 4th-order solution is stamped `x.time + dt` and keeps the dimension |
| DormandPrince54.SolutionsShareStages | num_core/dop54.rs:262-328 | the adaptive step's two solutions are built from one and the same seven stages |
| DormandPrince54.FirstSameAsLast | num_core/dop54.rs:176-196 | the 5th-order solution is exactly the vector the seventh stage is evaluated on |
| DormandPrince54.Control | num_core/dop54.rs:329-346 | an error above tolerance sets `dt := down dt (tol/err)^(1/5)` and counts a switch; otherwise `dt` becomes `min(up dt, dt_max)`, and `num_dt_switch` is unchanged; both outcomes count a step |
| DormandPrince54.RejectShrinks | num_core/dop54.rs:332-335 | a rejection strictly shrinks a positive step and keeps it positive |
| DormandPrince54.ControlPreservesValid | num_core/dop54.rs:329-346 | whatever the error, `0 < dt <= dt_max` is kept |
| DormandPrince54.ControlRunKeepsInvariant | num_core/dop54.rs:329-358 | after any sequence of steps the invariant holds, `num_steps` has grown by their number and `num_dt_switch` by the number of rejections |
| DormandPrince54.Step | num_core/dop54.rs:262-347 | a rejection returns the input unchanged; an acceptance returns the 5th-order solution at `x.time + dt`; the state is the controller's verdict on the norm of the difference of the two solutions |
| DormandPrince54.RejectedStepRetries | num_core/dop54.rs:332-338 | a rejected step hands back its input with a strictly smaller step and one more switch |
| DormandPrince54.ConstantDerivativeBothOrders | num_core/dop54.rs:136-260 | for `y' = cv`, both the 5th- and 4th-order solutions are exactly `x + dt cv` |
| DormandPrince54.ConstantDerivativeHasNoError | num_core/dop54.rs:329-330 | for `y' = cv`, the error estimate is 0 |
| DormandPrince54.ConstantDerivativeIsAccepted | num_core/dop54.rs:329-346 | for `y' = cv`, any non-negative tolerance accepts the step without a switch |
| DormandPrince54.ErrorEstimate | num_core/dop54.rs:329-330 | the error estimate is the 2-norm of `y5 - y4`, the square root of that difference's inner product with itself; it vanishes when the two solutions have equal entries, given `sqrt(0) == 0` |
| DormandPrince54.ZeroErrorMeansAgreement | num_core/dop54.rs:329-330 | conversely, for a square root that vanishes only at 0, a zero error estimate means the two solutions have equal entries |
| DormandPrince54.Decide | num_core/dop54.rs:331-346 | if `err > abs_tol`: the input is handed back, `dt` becomes `down dt (abs_tol/err)^(1/5)` and one switch is counted; otherwise: the trial's `y5` is handed back, `dt` becomes `min(up dt, dt_max)` and the switch count stays; either way one step is counted and the configuration stays |
| DormandPrince54.Iterate | num_core/dop54.rs:371-382 | `n` adaptive steps count exactly `n` steps, never lower the switch count and keep the configuration |
| DormandPrince54.IterateKeepsDim | num_core/dop54.rs:371-382 | repeated adaptive steps keep the dimension, for any trials whose solutions keep it |
| DormandPrince54.TrialsAdvance | num_core/dop54.rs:325-330 | the pair's trial solution is stamped `x.time + dt` and keeps the dimension |
| DormandPrince54.StaysBeforeAt | num_core/dop54.rs:371-382 | every adaptive step the loop keeps ends at or before `end_time` |
| DormandPrince54.IterateKeepsValid | num_core/dop54.rs:371-382 | from a valid state, repeated adaptive steps keep `0 < dt <= dt_max`, never end before `x.time`, and each ends no earlier than the step before it |
| DormandPrince54.StepWhileBefore | num_core/dop54.rs:371-382 | the loop keeps exactly the steps `1..steps` of the adaptive iteration, all at or before `end_time`, and stops either at the first step that would pass `end_time` or when the step cap is reached |
| DormandPrince54.Land | num_core/dop54.rs:373-378 | the final step sets `dt` to `end_time - y_old.time` and lands exactly on `end_time` from the last state that did not pass it |
| DormandPrince54.SolveToEndTime | num_core/dop54.rs:363-384 | the loop keeps the adaptive steps `1..steps` from `x`, none past `end_time`; on landing, the next adaptive step from the last kept state passes `end_time`, and the result is the fixed step from that state with `dt = end_time - y_old.time`, taken under the controller state that passing step left, so `num_steps` has grown by exactly `steps + 1`; the configuration is unchanged; from a valid state, the last kept state never ends before `x.time` |
| NBodies.Check | num_core/n_body.rs:13-22 | `Ok` exactly when both lists have one entry per body, and then the setting itself; a mass mismatch is reported first, with its message |
| NBodies.CheckSeesOnlyCounts | num_core/n_body.rs:13-22 | the verdict depends on the three counts alone |
| NBodies.MismatchesAreDistinguishable | num_core/n_body.rs:14-19 | the error message says which list is wrong |
| IoConfig.New | num_core/io_config.rs:16-28 | `Err("Not enough arguments")` exactly when there are fewer than two arguments; otherwise the first two arguments, in order |
| IoConfig.ExtraArgumentsIgnored | num_core/io_config.rs:16-28 | arguments after the second never change the result |
| IoConfig.NewRoundTrip | num_core/io_config.rs:16-28 | every configuration is recovered from the two-argument command line that spells it out |

## Left out

- Floating-point rounding. All values are exact reals, so the tableau constants are the exact rationals the program's literals approximate. The approximate-equality unit tests `vector_add`, `vector_sub` and `vector_zero` (num_core/smp_vector.rs:137-156) become the exact laws `AddSelfIsDouble`, `SubOfMultiples` and `ScaledZeroHasNormZero`.
- The `inner_product` unit test (num_core/smp_vector.rs:159-163) checks that `sqrt(6 a*a)` is within 0.01 of 3.14. `HarmonicSelfDot` proves only that `a*a` is the partial Basel sum. Its limit `pi^2/6` and the tolerance check are not modelled, because they need real analysis and floating point.
- The unit tests of num_core/dop54.rs:407-504: `adaptive_time_steps1`, `forth_order`, `fifth_order` and `calc_ode_napier`. All four integrate `y' = y` numerically and compare with reference values: 98 switches, 4661 steps, the final time and first entry, or `e` after 1000 steps or at time 1. Reproducing those numbers needs floating-point evaluation over thousands of steps, which a proof about exact reals cannot state. The model proves only the exactness property for a constant derivative (`ConstantDerivativeBothOrders`).
- `sqrt` and `powf`: platform library calls, taken as parameters (`Libm`).
- `SmpVector::initialize` is `todo!()` and always panics, so it is not modelled.
- Differing lengths. The program assumes all vectors have one dimension and indexes the right operand by the left one's index. `Add`, `Sub` and `Dot` therefore require the right operand to be at least as long, which is what the indexing needs to stay in bounds.
- `DOP54::get_num_of_dt_switch`, `get_num_of_steps` and `get_delta_t` just read a field. They are the datatype fields `numDtSwitch`, `numSteps` and `dt`.
- DormandPrince54.Control: the counters are unbounded naturals, so the program's `i64` counters are not modelled as wrapping.
- DormandPrince54.Control and DormandPrince54.Step require `0 <= absTol`. With a negative tolerance and a zero error, the program divides by zero and feeds the IEEE result to `powf`, which exact reals cannot express.
- DormandPrince54.SolveToEndTime: the program loops until a step passes the end time, without a bound. The model caps the number of adaptive steps with `fuel` and returns `OutOfFuel` when the cap is reached. It does not model whether the program's loop terminates.
- The `println!` progress output of `solve_to_end_time`.
- DormandPrince54.SolveToEndTime: both `println!` calls of the program (num_core/dop54.rs:377 and 381) read `_y_new.vec[0]`, so on a zero-dimensional state the program panics after the first kept step or on landing. The model leaves out the printing, so it returns normally on such a state.
- `read_setting_yaml` (file I/O) and the YAML deserialisation of `NBody`.
- TimeVectors.Add: the contract states the length and time stamp only; the entries are given by `AddAt`.
- TimeVectors.Sub: the contract states the length and time stamp only; the entries are given by `SubAt`.
- TimeVectors.ScaleRight: the contract states the length and time stamp only; the entries are given by `ScaleRightAt`.
- TimeVectors.ScaleLeft: the contract states the length and time stamp only; the entries are given by `ScaleLeftAt`.
- ExplicitRk.Solve: the contract states only the time stamp and dimension. The entries are given by `AdvanceEntry`, `CombineEntry` and `StageInputEntry`.
