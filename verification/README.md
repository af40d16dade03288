# Composite-likelihood information criteria: control logic

A Dafny model of the `iclik` package, which computes the composite-likelihood
Akaike and Bayesian information criteria (CLAIC, CLBIC) of a fitted model. The
numerical differentiation is done by a library; this model covers what the
package itself decides:

- **Screening** (`Screening`): the two detectors `_detect_zeros` and
  `_detect_nan_inf` over the estimate vector. Each has an allow / warn / error
  policy. Policy strings are checked in a fixed order.
- **Step-shrinking retry** (`Matrices`): `hessian` and `jacobian` call an
  opaque estimator with a step. When no entry of the estimate is finite they
  retry with `step * step_factor`. The source has no retry bound. Here a
  `fuel` count stands for the interpreter's recursion limit, and `None` means
  the limit was reached.
- **Formulas and assembly** (`Linear`, `InformCrit`). The formulas are
  `CLAIC = -2L + 2 tr(J H^-1)` and `CLBIC = -2L + log(n) tr(J H^-1)`, over
  exact reals. `_information_criterion` screens the estimates, estimates J and
  then H, evaluates the likelihood, and returns CLAIC and then CLBIC as
  requested. `claic` and `clbic` take element 0 of that list.
- **Doubles** (`Floats`): `Finite(real) | NaN | PosInf | NegInf`, with numpy's
  `isfinite` and `< 0`. Note that `-inf < 0` holds and `NaN < 0` does not.
- `Cases` restates the worked example of the repository's tests:
  `x^2 + y^2 + z^2` at `(1, 2, 3)`.

Exceptions are `Err` values of `Errors.Failure`. Printed messages are
`Errors.Diagnostic` values returned next to the result. The library's
estimators, `np.linalg.inv` and `np.log` are parameters, grouped in the
`Backend` record.

Where the code and the package's own descriptions disagree, the model follows
the code:
- The zeros detector flags `< 0`, so a zero estimate is not flagged. The option
  name and its message say "zero or negative".
- The retry test is "no entry finite", so an estimate that is partly NaN is
  accepted. The docstrings say "until all elements are finite".
- `zeros` is checked and applied before `nan_infs` is looked at.
- The derivatives are estimated before the likelihood is evaluated: the
  Jacobian first, then the Hessian.
- In `_information_criterion`, an `n_samples` of `None` is detected only when
  CLBIC is reached. That happens after both retries and after CLAIC, if CLAIC
  was requested. `clbic` takes `n_samples` as a required argument, and the
  model's `nSamples == None` stands for passing `None` explicitly.
- An invalid policy string and a missing sample count fail through `assert`.
  They are modelled as failures.

## Model

| member | source | states |
|---|---|---|
| Floats.AnyNegative | iclik/inform_crit.py:20 | `(estimates < 0).any()` holds exactly when some entry is a negative finite value or -inf |
| Floats.AllFinite | iclik/inform_crit.py:29 | `np.isfinite(estimates).all()` holds exactly when no entry is NaN or an infinity |
| Floats.AnyFiniteEntry | iclik/matrices.py:19 | `np.isfinite(mat).any()` holds exactly when some entry of some row is finite |
| Screening.ParsePolicy | iclik/inform_crit.py:41 | exactly the strings "allow", "warn" and "error" are accepted, each as its own policy |
| Screening.DetectZeros | iclik/inform_crit.py:18-24 | raises `NegativeValues` iff `error` is set and some entry is strictly negative; otherwise it warns iff `warn` is set and such an entry exists |
| Screening.DetectNanInf | iclik/inform_crit.py:27-33 | raises `NonFiniteValues` iff `error` is set and some entry is NaN or infinite; otherwise it warns iff `warn` is set and such an entry exists |
| Screening.Validate | iclik/inform_crit.py:41-51 | an invalid `zeros` string fails first, then a zeros error, then an invalid `nan_infs` string, then a non-finite error; screening passes iff none applies; the warnings are the zeros warning then the NaN/inf warning |
| Screening.AllowAllowPassesEverything | iclik/inform_crit.py:41-51 | with both policies "allow", screening passes with no warning for every estimate vector |
| Screening.ZerosScreenedFirst | iclik/inform_crit.py:41-47 | with `zeros="error"` and a negative entry, the zeros error is raised whatever `nan_infs` is, even an invalid string |
| Screening.ZeroNotFlagged | iclik/inform_crit.py:18-24 | zeros, NaN and +inf entries pass the zeros detector even under "error" |
| Linear.MatMul | iclik/inform_crit.py:8 | `J @ Hinv` has J's rows and Hinv's columns, and entry (i, j) is the dot product of row i of J with column j of Hinv |
| Linear.TraceOfRow | iclik/inform_crit.py:8 | the trace of a one-row matrix is its top-left entry (`np.trace` sums the diagonal up to the smaller dimension) |
| Linear.TraceIdentity | iclik/inform_crit.py:8 | the trace of the n-by-n identity is n |
| Matrices.Refine | iclik/matrices.py:17-24 | an accepted estimate has a finite entry; it is the estimator's output at `initial_step * step_factor^k`, where k retries were made and k is at most the fuel; the k printed steps are `initial_step * step_factor^1..k`; an estimate with a finite entry at the first step is returned unchanged after one call |
| Matrices.Hessian | iclik/matrices.py:5-24 | an accepted Hessian has a finite entry and is the Hessian estimator's output at the final step |
| Matrices.Jacobian | iclik/matrices.py:27-46 | the same control flow as `Hessian`, around the Jacobian estimator |
| Matrices.RefineFirstFinite | iclik/matrices.py:17-22 | every step before the accepted one produced an estimate with no finite entry |
| Matrices.RefineExhausted | iclik/matrices.py:19-22 | the retry gives up iff none of the steps `initial_step * step_factor^k`, for k up to the fuel, gives an estimate with a finite entry |
| Matrices.RefineFuelMonotone | iclik/matrices.py:19-24 | a larger recursion limit returns the same estimate as a smaller one that already succeeded |
| Matrices.StepsShrink | iclik/matrices.py:20 | with `initial_step > 0` and `0 < step_factor < 1`, every step is positive and strictly smaller than the one before it |
| Matrices.PartlyFiniteAccepted | iclik/matrices.py:19 | an estimate with one finite entry and one NaN is accepted on the first call: not every entry need be finite |
| Matrices.EmptyEstimateNeverAccepted | iclik/matrices.py:19-22 | an estimator that returns an empty matrix never passes the test, so the retry always runs out |
| InformCrit.SharedPenalty | iclik/inform_crit.py:5-15 | CLAIC and CLBIC share the trace term; they differ by `(log n - 2)` times it |
| InformCrit.ClBayes | iclik/inform_crit.py:11-15 | when J equals H and H·Hinv = I, the trace term is the parameter count, so CLBIC becomes the classical BIC `-2L + log(n) p` |
| InformCrit.ClAkaike | iclik/inform_crit.py:5-8 | CLAIC is the CLBIC formula with coefficient 2 in place of `log(n)`; when J equals H and H·Hinv = I it is the classical AIC `-2L + 2p` |
| InformCrit.GradientRowPenalty | iclik/inform_crit.py:7-8 | with a one-row Jacobian, the trace term is `sum(J[0][k] * Hinv[k][0])`; only the first column of the inverse contributes |
| InformCrit.Evaluate | iclik/inform_crit.py:11-15 | failures come in numpy's order: a non-square Hessian, or a finite one the supplied inverse does not invert, fails as `NotInvertible` (`np.linalg.inv`), whatever the likelihood, J or coefficient hold; then a Jacobian whose columns do not match the Hessian fails as `ShapeMismatch` (`@`); only past both does a NaN or infinity among the inputs give `NonFinite`; the value is exact iff every input is finite and ready, and it is then exactly `-2L + c tr(J H^-1)` |
| InformCrit.Assemble | iclik/inform_crit.py:58-65 | succeeds iff each requested criterion evaluates and CLBIC has a sample count; then it holds one entry per request, CLAIC first, each that criterion's value; a failing evaluation's own error is returned, a CLAIC error ahead of the sample-count check and of CLBIC's |
| InformCrit.InformationCriterion | iclik/inform_crit.py:36-65 | a screening failure is returned before any estimator, likelihood or inverse is consulted; the retry limit fails iff screening passed and a retry ran out; otherwise the result is the assembled list; with finite, invertible, conformable estimates it succeeds iff CLBIC is not requested without a sample count, and every exact value is the formula over the accepted matrices; the messages are the screening warnings, then the Jacobian step changes, then the Hessian ones |
| InformCrit.Claic | iclik/inform_crit.py:68-87 | never fails for a missing sample count; fails with `RetryLimit` iff screening passed and a retry ran out; once both retries succeed, its value or error is exactly that of evaluating CLAIC on the accepted estimates, so a singular Hessian is an error even beside a NaN; when screening passes and the accepted estimates are finite, invertible and conformable it returns an exact value with the printed messages, and any exact value is `ClAkaike(L, J, H^-1)` over the accepted matrices |
| InformCrit.Clbic | iclik/inform_crit.py:90-111 | `n_samples=None` always fails; it fails for that reason iff screening passed and both retries succeeded; it fails with `RetryLimit` iff screening passed and a retry ran out; with a sample count and both retries successful, its value or error is exactly that of evaluating CLBIC with coefficient `log n`; with a sample count and computable estimates it succeeds, exactly when `log n` is finite; any exact value is `ClBayes(L, J, H^-1, log n)` over the accepted matrices |
| InformCrit.CombinedRequest | iclik/inform_crit.py:58-65 | requesting both criteria succeeds iff `claic` and `clbic` both do, and yields their two values in that order with the same messages |
| InformCrit.WarnContinues | iclik/inform_crit.py:42-51 | with both policies "allow" or "warn", computable estimates give an exact CLAIC, and the screening warnings are the first messages |
| InformCrit.DefaultScreening | iclik/inform_crit.py:36-38 | under the default options a non-finite estimate is an error and a negative one passes silently |
| Cases.ClaicCase | tests/test_inform_crit.py:14-19 | `diag(1/2)` inverts `2I`, and CLAIC of the worked example is `-2*14 + 2*1 = -26` |
| Cases.ClbicCase | tests/test_inform_crit.py:21-30 | CLBIC of the worked example is `-28 + log(100)` |
| Cases.SingularBeforeNaN | iclik/inform_crit.py:8 | a Jacobian `[[NaN, 1]]` that the retry accepts does not hide the singular Hessian `[[1, 1], [1, 1]]`: evaluating CLAIC fails as `NotInvertible`, whatever the likelihood and the supplied inverse |
| Cases.AllOnesSingular | iclik/inform_crit.py:8 | the all-ones 2-by-2 matrix has no right inverse, so `np.linalg.inv` raises on it |
| Cases.ClaicEndToEnd | tests/test_inform_crit.py:14-19 | `claic(f1, (1, 2, 3))` with `f1 = x^2 + y^2 + z^2`, estimators returning the exact matrices and the default options returns exactly -26 and prints nothing |

## Left out

- The library's finite-difference stencils and their accuracy. The estimator
  is an opaque function of the likelihood, the point and the step. The numeric
  tolerance checks in tests/test_matrices.py are not modelled.
- Floating-point rounding. Steps, products and the formulas are exact reals.
  In the source, repeated halving eventually rounds the step to zero. The
  model does not represent this.
- InformCrit.Evaluate: `np.linalg.inv` is the supplied `inv`. A non-square
  Hessian fails; a finite square one fails unless `inv` returned a right
  inverse. What numpy's inverse does with a square Hessian holding a NaN or
  an infinity (LAPACK may raise or return NaNs) is not modelled: such a
  Hessian passes on, and its value is `NonFinite` unless the shapes of
  `J @ H^-1` fail first.
- `np.log` is the supplied `log`. A non-positive sample count has whatever
  value `log` gives it.
- IEEE arithmetic on NaN and infinities. `NonFinite` records only that a NaN
  or an infinity entered the formula. numpy's result may still be finite: an
  infinite Hessian entry can invert to 0.
- Printing on a failing run. On success, warnings and "changing step size"
  lines are returned as diagnostics in order: screening, then Jacobian
  retries, then Hessian retries. A failure is a bare `Err`. Lines the source
  printed before raising are not kept: for example, the zeros warning printed
  before a NaN/inf error, or step lines printed before the recursion limit or
  a singular Hessian.
- Calling `clbic` without `n_samples`. Python raises `TypeError` at the call,
  before any screening. The model's `nSamples` is always present, and `None`
  stands for an explicit `n_samples=None`.
- Unbounded recursion. It is bounded by `recursionLimit`. The source relies on
  the interpreter's recursion limit.
- Exceptions raised by the likelihood function. It is total here.
- Running under `python -O`, which strips the `assert` checks.
- Non-array inputs. A tuple of estimates makes `estimates < 0` raise a
  `TypeError`; estimates are vectors here.
- `calc_claic is True` on non-boolean values. The flags are booleans here.
- Determinism needs no statement: every member is a pure function.
- `hessian` and `jacobian` share one definition, `Refine`, so no separate
  lemma is needed to show they have the same control flow.
- claic/inform_crit.py, clikic/inform_crit.py and claic/matrices.py are earlier
  copies of the same formulas with no screening or retry. setup.py is packaging
  metadata.
