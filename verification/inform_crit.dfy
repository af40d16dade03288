/** The composite-likelihood information criteria: the two formulas, the
    assembly that screens the estimates, runs the derivative retries and
    evaluates the likelihood, and the `claic` / `clbic` entry points. */
module InformCrit {
  import opened Wrappers
  import opened Floats
  import opened Errors
  import opened Linear
  import opened Screening
  import opened Matrices

  /** The penalty term both criteria share: `trace(J @ H^-1)`. */
  function Penalty(jac: RMatrix, hinv: RMatrix): real
    requires Conformable(jac, hinv)
  {
    Trace(MatMul(jac, hinv))
  }

  /** `_cl_bayes`, with the inverse Hessian and `log(n_samples)` supplied.
      When J is the Hessian itself (the information identity of a correctly
      specified full likelihood) the trace term is the parameter count, and
      CLBIC is the classical BIC. */
  function ClBayes(likelihood: real, jac: RMatrix, hinv: RMatrix, logN: real): (r: real)
    requires Conformable(jac, hinv)
    ensures IsRightInverse(jac, hinv) ==> r == -2.0 * likelihood + logN * (|jac| as real)
  {
    TraceIdentity(|jac|);
    -2.0 * likelihood + logN * Penalty(jac, hinv)
  }

  /** `_cl_akaike`, with the inverse Hessian supplied: the CLBIC formula with
      the coefficient 2 in place of log n. */
  function ClAkaike(likelihood: real, jac: RMatrix, hinv: RMatrix): (r: real)
    requires Conformable(jac, hinv)
    ensures r == ClBayes(likelihood, jac, hinv, 2.0)
    ensures IsRightInverse(jac, hinv) ==> r == -2.0 * likelihood + 2.0 * (|jac| as real)
  {
    -2.0 * likelihood + 2.0 * Penalty(jac, hinv)
  }

  /** The two criteria share one trace term and differ only in its coefficient:
      2 for CLAIC, log n for CLBIC. */
  lemma SharedPenalty(likelihood: real, jac: RMatrix, hinv: RMatrix, logN: real)
    requires Conformable(jac, hinv)
    ensures ClAkaike(likelihood, jac, hinv) == -2.0 * likelihood + 2.0 * Penalty(jac, hinv)
    ensures ClBayes(likelihood, jac, hinv, logN) == -2.0 * likelihood + logN * Penalty(jac, hinv)
    ensures ClBayes(likelihood, jac, hinv, logN) - ClAkaike(likelihood, jac, hinv)
            == (logN - 2.0) * Penalty(jac, hinv)
  {
  }

  /** With the gradient-shaped 1-by-n Jacobian the source produces, the trace
      picks the single entry `sum(J[0][k] * Hinv[k][0])`: only the first column
      of the inverse Hessian contributes. */
  lemma GradientRowPenalty(jac: RMatrix, hinv: RMatrix)
    requires Conformable(jac, hinv) && |jac| == 1 && |hinv| >= 1 && Cols(hinv) >= 1
    ensures Penalty(jac, hinv) == Dot(jac[0], hinv, 0, |hinv|)
  {
    TraceOfRow(MatMul(jac, hinv));
  }

  /** A criterion value: `Exact` when every number entering the formula is
      finite; `NonFinite` records only that a NaN or an infinity entered it,
      whatever IEEE arithmetic would have made of it. */
  datatype Value = Exact(r: real) | NonFinite

  /** Everything entering the formula is finite, the supplied inverse inverts
      the Hessian, and `J @ H^-1` is defined. */
  ghost predicate Ready(likelihood: Float, jac: Matrix, hess: Matrix, inv: RMatrix -> RMatrix) {
    && IsFinite(likelihood) && EveryEntryFinite(jac) && EveryEntryFinite(hess)
    && IsRightInverse(ToReal(hess), inv(ToReal(hess)))
    && Conformable(ToReal(jac), inv(ToReal(hess)))
  }

  /** `v` is `-2 * likelihood + coefficient * trace(J @ inv(H))` over inputs
      that are ready for the formula. */
  ghost predicate FormulaOf(v: real, coefficient: real, likelihood: Float, jac: Matrix, hess: Matrix,
                            inv: RMatrix -> RMatrix)
  {
    && Ready(likelihood, jac, hess, inv)
    && v == ClBayes(likelihood.v, ToReal(jac), inv(ToReal(hess)), coefficient)
  }

  /** `np.linalg.inv(hess)` raises `LinAlgError`: the Hessian is not square,
      or it is finite and the supplied inverse does not invert it. What numpy
      makes of a square Hessian holding a NaN or an infinity is not modelled;
      such a Hessian is passed on. */
  ghost predicate InverseFails(hess: Matrix, inv: RMatrix -> RMatrix) {
    !Square(hess) || (EveryEntryFinite(hess) && !IsRightInverse(ToReal(hess), inv(ToReal(hess))))
  }

  /** Reading a finite matrix as exact values keeps its shape. */
  lemma RealShape(m: Matrix)
    ensures EveryEntryFinite(m) ==> Rect(ToReal(m)) == Rect(m) && Cols(ToReal(m)) == Cols(m)
  {
  }

  /** One criterion `-2 * likelihood + coefficient * trace(J @ inv(H))`,
      evaluated from the estimates numpy holds and failing where numpy does,
      in the same order: first `np.linalg.inv` (`NotInvertible`), then the
      shapes of `@` (numpy's `ValueError`, `ShapeMismatch`). Only a formula
      that gets past both can hold a NaN or an infinity, and then its value
      is `NonFinite`. */
  function Evaluate(likelihood: Float, jac: Matrix, hess: Matrix, inv: RMatrix -> RMatrix, coefficient: Float)
    : (r: Result<Value, Failure>)
    ensures r == Err(NotInvertible) <==> InverseFails(hess, inv)
    ensures r == Err(ShapeMismatch) <==> !InverseFails(hess, inv) && !(Rect(jac) && Cols(jac) == |hess|)
    ensures r == Ok(NonFinite) <==>
              && !InverseFails(hess, inv) && Rect(jac) && Cols(jac) == |hess|
              && !(IsFinite(likelihood) && IsFinite(coefficient) && EveryEntryFinite(jac) && EveryEntryFinite(hess))
    ensures r.Ok? && r.value.Exact? <==> IsFinite(coefficient) && Ready(likelihood, jac, hess, inv)
    ensures IsFinite(coefficient) && Ready(likelihood, jac, hess, inv) ==>
              r == Ok(Exact(ClBayes(likelihood.v, ToReal(jac), inv(ToReal(hess)), coefficient.v)))
  {
    RealShape(jac);
    RealShape(hess);
    if !Square(hess) then Err(NotInvertible)
    else if AllFiniteEntries(hess) && !IsRightInverse(ToReal(hess), inv(ToReal(hess))) then Err(NotInvertible)
    else if !(Rect(jac) && Cols(jac) == |hess|) then Err(ShapeMismatch)
    else if !(AllFinite([likelihood, coefficient]) && AllFiniteEntries(jac) && AllFiniteEntries(hess)) then
      assert IsFinite(likelihood) && IsFinite(coefficient) ==> AllFinite([likelihood, coefficient]);
      Ok(NonFinite)
    else
      assert [likelihood, coefficient][0] == likelihood && [likelihood, coefficient][1] == coefficient;
      var h := ToReal(hess);
      var hinv := inv(h);
      var j := ToReal(jac);
      Ok(Exact(ClBayes(likelihood.v, j, hinv, coefficient.v)))
  }

  /** The keyword options of the entry points. */
  datatype Settings = Settings(step: real, stepFactor: real, zeros: string, nanInfs: string)

  /** `step=1e-2, step_factor=0.5, zeros="allow", nan_infs="error"`. */
  const Defaults := Settings(0.01, 0.5, "allow", "error")

  /** What the computation depends on beyond its arguments: the differentiation
      library, `np.linalg.inv`, `np.log`, and how many nested retries the
      interpreter allows. */
  datatype Backend = Backend(numdiff: Numdiff, inv: RMatrix -> RMatrix, log: int -> Float, recursionLimit: nat)

  /** The criteria requested, in the order CLAIC then CLBIC, and everything
      printed on the way. */
  datatype Report = Report(values: seq<Value>, diagnostics: seq<Diagnostic>)

  function StepMessages(e: Estimate): (d: seq<Diagnostic>)
    ensures |d| == |e.shrunk|
    ensures forall k :: 0 <= k < |d| ==> d[k] == StepChanged(e.shrunk[k])
  {
    seq(|e.shrunk|, k requires 0 <= k < |e.shrunk| => StepChanged(e.shrunk[k]))
  }

  /** The result list of `_information_criterion` once the matrices and the
      likelihood are known: CLAIC if requested, then CLBIC if requested, the
      sample count being demanded only when CLBIC is reached. */
  function Assemble(calcClaic: bool, calcClbic: bool, likelihood: Float, jac: Matrix, hess: Matrix,
                    inv: RMatrix -> RMatrix, log: int -> Float, nSamples: Option<int>)
    : (r: Result<seq<Value>, Failure>)
    ensures r.Ok? <==>
              && (calcClaic ==> Evaluate(likelihood, jac, hess, inv, Finite(2.0)).Ok?)
              && (calcClbic ==> nSamples.Some? && Evaluate(likelihood, jac, hess, inv, log(nSamples.value)).Ok?)
    ensures r.Ok? ==> |r.value| == (if calcClaic then 1 else 0) + (if calcClbic then 1 else 0)
    ensures r.Ok? && calcClaic ==> r.value[0] == Evaluate(likelihood, jac, hess, inv, Finite(2.0)).value
    ensures r.Ok? && calcClbic ==>
              r.value[|r.value| - 1] == Evaluate(likelihood, jac, hess, inv, log(nSamples.value)).value
    ensures calcClaic && Evaluate(likelihood, jac, hess, inv, Finite(2.0)).Err? ==>
              r == Err(Evaluate(likelihood, jac, hess, inv, Finite(2.0)).error)
    ensures && calcClbic && nSamples.Some?
            && (calcClaic ==> Evaluate(likelihood, jac, hess, inv, Finite(2.0)).Ok?)
            && Evaluate(likelihood, jac, hess, inv, log(nSamples.value)).Err?
            ==> r == Err(Evaluate(likelihood, jac, hess, inv, log(nSamples.value)).error)
    ensures r.Err? ==> r.error == MissingSampleCount || r.error == NotInvertible || r.error == ShapeMismatch
    ensures r == Err(MissingSampleCount) <==>
              && calcClbic && nSamples.None?
              && (calcClaic ==> Evaluate(likelihood, jac, hess, inv, Finite(2.0)).Ok?)
    ensures r.Ok? && calcClaic && r.value[0].Exact? ==>
              FormulaOf(r.value[0].r, 2.0, likelihood, jac, hess, inv)
    ensures r.Ok? && calcClbic && r.value[|r.value| - 1].Exact? ==>
              && nSamples.Some? && IsFinite(log(nSamples.value))
              && FormulaOf(r.value[|r.value| - 1].r, log(nSamples.value).v, likelihood, jac, hess, inv)
  {
    var akaike :-
      if calcClaic then
        var v :- Evaluate(likelihood, jac, hess, inv, Finite(2.0));
        Ok([v])
      else Ok([]);
    var bayes :-
      if !calcClbic then Ok([])
      else if nSamples.None? then Err(MissingSampleCount)
      else
        var v :- Evaluate(likelihood, jac, hess, inv, log(nSamples.value));
        Ok([v]);
    Ok(akaike + bayes)
  }

  /** `jacobian(f, estimates, initial_step=step, step_factor=step_factor)`. */
  function JacobianFor(backend: Backend, f: Likelihood, estimates: Vector, settings: Settings): Option<Estimate> {
    Jacobian(backend.numdiff, f, estimates, settings.step, settings.stepFactor, backend.recursionLimit)
  }

  /** `hessian(f, estimates, initial_step=step, step_factor=step_factor)`. */
  function HessianFor(backend: Backend, f: Likelihood, estimates: Vector, settings: Settings): Option<Estimate> {
    Hessian(backend.numdiff, f, estimates, settings.step, settings.stepFactor, backend.recursionLimit)
  }

  /** Screening passes, both retries succeed, and what they accept is ready
      for the formula. */
  ghost predicate Computable(backend: Backend, f: Likelihood, estimates: Vector, settings: Settings) {
    && Validate(settings.zeros, settings.nanInfs, estimates).Ok?
    && JacobianFor(backend, f, estimates, settings).Some?
    && HessianFor(backend, f, estimates, settings).Some?
    && Ready(f(estimates), JacobianFor(backend, f, estimates, settings).value.mat,
             HessianFor(backend, f, estimates, settings).value.mat, backend.inv)
  }

  /** `v` is the criterion with the given coefficient for the likelihood at the
      estimates and the Jacobian and Hessian the step-shrinking retries accept. */
  ghost predicate CriterionOf(v: real, coefficient: real, backend: Backend, f: Likelihood,
                              estimates: Vector, settings: Settings)
  {
    var j := JacobianFor(backend, f, estimates, settings);
    var h := HessianFor(backend, f, estimates, settings);
    && j.Some? && h.Some?
    && FormulaOf(v, coefficient, f(estimates), j.value.mat, h.value.mat, backend.inv)
  }

  /** `_information_criterion`: screen the estimates, estimate the Jacobian and
      then the Hessian, evaluate the likelihood, and append CLAIC and then CLBIC
      as requested; `n_samples` is demanded only once CLBIC is reached. */
  function InformationCriterion(calcClaic: bool, calcClbic: bool, backend: Backend, f: Likelihood,
                                estimates: Vector, nSamples: Option<int>, settings: Settings)
    : (r: Result<Report, Failure>)
    ensures Validate(settings.zeros, settings.nanInfs, estimates).Err? ==>
              r == Err(Validate(settings.zeros, settings.nanInfs, estimates).error)
    ensures r == Err(RetryLimit) <==>
              && Validate(settings.zeros, settings.nanInfs, estimates).Ok?
              && (JacobianFor(backend, f, estimates, settings).None? || HessianFor(backend, f, estimates, settings).None?)
    ensures && Validate(settings.zeros, settings.nanInfs, estimates).Ok?
            && JacobianFor(backend, f, estimates, settings).Some?
            && HessianFor(backend, f, estimates, settings).Some?
            ==> var values := Assemble(calcClaic, calcClbic, f(estimates),
                                       JacobianFor(backend, f, estimates, settings).value.mat,
                                       HessianFor(backend, f, estimates, settings).value.mat,
                                       backend.inv, backend.log, nSamples);
                && (r.Ok? <==> values.Ok?)
                && (r.Ok? ==> r.value.values == values.value)
                && (r.Err? ==> r.error == values.error)
    ensures r.Ok? ==>
              && Validate(settings.zeros, settings.nanInfs, estimates).Ok?
              && JacobianFor(backend, f, estimates, settings).Some?
              && HessianFor(backend, f, estimates, settings).Some?
              && r.value.diagnostics == Validate(settings.zeros, settings.nanInfs, estimates).value
                                        + StepMessages(JacobianFor(backend, f, estimates, settings).value)
                                        + StepMessages(HessianFor(backend, f, estimates, settings).value)
    ensures r.Ok? ==> |r.value.values| == (if calcClaic then 1 else 0) + (if calcClbic then 1 else 0)
    ensures calcClbic && nSamples.None? ==> r.Err?
    ensures r == Err(MissingSampleCount) ==> calcClbic && nSamples.None?
    ensures Computable(backend, f, estimates, settings) ==> (r.Ok? <==> !(calcClbic && nSamples.None?))
    ensures r.Ok? && calcClaic && Computable(backend, f, estimates, settings) ==> r.value.values[0].Exact?
    ensures r.Ok? && calcClbic && Computable(backend, f, estimates, settings) ==>
              (r.value.values[|r.value.values| - 1].Exact? <==> IsFinite(backend.log(nSamples.value)))
    ensures r.Ok? && calcClaic && r.value.values[0].Exact? ==>
              CriterionOf(r.value.values[0].r, 2.0, backend, f, estimates, settings)
    ensures r.Ok? && calcClbic && r.value.values[|r.value.values| - 1].Exact? ==>
              && nSamples.Some? && IsFinite(backend.log(nSamples.value))
              && CriterionOf(r.value.values[|r.value.values| - 1].r, backend.log(nSamples.value).v,
                             backend, f, estimates, settings)
  {
    var warnings :- Validate(settings.zeros, settings.nanInfs, estimates);
    var jac :- JacobianFor(backend, f, estimates, settings).ToResult(RetryLimit);
    var hess :- HessianFor(backend, f, estimates, settings).ToResult(RetryLimit);
    var likelihood := f(estimates);
    var values :- Assemble(calcClaic, calcClbic, likelihood, jac.mat, hess.mat, backend.inv, backend.log, nSamples);
    Ok(Report(values, warnings + StepMessages(jac) + StepMessages(hess)))
  }

  /** `claic`: the single CLAIC value; no sample count is involved. */
  function Claic(backend: Backend, f: Likelihood, estimates: Vector, settings: Settings)
    : (r: Result<(Value, seq<Diagnostic>), Failure>)
    ensures Validate(settings.zeros, settings.nanInfs, estimates).Err? ==>
              r == Err(Validate(settings.zeros, settings.nanInfs, estimates).error)
    ensures r.Err? ==> r.error != MissingSampleCount
    ensures r == Err(RetryLimit) <==>
              && Validate(settings.zeros, settings.nanInfs, estimates).Ok?
              && (JacobianFor(backend, f, estimates, settings).None? || HessianFor(backend, f, estimates, settings).None?)
    ensures && Validate(settings.zeros, settings.nanInfs, estimates).Ok?
            && JacobianFor(backend, f, estimates, settings).Some?
            && HessianFor(backend, f, estimates, settings).Some?
            ==> var v := Evaluate(f(estimates), JacobianFor(backend, f, estimates, settings).value.mat,
                                  HessianFor(backend, f, estimates, settings).value.mat, backend.inv, Finite(2.0));
                && (r.Ok? <==> v.Ok?)
                && (r.Ok? ==> r.value.0 == v.value)
                && (r.Err? ==> r.error == v.error)
    ensures Computable(backend, f, estimates, settings) ==>
              && r.Ok?
              && r.value.0.Exact?
              && r.value.1 == Validate(settings.zeros, settings.nanInfs, estimates).value
                              + StepMessages(JacobianFor(backend, f, estimates, settings).value)
                              + StepMessages(HessianFor(backend, f, estimates, settings).value)
    ensures r.Ok? && r.value.0.Exact? ==> CriterionOf(r.value.0.r, 2.0, backend, f, estimates, settings)
  {
    var report :- InformationCriterion(true, false, backend, f, estimates, None, settings);
    Ok((report.values[0], report.diagnostics))
  }

  /** `clbic`: the single CLBIC value; a sample count of `None` fails, but only
      after both derivative retries have succeeded. */
  function Clbic(backend: Backend, f: Likelihood, estimates: Vector, nSamples: Option<int>, settings: Settings)
    : (r: Result<(Value, seq<Diagnostic>), Failure>)
    ensures Validate(settings.zeros, settings.nanInfs, estimates).Err? ==>
              r == Err(Validate(settings.zeros, settings.nanInfs, estimates).error)
    ensures nSamples.None? ==> r.Err?
    ensures r == Err(MissingSampleCount) <==>
              && nSamples.None?
              && Validate(settings.zeros, settings.nanInfs, estimates).Ok?
              && JacobianFor(backend, f, estimates, settings).Some?
              && HessianFor(backend, f, estimates, settings).Some?
    ensures r == Err(RetryLimit) <==>
              && Validate(settings.zeros, settings.nanInfs, estimates).Ok?
              && (JacobianFor(backend, f, estimates, settings).None? || HessianFor(backend, f, estimates, settings).None?)
    ensures && nSamples.Some?
            && Validate(settings.zeros, settings.nanInfs, estimates).Ok?
            && JacobianFor(backend, f, estimates, settings).Some?
            && HessianFor(backend, f, estimates, settings).Some?
            ==> var v := Evaluate(f(estimates), JacobianFor(backend, f, estimates, settings).value.mat,
                                  HessianFor(backend, f, estimates, settings).value.mat, backend.inv,
                                  backend.log(nSamples.value));
                && (r.Ok? <==> v.Ok?)
                && (r.Ok? ==> r.value.0 == v.value)
                && (r.Err? ==> r.error == v.error)
    ensures Computable(backend, f, estimates, settings) && nSamples.Some? ==>
              && r.Ok?
              && (r.value.0.Exact? <==> IsFinite(backend.log(nSamples.value)))
    ensures r.Ok? && r.value.0.Exact? ==>
              && nSamples.Some? && IsFinite(backend.log(nSamples.value))
              && CriterionOf(r.value.0.r, backend.log(nSamples.value).v, backend, f, estimates, settings)
  {
    var report :- InformationCriterion(false, true, backend, f, estimates, nSamples, settings);
    Ok((report.values[0], report.diagnostics))
  }

  /** Requesting both criteria at once yields CLAIC then CLBIC, each equal to
      what its own entry point returns, and it succeeds exactly when both do. */
  lemma CombinedRequest(backend: Backend, f: Likelihood, estimates: Vector, n: int, settings: Settings)
    ensures var both := InformationCriterion(true, true, backend, f, estimates, Some(n), settings);
            var a := Claic(backend, f, estimates, settings);
            var b := Clbic(backend, f, estimates, Some(n), settings);
            && (both.Ok? <==> a.Ok? && b.Ok?)
            && (both.Ok? ==> both.value.values == [a.value.0, b.value.0])
            && (both.Ok? ==> both.value.diagnostics == a.value.1 == b.value.1)
  {
  }

  /** Under "warn" (or "allow") neither screen stops the computation: when the
      retries and the inversion succeed, `claic` returns the exact CLAIC, and
      the screening warnings are the first lines printed. */
  lemma WarnContinues(backend: Backend, f: Likelihood, estimates: Vector, settings: Settings)
    requires settings.zeros == "allow" || settings.zeros == "warn"
    requires settings.nanInfs == "allow" || settings.nanInfs == "warn"
    requires JacobianFor(backend, f, estimates, settings).Some?
    requires HessianFor(backend, f, estimates, settings).Some?
    requires Ready(f(estimates), JacobianFor(backend, f, estimates, settings).value.mat,
                   HessianFor(backend, f, estimates, settings).value.mat, backend.inv)
    ensures var r := Claic(backend, f, estimates, settings);
            && r.Ok? && r.value.0.Exact?
            && (if settings.zeros == "warn" && SomeNegative(estimates) then [NegativeWarning] else [])
               + (if settings.nanInfs == "warn" && SomeNonFinite(estimates) then [NonFiniteWarning] else [])
               <= r.value.1
  {
  }

  /** Under the default options a non-finite estimate is an error and a
      negative one passes silently. */
  lemma DefaultScreening(estimates: Vector)
    ensures Validate(Defaults.zeros, Defaults.nanInfs, estimates)
            == if SomeNonFinite(estimates) then Err(NonFiniteValues) else Ok([])
  {
  }
}
