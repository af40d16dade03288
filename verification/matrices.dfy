/** The step-shrinking retry around the numerical differentiation library.
    The library's finite-difference estimator is an opaque function of the
    likelihood, the point and the step; only the control flow around it is
    modelled. */
module Matrices {
  import opened Wrappers
  import opened Floats

  /** A composite log-likelihood: parameter vector to value. */
  type Likelihood = Vector -> Float

  /** A finite-difference estimator with a fixed step (`nd.core.Hessian(f, step=s)`
      applied to the point, or the same for `nd.core.Jacobian`). */
  type Stencil = (Likelihood, Vector, real) -> Matrix

  /** The two estimators the library offers. */
  datatype Numdiff = Numdiff(hessian: Stencil, jacobian: Stencil)

  /** An accepted estimate, together with the new step printed before each retry
      that led to it. */
  datatype Estimate = Estimate(mat: Matrix, shrunk: seq<real>)

  function Pow(x: real, k: nat): real {
    if k == 0 then 1.0 else x * Pow(x, k - 1)
  }

  /** The step of the k-th retry: `initial_step * step_factor ** k`. */
  function StepAt(initial: real, factor: real, k: nat): real {
    initial * Pow(factor, k)
  }

  lemma StepAtShift(initial: real, factor: real, k: nat)
    ensures StepAt(initial * factor, factor, k) == StepAt(initial, factor, k + 1)
  {
  }

  /** The body shared by `hessian` and `jacobian`: estimate with `step`; if no
      entry of the estimate is finite, recurse with `step * factor` and the same
      likelihood, point and factor. The source recurses without bound; `fuel` is
      the number of retries the interpreter's recursion limit permits, and `None`
      means it was exhausted. */
  function Refine(stencil: Stencil, f: Likelihood, x: Vector, step: real, factor: real, fuel: nat)
    : (r: Option<Estimate>)
    ensures r.Some? ==> AnyFiniteEntry(r.value.mat)
    ensures r.Some? ==> |r.value.shrunk| <= fuel
    ensures r.Some? ==> r.value.mat == stencil(f, x, StepAt(step, factor, |r.value.shrunk|))
    ensures r.Some? ==> forall k :: 0 <= k < |r.value.shrunk| ==>
                          r.value.shrunk[k] == StepAt(step, factor, k + 1)
    ensures AnyFiniteEntry(stencil(f, x, step)) ==> r == Some(Estimate(stencil(f, x, step), []))
    decreases fuel
  {
    var m := stencil(f, x, step);
    if AnyFiniteEntry(m) then Some(Estimate(m, []))
    else if fuel == 0 then None
    else
      var next := step * factor;
      match Refine(stencil, f, x, next, factor, fuel - 1)
      case None => None
      case Some(e) =>
        StepAtShift(step, factor, |e.shrunk|);
        StepAtShift(step, factor, 0);
        forall k | 0 <= k < |e.shrunk|
          ensures e.shrunk[k] == StepAt(step, factor, k + 2)
        {
          StepAtShift(step, factor, k + 1);
        }
        var shrunk := [next] + e.shrunk;
        assert forall k :: 0 < k < |shrunk| ==> shrunk[k] == e.shrunk[k - 1];
        Some(Estimate(e.mat, shrunk))
  }

  /** `hessian(f, estimates, initial_step, step_factor)`. */
  function Hessian(nd: Numdiff, f: Likelihood, x: Vector, step: real, factor: real, fuel: nat)
    : (r: Option<Estimate>)
    ensures r.Some? ==> AnyFiniteEntry(r.value.mat)
    ensures r.Some? ==> r.value.mat == nd.hessian(f, x, StepAt(step, factor, |r.value.shrunk|))
  {
    Refine(nd.hessian, f, x, step, factor, fuel)
  }

  /** `jacobian(f, estimates, initial_step, step_factor)`: the same control flow
      as `Hessian`, around the other estimator. */
  function Jacobian(nd: Numdiff, f: Likelihood, x: Vector, step: real, factor: real, fuel: nat)
    : (r: Option<Estimate>)
    ensures r.Some? ==> AnyFiniteEntry(r.value.mat)
    ensures r.Some? ==> r.value.mat == nd.jacobian(f, x, StepAt(step, factor, |r.value.shrunk|))
  {
    Refine(nd.jacobian, f, x, step, factor, fuel)
  }

  /** The accepted estimate is the first in the schedule with a finite entry:
      every step before it produced a matrix with no finite entry at all. */
  lemma {:induction false} RefineFirstFinite(stencil: Stencil, f: Likelihood, x: Vector,
                                             step: real, factor: real, fuel: nat)
    requires Refine(stencil, f, x, step, factor, fuel).Some?
    ensures var e := Refine(stencil, f, x, step, factor, fuel).value;
            forall k :: 0 <= k < |e.shrunk| ==> !SomeFiniteEntry(stencil(f, x, StepAt(step, factor, k)))
    decreases fuel
  {
    var e := Refine(stencil, f, x, step, factor, fuel).value;
    if !AnyFiniteEntry(stencil(f, x, step)) {
      assert fuel > 0;
      var e' := Refine(stencil, f, x, step * factor, factor, fuel - 1).value;
      RefineFirstFinite(stencil, f, x, step * factor, factor, fuel - 1);
      assert |e.shrunk| == |e'.shrunk| + 1;
      forall k | 0 <= k < |e.shrunk|
        ensures !SomeFiniteEntry(stencil(f, x, StepAt(step, factor, k)))
      {
        if k > 0 {
          StepAtShift(step, factor, k - 1);
        }
      }
    }
  }

  /** The retry gives up exactly when no step of the schedule, up to the
      recursion limit, produces an estimate with a finite entry. */
  lemma {:induction false} RefineExhausted(stencil: Stencil, f: Likelihood, x: Vector,
                                           step: real, factor: real, fuel: nat)
    ensures Refine(stencil, f, x, step, factor, fuel).None? <==>
            forall k :: 0 <= k <= fuel ==> !SomeFiniteEntry(stencil(f, x, StepAt(step, factor, k)))
    decreases fuel
  {
    var m := stencil(f, x, step);
    assert StepAt(step, factor, 0) == step;
    if !AnyFiniteEntry(m) && fuel > 0 {
      var next := step * factor;
      RefineExhausted(stencil, f, x, next, factor, fuel - 1);
      if forall k :: 0 <= k <= fuel - 1 ==> !SomeFiniteEntry(stencil(f, x, StepAt(next, factor, k))) {
        forall k | 0 <= k <= fuel
          ensures !SomeFiniteEntry(stencil(f, x, StepAt(step, factor, k)))
        {
          if k > 0 {
            StepAtShift(step, factor, k - 1);
          }
        }
      } else {
        var k :| 0 <= k <= fuel - 1 && SomeFiniteEntry(stencil(f, x, StepAt(next, factor, k)));
        StepAtShift(step, factor, k);
      }
    }
  }

  /** A larger recursion limit changes nothing about an estimate already
      accepted under a smaller one. */
  lemma {:induction false} RefineFuelMonotone(stencil: Stencil, f: Likelihood, x: Vector,
                                              step: real, factor: real, fuel: nat, more: nat)
    requires fuel <= more
    requires Refine(stencil, f, x, step, factor, fuel).Some?
    ensures Refine(stencil, f, x, step, factor, more) == Refine(stencil, f, x, step, factor, fuel)
    decreases fuel
  {
    if !AnyFiniteEntry(stencil(f, x, step)) {
      RefineFuelMonotone(stencil, f, x, step * factor, factor, fuel - 1, more - 1);
    }
  }

  lemma {:induction false} PowInUnit(factor: real, k: nat)
    requires 0.0 < factor < 1.0
    ensures 0.0 < Pow(factor, k) <= 1.0
  {
    if k > 0 {
      PowInUnit(factor, k - 1);
    }
  }

  /** With a positive initial step and a factor in (0, 1), every step of the
      schedule is positive and strictly smaller than the one before it. */
  lemma StepsShrink(initial: real, factor: real, k: nat)
    requires initial > 0.0 && 0.0 < factor < 1.0
    ensures 0.0 < StepAt(initial, factor, k + 1) < StepAt(initial, factor, k)
  {
    PowInUnit(factor, k);
    var p := Pow(factor, k);
    var q := factor * p;
    MulPositive(factor, p);
    MulPositive(p, 1.0 - factor);
    assert p - q == p * (1.0 - factor);
    MulPositive(initial, q);
    MulPositive(initial, p - q);
    assert initial * p - initial * q == initial * (p - q);
  }

  lemma MulPositive(a: real, b: real)
    requires a > 0.0 && b > 0.0
    ensures a * b > 0.0
  {
  }

  /** An estimate with one finite entry is accepted on the first call even if
      its other entries are NaN: the test is "some entry finite", not "every
      entry finite". */
  lemma PartlyFiniteAccepted(f: Likelihood, x: Vector, step: real, factor: real, fuel: nat)
    ensures var stencil: Stencil := (g, y, s) => [[Finite(1.0), NaN]];
            && Refine(stencil, f, x, step, factor, fuel) == Some(Estimate([[Finite(1.0), NaN]], []))
            && !EveryEntryFinite([[Finite(1.0), NaN]])
  {
    var m: Matrix := [[Finite(1.0), NaN]];
    assert IsFinite(m[0][0]);
    assert !IsFinite(m[0][1]);
  }

  /** An estimator that always returns an empty matrix (a model with no
      parameters) never satisfies the retry test, so the retry always runs
      out. */
  lemma EmptyEstimateNeverAccepted(f: Likelihood, x: Vector, step: real, factor: real, fuel: nat)
    ensures var stencil: Stencil := (g, y, s) => [];
            Refine(stencil, f, x, step, factor, fuel) == None
  {
  }
}
