/** What the information-criterion code can raise, and the messages it prints
    without stopping. */
module Errors {

  /** The two screening options of the entry points. */
  datatype Setting = ZerosSetting | NanInfsSetting

  datatype Failure =
    /** `assert zeros in [...]` / `assert nan_infs in [...]` failed. */
    | InvalidPolicy(setting: Setting, given: string)
    /** `ValueError("Zero or negative values detected")`. */
    | NegativeValues
    /** `ValueError("NaN or Inf values detected")`. */
    | NonFiniteValues
    /** `assert n_samples is not None` failed. */
    | MissingSampleCount
    /** The step-shrinking recursion went deeper than the interpreter allows. */
    | RetryLimit
    /** `np.linalg.inv` refused the Hessian (numpy's `LinAlgError`). */
    | NotInvertible
    /** `jacobian_mat @ hessian_inverse` had mismatched dimensions. */
    | ShapeMismatch

  /** Lines printed on standard output by a computation that goes on. */
  datatype Diagnostic =
    | NegativeWarning
    | NonFiniteWarning
    /** "Non-finite values detected - changing step size to ..." */
    | StepChanged(step: real)
}
