/** Screening of the parameter estimates before any derivative is estimated:
    two detectors and the allow / warn / error policy attached to each. */
module Screening {
  import opened Wrappers
  import opened Floats
  import opened Errors

  datatype Policy = Allow | Warn | Error

  /** The three policy spellings the entry points accept. */
  predicate ValidPolicy(s: string) {
    s == "allow" || s == "warn" || s == "error"
  }

  function ParsePolicy(s: string): (r: Option<Policy>)
    ensures r.None? <==> !ValidPolicy(s)
    ensures r == Some(Allow) <==> s == "allow"
    ensures r == Some(Warn) <==> s == "warn"
    ensures r == Some(Error) <==> s == "error"
  {
    if s == "allow" then Some(Allow)
    else if s == "warn" then Some(Warn)
    else if s == "error" then Some(Error)
    else None
  }

  /** The common body of both detectors: a detected condition raises when
      `error` is set, else prints when `warn` is set, else passes silently. */
  function Screen(detected: bool, warn: bool, error: bool, failure: Failure, warning: Diagnostic)
    : Result<seq<Diagnostic>, Failure>
  {
    if !detected then Ok([])
    else if error then Err(failure)
    else if warn then Ok([warning])
    else Ok([])
  }

  /** `_detect_zeros`: despite its name and message it flags strictly negative
      entries only, so a zero estimate passes. */
  function DetectZeros(estimates: Vector, warn: bool, error: bool): (r: Result<seq<Diagnostic>, Failure>)
    ensures r.Err? <==> error && SomeNegative(estimates)
    ensures r.Err? ==> r.error == NegativeValues
    ensures r.Ok? ==> (r.value == [NegativeWarning] <==> warn && SomeNegative(estimates))
    ensures r.Ok? && r.value != [NegativeWarning] ==> r.value == []
  {
    Screen(AnyNegative(estimates), warn, error, NegativeValues, NegativeWarning)
  }

  /** `_detect_nan_inf`: flags an estimate that is NaN, +inf or -inf. */
  function DetectNanInf(estimates: Vector, warn: bool, error: bool): (r: Result<seq<Diagnostic>, Failure>)
    ensures r.Err? <==> error && SomeNonFinite(estimates)
    ensures r.Err? ==> r.error == NonFiniteValues
    ensures r.Ok? ==> (r.value == [NonFiniteWarning] <==> warn && SomeNonFinite(estimates))
    ensures r.Ok? && r.value != [NonFiniteWarning] ==> r.value == []
  {
    Screen(!AllFinite(estimates), warn, error, NonFiniteValues, NonFiniteWarning)
  }

  function ApplyZeros(p: Policy, estimates: Vector): Result<seq<Diagnostic>, Failure> {
    match p
    case Allow => Ok([])
    case Warn => DetectZeros(estimates, true, false)
    case Error => DetectZeros(estimates, true, true)
  }

  function ApplyNanInfs(p: Policy, estimates: Vector): Result<seq<Diagnostic>, Failure> {
    match p
    case Allow => Ok([])
    case Warn => DetectNanInf(estimates, true, false)
    case Error => DetectNanInf(estimates, true, true)
  }

  /** The screening prologue of `_information_criterion`: the `zeros` option is
      checked and applied before the `nan_infs` option is even looked at. */
  function Validate(zeros: string, nanInfs: string, estimates: Vector): (r: Result<seq<Diagnostic>, Failure>)
    ensures !ValidPolicy(zeros) ==> r == Err(InvalidPolicy(ZerosSetting, zeros))
    ensures zeros == "error" && SomeNegative(estimates) ==> r == Err(NegativeValues)
    ensures ValidPolicy(zeros) && !(zeros == "error" && SomeNegative(estimates)) && !ValidPolicy(nanInfs)
            ==> r == Err(InvalidPolicy(NanInfsSetting, nanInfs))
    ensures ValidPolicy(zeros) && !(zeros == "error" && SomeNegative(estimates))
            && nanInfs == "error" && SomeNonFinite(estimates)
            ==> r == Err(NonFiniteValues)
    ensures r.Ok? <==>
              && ValidPolicy(zeros) && ValidPolicy(nanInfs)
              && !(zeros == "error" && SomeNegative(estimates))
              && !(nanInfs == "error" && SomeNonFinite(estimates))
    ensures r.Ok? ==>
              r.value == (if zeros == "warn" && SomeNegative(estimates) then [NegativeWarning] else [])
                         + (if nanInfs == "warn" && SomeNonFinite(estimates) then [NonFiniteWarning] else [])
  {
    var z :- ParsePolicy(zeros).ToResult(InvalidPolicy(ZerosSetting, zeros));
    var zeroWarnings :- ApplyZeros(z, estimates);
    var n :- ParsePolicy(nanInfs).ToResult(InvalidPolicy(NanInfsSetting, nanInfs));
    var nanWarnings :- ApplyNanInfs(n, estimates);
    Ok(zeroWarnings + nanWarnings)
  }

  /** With both options at "allow" neither detector runs: screening passes
      silently whatever the estimates hold. */
  lemma AllowAllowPassesEverything(estimates: Vector)
    ensures Validate("allow", "allow", estimates) == Ok([])
  {
  }

  /** When both conditions hold and both options are "error", the zeros error is
      the one raised, and the `nan_infs` string is never inspected. */
  lemma ZerosScreenedFirst(nanInfs: string, estimates: Vector)
    requires SomeNegative(estimates)
    ensures Validate("error", nanInfs, estimates) == Err(NegativeValues)
  {
  }

  /** An estimate vector of zeros, NaN and +inf passes the zeros screen even
      under "error": only `< 0` is tested, and NaN compares false. */
  lemma ZeroNotFlagged(estimates: Vector)
    requires forall i :: 0 <= i < |estimates| ==>
               estimates[i] == Finite(0.0) || estimates[i] == NaN || estimates[i] == PosInf
    ensures DetectZeros(estimates, true, true) == Ok([])
  {
  }
}
