/** IEEE-754 doubles as numpy classifies them, and the element-wise tests numpy
    applies to vectors and matrices of them. */
module Floats {

  /** A double: a finite value (kept as an exact real), NaN, or a signed infinity. */
  datatype Float = Finite(v: real) | NaN | PosInf | NegInf

  /** A vector of doubles (a 1-d ndarray). */
  type Vector = seq<Float>

  /** A matrix of doubles, row by row (a 2-d ndarray). */
  type Matrix = seq<seq<Float>>

  /** `np.isfinite(x)`. */
  predicate IsFinite(x: Float) {
    x.Finite?
  }

  /** numpy's `x < 0`: true of a negative finite value and of -inf; every
      comparison with NaN is false. */
  predicate LessThanZero(x: Float) {
    match x
    case Finite(v) => v < 0.0
    case NegInf => true
    case _ => false
  }

  ghost predicate SomeNegative(xs: Vector) {
    exists i :: 0 <= i < |xs| && LessThanZero(xs[i])
  }

  ghost predicate SomeNonFinite(xs: Vector) {
    exists i :: 0 <= i < |xs| && !IsFinite(xs[i])
  }

  ghost predicate SomeFiniteEntry(m: Matrix) {
    exists i, j :: 0 <= i < |m| && 0 <= j < |m[i]| && IsFinite(m[i][j])
  }

  ghost predicate EveryEntryFinite(m: Matrix) {
    forall i, j :: 0 <= i < |m| && 0 <= j < |m[i]| ==> IsFinite(m[i][j])
  }

  /** `(xs < 0).any()`. */
  function AnyNegative(xs: Vector): (r: bool)
    ensures r <==> SomeNegative(xs)
  {
    if |xs| == 0 then false
    else
      var rest := AnyNegative(xs[1..]);
      assert SomeNegative(xs[1..]) ==> SomeNegative(xs) by {
        if SomeNegative(xs[1..]) {
          var i :| 0 <= i < |xs[1..]| && LessThanZero(xs[1..][i]);
          assert LessThanZero(xs[i + 1]);
        }
      }
      LessThanZero(xs[0]) || rest
  }

  /** `np.isfinite(xs).all()`. */
  function AllFinite(xs: Vector): (r: bool)
    ensures r <==> !SomeNonFinite(xs)
  {
    if |xs| == 0 then true
    else
      var rest := AllFinite(xs[1..]);
      assert SomeNonFinite(xs[1..]) ==> SomeNonFinite(xs) by {
        if SomeNonFinite(xs[1..]) {
          var i :| 0 <= i < |xs[1..]| && !IsFinite(xs[1..][i]);
          assert !IsFinite(xs[i + 1]);
        }
      }
      IsFinite(xs[0]) && rest
  }

  /** `np.isfinite(row).any()` for one row. */
  function AnyFinite(xs: seq<Float>): (r: bool)
    ensures r <==> exists j :: 0 <= j < |xs| && IsFinite(xs[j])
  {
    if |xs| == 0 then false
    else
      var rest := AnyFinite(xs[1..]);
      assert (exists j :: 0 <= j < |xs[1..]| && IsFinite(xs[1..][j])) ==>
             (exists j :: 0 <= j < |xs| && IsFinite(xs[j]));
      IsFinite(xs[0]) || rest
  }

  /** `np.isfinite(m).any()` over every entry of a matrix. */
  function AnyFiniteEntry(m: Matrix): (r: bool)
    ensures r <==> SomeFiniteEntry(m)
  {
    if |m| == 0 then false
    else
      var rest := AnyFiniteEntry(m[1..]);
      assert SomeFiniteEntry(m[1..]) ==> SomeFiniteEntry(m) by {
        if SomeFiniteEntry(m[1..]) {
          var i, j :| 0 <= i < |m[1..]| && 0 <= j < |m[1..][i]| && IsFinite(m[1..][i][j]);
          assert IsFinite(m[i + 1][j]);
        }
      }
      AnyFinite(m[0]) || rest
  }

  /** `np.isfinite(m).all()` over every entry of a matrix. */
  function AllFiniteEntries(m: Matrix): (r: bool)
    ensures r <==> EveryEntryFinite(m)
  {
    if |m| == 0 then true
    else
      var rest := AllFiniteEntries(m[1..]);
      assert EveryEntryFinite(m[1..]) && AllFinite(m[0]) ==> EveryEntryFinite(m) by {
        if EveryEntryFinite(m[1..]) && AllFinite(m[0]) {
          forall i, j | 0 <= i < |m| && 0 <= j < |m[i]|
            ensures IsFinite(m[i][j])
          {
            if i > 0 {
              assert m[i] == m[1..][i - 1];
            }
          }
        }
      }
      AllFinite(m[0]) && rest
  }

  /** The exact values of a matrix none of whose entries is NaN or infinite. */
  function ToReal(m: Matrix): (r: seq<seq<real>>)
    requires EveryEntryFinite(m)
    ensures |r| == |m|
    ensures forall i :: 0 <= i < |m| ==> |r[i]| == |m[i]|
    ensures forall i, j :: 0 <= i < |m| && 0 <= j < |m[i]| ==> m[i][j] == Finite(r[i][j])
  {
    seq(|m|, i requires 0 <= i < |m| => seq(|m[i]|, j requires 0 <= j < |m[i]| => m[i][j].v))
  }

  /** A matrix of exact values as doubles. */
  function FromReal(m: seq<seq<real>>): (r: Matrix)
    ensures EveryEntryFinite(r)
  {
    seq(|m|, i requires 0 <= i < |m| => seq(|m[i]|, j requires 0 <= j < |m[i]| => Finite(m[i][j])))
  }

  /** Reading the exact values back recovers the matrix, and a finite matrix
      is the double image of its exact values. */
  lemma RealRoundTrip(m: seq<seq<real>>, d: Matrix)
    ensures ToReal(FromReal(m)) == m
    ensures EveryEntryFinite(d) ==> FromReal(ToReal(d)) == d
  {
    var r := ToReal(FromReal(m));
    assert forall i :: 0 <= i < |m| ==> r[i] == m[i];
    if EveryEntryFinite(d) {
      var e := FromReal(ToReal(d));
      assert forall i :: 0 <= i < |d| ==> e[i] == d[i];
    }
  }
}
