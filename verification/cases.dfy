/** The worked cases of the repository's tests, restated over the model: the
    quadratic likelihood `x^2 + y^2 + z^2` at `(1, 2, 3)`, whose exact Jacobian
    is `[[2, 4, 6]]` and whose exact Hessian is `2 I`. */
module Cases {
  import opened Wrappers
  import opened Floats
  import opened Errors
  import opened Linear
  import opened Screening
  import opened Matrices
  import opened InformCrit

  const Gradient: RMatrix := [[2.0, 4.0, 6.0]]
  const Hess: RMatrix := [[2.0, 0.0, 0.0], [0.0, 2.0, 0.0], [0.0, 0.0, 2.0]]
  const HessInverse: RMatrix := [[0.5, 0.0, 0.0], [0.0, 0.5, 0.0], [0.0, 0.0, 0.5]]

  lemma HessInverseIsInverse()
    ensures IsRightInverse(Hess, HessInverse)
  {
    var p := MatMul(Hess, HessInverse);
    forall i, j | 0 <= i < 3 && 0 <= j < 3
      ensures p[i][j] == Identity(3)[i][j]
    {
      assert p[i][j] == Dot(Hess[i], HessInverse, j, 3);
    }
    assert forall i :: 0 <= i < 3 ==> p[i] == Identity(3)[i];
  }

  /** `J @ inv(H)` is `[[1, 2, 3]]`, whose trace is 1. */
  lemma GradientPenalty()
    ensures Conformable(Gradient, HessInverse)
    ensures Penalty(Gradient, HessInverse) == 1.0
  {
    GradientRowPenalty(Gradient, HessInverse);
    assert Dot(Gradient[0], HessInverse, 0, 3) == 1.0;
  }

  /** CLAIC of the test case: `-2 * 14 + 2 * 1`. */
  lemma ClaicCase()
    ensures IsRightInverse(Hess, HessInverse)
    ensures ClAkaike(14.0, Gradient, HessInverse) == -26.0
  {
    HessInverseIsInverse();
    GradientPenalty();
  }

  /** CLBIC of the test case: `-2 * 14 + log(100) * 1`. */
  lemma ClbicCase(log100: real)
    ensures ClBayes(14.0, Gradient, HessInverse, log100) == -28.0 + log100
  {
    GradientPenalty();
  }

  /** The test likelihood `f1(x, y, z) = x^2 + y^2 + z^2`. The fixture is only
      applied to finite 3-vectors; its value elsewhere is a placeholder. */
  function F1(p: Vector): Float {
    if |p| == 3 && IsFinite(p[0]) && IsFinite(p[1]) && IsFinite(p[2])
    then Finite(p[0].v * p[0].v + p[1].v * p[1].v + p[2].v * p[2].v)
    else NaN
  }

  /** A backend whose estimators return the exact matrices at every step and
      whose inverse returns the exact inverse. */
  function ExactBackend(log: int -> Float, limit: nat): Backend {
    Backend(Numdiff((g, y, s) => FromReal(Hess), (g, y, s) => FromReal(Gradient)),
            h => HessInverse, log, limit)
  }

  /** `claic(f1, (1, 2, 3))` with the default options is exactly -26, and nothing
      is printed. */
  lemma ClaicEndToEnd(log: int -> Float, limit: nat)
    ensures Claic(ExactBackend(log, limit), F1, [Finite(1.0), Finite(2.0), Finite(3.0)], Defaults)
            == Ok((Exact(-26.0), []))
  {
    var f: Likelihood := F1;
    var est := [Finite(1.0), Finite(2.0), Finite(3.0)];
    assert f(est) == Finite(14.0);
    var b := ExactBackend(log, limit);
    assert !SomeNonFinite(est) by {
      assert forall i :: 0 <= i < 3 ==> est[i].Finite?;
    }
    assert Validate(Defaults.zeros, Defaults.nanInfs, est) == Ok([]);
    var jm := FromReal(Gradient);
    var hm := FromReal(Hess);
    assert IsFinite(jm[0][0]);
    assert IsFinite(hm[0][0]);
    assert Jacobian(b.numdiff, f, est, 0.01, 0.5, limit) == Some(Estimate(jm, []));
    assert Hessian(b.numdiff, f, est, 0.01, 0.5, limit) == Some(Estimate(hm, []));
    RealRoundTrip(Hess, hm);
    RealRoundTrip(Gradient, jm);
    ClaicCase();
    GradientPenalty();
  }

  const AllOnes: RMatrix := [[1.0, 1.0], [1.0, 1.0]]

  /** The all-ones 2-by-2 matrix has no right inverse: its two rows are equal,
      so the two rows of any product with it are equal, while the identity's
      are not. */
  lemma AllOnesSingular(g: RMatrix)
    ensures !IsRightInverse(AllOnes, g)
  {
    if Conformable(AllOnes, g) {
      var p := MatMul(AllOnes, g);
      assert p[0] == p[1] by {
        forall j | 0 <= j < Cols(g)
          ensures p[0][j] == p[1][j]
        {
          assert AllOnes[0] == AllOnes[1];
        }
      }
      assert Identity(2)[0][0] != Identity(2)[1][0];
    }
  }

  /** A Jacobian the retry accepts although it holds a NaN does not hide a
      singular Hessian: `np.linalg.inv` fails before the NaN reaches the
      formula, whatever the likelihood is. */
  lemma SingularBeforeNaN(inv: RMatrix -> RMatrix, likelihood: Float)
    ensures SomeFiniteEntry([[NaN, Finite(1.0)]])
    ensures Evaluate(likelihood, [[NaN, Finite(1.0)]], FromReal(AllOnes), inv, Finite(2.0)) == Err(NotInvertible)
  {
    assert [[NaN, Finite(1.0)]][0][1] == Finite(1.0);
    RealRoundTrip(AllOnes, []);
    AllOnesSingular(inv(AllOnes));
  }
}
