/** Exact real matrices: the product, identity and trace that the criteria
    formulas need, with numpy's conventions for rectangular shapes. */
module Linear {

  type RMatrix = seq<seq<real>>

  /** Number of columns, read from the first row. The shape functions are
      generic so that they read the same on float and on real matrices. */
  function Cols<T>(m: seq<seq<T>>): nat {
    if |m| == 0 then 0 else |m[0]|
  }

  /** Every row has the same length (what a 2-d ndarray guarantees). */
  predicate Rect<T>(m: seq<seq<T>>) {
    forall i :: 0 <= i < |m| ==> |m[i]| == Cols(m)
  }

  /** What `np.linalg.inv` demands of its argument's shape. */
  predicate Square<T>(m: seq<seq<T>>) {
    Rect(m) && Cols(m) == |m|
  }

  /** `a @ b` is defined. */
  predicate Conformable(a: RMatrix, b: RMatrix) {
    Rect(a) && Rect(b) && Cols(a) == |b|
  }

  /** `sum(row[t] * b[t][j] for t < k)`. */
  function Dot(row: seq<real>, b: RMatrix, j: nat, k: nat): real
    requires k <= |row| && k <= |b|
    requires forall t :: 0 <= t < k ==> j < |b[t]|
  {
    if k == 0 then 0.0 else Dot(row, b, j, k - 1) + row[k - 1] * b[k - 1][j]
  }

  /** `a @ b`. */
  function MatMul(a: RMatrix, b: RMatrix): (c: RMatrix)
    requires Conformable(a, b)
    ensures |c| == |a| && Rect(c)
    ensures |a| > 0 ==> Cols(c) == Cols(b)
    ensures forall i, j :: 0 <= i < |a| && 0 <= j < Cols(b) ==> c[i][j] == Dot(a[i], b, j, |b|)
  {
    seq(|a|, i requires 0 <= i < |a| =>
      seq(Cols(b), j requires 0 <= j < Cols(b) => Dot(a[i], b, j, |b|)))
  }

  /** The n-by-n identity matrix. */
  function Identity(n: nat): (m: RMatrix)
    ensures |m| == n && Rect(m) && Cols(m) == n
    ensures forall i, j :: 0 <= i < n && 0 <= j < n ==> m[i][j] == if i == j then 1.0 else 0.0
  {
    seq(n, i requires 0 <= i < n => seq(n, j requires 0 <= j < n => if i == j then 1.0 else 0.0))
  }

  /** `h @ g == I`: g is a right inverse of the square matrix h. */
  predicate IsRightInverse(h: RMatrix, g: RMatrix) {
    && Square(h)
    && Rect(g) && |g| == |h| && Cols(g) == |h|
    && MatMul(h, g) == Identity(|h|)
  }

  /** `sum(m[i][i] for i < k)`. */
  function DiagSum(m: RMatrix, k: nat): real
    requires k <= |m|
    requires forall i :: 0 <= i < k ==> i < |m[i]|
  {
    if k == 0 then 0.0 else DiagSum(m, k - 1) + m[k - 1][k - 1]
  }

  /** `np.trace(m)`: the sum of `m[i][i]` for `i < min(rows, cols)`, so a
      rectangular matrix is allowed. */
  function Trace(m: RMatrix): real
    requires Rect(m)
  {
    DiagSum(m, if |m| <= Cols(m) then |m| else Cols(m))
  }

  lemma {:induction false} DiagSumIdentity(n: nat, k: nat)
    requires k <= n
    ensures DiagSum(Identity(n), k) == k as real
  {
    if k > 0 {
      DiagSumIdentity(n, k - 1);
    }
  }

  /** The trace of the n-by-n identity is n. */
  lemma TraceIdentity(n: nat)
    ensures Trace(Identity(n)) == n as real
  {
    DiagSumIdentity(n, n);
  }

  /** The trace of a matrix with a single row is its top-left entry. */
  lemma TraceOfRow(m: RMatrix)
    requires Rect(m) && |m| == 1 && Cols(m) >= 1
    ensures Trace(m) == m[0][0]
  {
    assert DiagSum(m, 1) == DiagSum(m, 0) + m[0][0];
  }
}
