/** Dense channel matrices (numpy 2-d arrays) and the few array operations the
    core applies to them.  Every matrix of one store shares the grid dimension;
    numpy's shape errors and broadcasting are not modelled, an entry outside a
    matrix reads as zero. */
module Matrices {

  type Mat = seq<seq<real>>

  /** Entry (i, j), zero outside the matrix. */
  /** An n x n matrix. */
  predicate Square(m: Mat, n: nat) {
    |m| == n && forall i | 0 <= i < n :: |m[i]| == n
  }

  /** `r * v` */
  function Scaled(r: real, v: seq<real>): (s: seq<real>)
    ensures |s| == |v| && forall i | 0 <= i < |v| :: s[i] == r * v[i]
  {
    seq(|v|, i requires 0 <= i < |v| => r * v[i])
  }

  lemma ScaledOne(v: seq<real>)
    ensures Scaled(1.0, v) == v
  {
  }

  function Entry(m: Mat, i: int, j: int): real {
    if 0 <= i < |m| && 0 <= j < |m[i]| then m[i][j] else 0.0
  }

  /** Number of columns, read from the first row. */
  function Cols(m: Mat): nat {
    if |m| == 0 then 0 else |m[0]|
  }

  function RowSum(row: seq<real>): real {
    if row == [] then 0.0 else row[0] + RowSum(row[1..])
  }

  /** `np.sum(m)` */
  function Sum(m: Mat): real {
    if m == [] then 0.0 else RowSum(m[0]) + Sum(m[1..])
  }

  /** A Python slice bound `b` on a sequence of length `n`: negative bounds
      count from the end, and the result is clamped to 0..n. */
  function SliceBound(b: int, n: nat): (r: nat)
    ensures r <= n
  {
    if b < 0 then (if b + n < 0 then 0 else b + n)
    else if b > n then n else b
  }

  /** `np.sum(m[:, lo:hi])` */
  function WindowSum(m: Mat, lo: int, hi: int): real {
    if m == [] then 0.0
    else
      var a := SliceBound(lo, |m[0]|);
      var b := SliceBound(hi, |m[0]|);
      (if a <= b then RowSum(m[0][a..b]) else 0.0) + WindowSum(m[1..], lo, hi)
  }

  /** Element-wise product `a * b`. */
  function Hadamard(a: Mat, b: Mat): (r: Mat)
    ensures |r| == |a| && forall i | 0 <= i < |a| :: |r[i]| == |a[i]|
  {
    seq(|a|, i requires 0 <= i < |a| => seq(|a[i]|, j requires 0 <= j < |a[i]| => a[i][j] * Entry(b, i, j)))
  }

  /** Element-wise sum `a + b`. */
  function Add(a: Mat, b: Mat): (r: Mat)
    ensures |r| == |a| && forall i | 0 <= i < |a| :: |r[i]| == |a[i]|
  {
    seq(|a|, i requires 0 <= i < |a| => seq(|a[i]|, j requires 0 <= j < |a[i]| => a[i][j] + Entry(b, i, j)))
  }

  function DotRowCol(a: Mat, i: nat, b: Mat, j: nat, k: nat): real
    decreases k
  {
    if k == 0 then 0.0 else DotRowCol(a, i, b, j, k - 1) + Entry(a, i, k - 1) * Entry(b, k - 1, j)
  }

  /** Matrix product `a.dot(b)`. */
  function Product(a: Mat, b: Mat): (r: Mat)
    ensures |r| == |a| && forall i | 0 <= i < |a| :: |r[i]| == Cols(b)
  {
    seq(|a|, i requires 0 <= i < |a| => seq(Cols(b), j requires 0 <= j < Cols(b) => DotRowCol(a, i, b, j, |b|)))
  }

  /** `m[np.tril_indices(d, -1)] = 0.`: every entry strictly below the diagonal
      of the leading d x d block becomes zero. */
  function ZeroStrictLower(m: Mat, d: nat): (r: Mat)
    ensures |r| == |m| && forall i | 0 <= i < |m| :: |r[i]| == |m[i]|
    ensures forall i, j | 0 <= j < i < d && i < |m| && j < |m[i]| :: r[i][j] == 0.0
    ensures forall i, j | 0 <= i < |m| && 0 <= j < |m[i]| && !(j < i < d) :: r[i][j] == m[i][j]
  {
    seq(|m|, i requires 0 <= i < |m| => seq(|m[i]|, j requires 0 <= j < |m[i]| => if j < i < d then 0.0 else m[i][j]))
  }
}
