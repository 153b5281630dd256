/** Dense complex matrices as row-major sequences of rows, the exact
    counterpart of Eigen's `MatrixXcd`, `Matrix2cd` and the row-major
    `DynamicMatrix` of the source. Only the operations the discrete core
    uses are defined: sum, product, trace, Kronecker product and adjoint. */
module Matrices {
  import opened ComplexNumbers
  import opened Sums

  type Matrix = seq<seq<Complex>>

  /** `m` is a `d` by `d` matrix. */
  predicate IsSquare(m: Matrix, d: nat) {
    |m| == d && forall r :: 0 <= r < d ==> |m[r]| == d
  }

  /** Entry (r, c) of `m`, read as zero outside the matrix, so that sums
      over entries can be written with total index functions. */
  function Entry(m: Matrix, r: nat, c: nat): Complex {
    if r < |m| && c < |m[r]| then m[r][c] else Zero
  }

  function Identity(d: nat): (m: Matrix)
    ensures IsSquare(m, d)
  {
    seq(d, r => seq(d, c => if r == c then One else Zero))
  }

  /** j ↦ a[r][j] * b[j][c], the terms of entry (r, c) of a b. */
  function RowTimesColumn(a: Matrix, b: Matrix, r: nat, c: nat): nat -> Complex {
    (j: nat) => Mul(Entry(a, r, j), Entry(b, j, c))
  }

  /** Matrix product of two `d` by `d` matrices. */
  function MatMul(a: Matrix, b: Matrix): (m: Matrix)
    requires IsSquare(a, |a|) && IsSquare(b, |a|)
    ensures IsSquare(m, |a|)
  {
    seq(|a|, r requires 0 <= r < |a| =>
      seq(|a|, c requires 0 <= c < |a| => Sum(|a|, RowTimesColumn(a, b, r, c))))
  }

  /** k ↦ m[k][k]. */
  function Diagonal(m: Matrix): nat -> Complex {
    (k: nat) => Entry(m, k, k)
  }

  /** The sum of the diagonal entries. */
  function Trace(m: Matrix): Complex
    requires IsSquare(m, |m|)
  {
    Sum(|m|, Diagonal(m))
  }

  /** Conjugate transpose, Eigen's `adjoint()`. */
  function Adjoint(m: Matrix): (r: Matrix)
    requires IsSquare(m, |m|)
    ensures IsSquare(r, |m|)
  {
    seq(|m|, i requires 0 <= i < |m| => seq(|m|, j requires 0 <= j < |m| => Conj(m[j][i])))
  }

  /** Quotient and remainder of an index into a Kronecker product stay
      within the factors. */
  lemma KronIndex(i: nat, p: nat, q: nat)
    requires i < p * q
    ensures q > 0 && i / q < p && i % q < q
  {
    assert q != 0;
    var d := i / q;
    assert q * d <= i;
    MulMonotone(q, p, d);
  }

  lemma MulMonotone(q: nat, p: nat, d: nat)
    requires q > 0 && q * d < q * p
    ensures d < p
  {
    if p <= d {
      MulLeft(q, p, d);
      assert false;
    }
  }

  /** q * d + r, for r < d, has quotient q and remainder r by d. */
  lemma DivModOfSplit(q: nat, r: nat, d: nat)
    requires r < d
    ensures (q * d + r) / d == q && (q * d + r) % d == r
  {
    var x := q * d + r;
    var k := x / d;
    assert x == d * k + x % d;
    if k > q {
      assert d * k >= d * (q + 1) by { MulLeft(d, q + 1, k); }
      assert false;
    } else if k < q {
      assert d * (k + 1) <= d * q by { MulLeft(d, k + 1, q); }
      assert false;
    }
  }

  lemma MulLeft(q: nat, p: nat, d: nat)
    requires p <= d
    ensures q * p <= q * d
  {
  }

  /** Kronecker (tensor) product `a ⊗ b` of two square matrices:
      entry (i, j) is a[i / |b|][j / |b|] * b[i % |b|][j % |b|], so `b`
      is the fast-varying, right-most factor. */
  function Kron(a: Matrix, b: Matrix): (m: Matrix)
    requires IsSquare(a, |a|) && IsSquare(b, |b|)
    ensures IsSquare(m, |a| * |b|)
  {
    var p, q := |a|, |b|;
    seq(p * q, i requires 0 <= i < p * q => seq(p * q, j requires 0 <= j < p * q =>
      KronIndex(i, p, q); KronIndex(j, p, q);
      Mul(a[i / q][j / q], b[i % q][j % q])))
  }

  lemma KronEntry(a: Matrix, b: Matrix, i: nat, j: nat)
    requires IsSquare(a, |a|) && IsSquare(b, |b|)
    requires i < |a| * |b| && j < |a| * |b|
    ensures |b| > 0 && i / |b| < |a| && j / |b| < |a| && i % |b| < |b| && j % |b| < |b|
    ensures Kron(a, b)[i][j] == Mul(a[i / |b|][j / |b|], b[i % |b|][j % |b|])
  {
    KronIndex(i, |a|, |b|);
    KronIndex(j, |a|, |b|);
  }

  /** Every entry of the square matrix `m` lies in {0, 1, -1, i, -i}. */
  predicate AllPauliEntries(m: Matrix)
    requires IsSquare(m, |m|)
  {
    forall r, c :: 0 <= r < |m| && 0 <= c < |m| ==> IsPauliEntry(m[r][c])
  }

  lemma KronOfPauliEntries(a: Matrix, b: Matrix)
    requires IsSquare(a, |a|) && IsSquare(b, |b|)
    requires AllPauliEntries(a) && AllPauliEntries(b)
    ensures AllPauliEntries(Kron(a, b))
  {
    forall r, c | 0 <= r < |a| * |b| && 0 <= c < |a| * |b|
      ensures IsPauliEntry(Kron(a, b)[r][c])
    {
      KronEntry(a, b, r, c);
      PauliEntriesClosedUnderMul(a[r / |b|][c / |b|], b[r % |b|][c % |b|]);
    }
  }
}
