/** The decomposition computed by `Lcu` is exact: for every 2^n by 2^n
    matrix A, Σ_k c_k P_k = A, where P_k runs over the 4^n Pauli strings
    and c_k = trace(P_k A) / 2^n is the coefficient `generate_coefs`
    stores. The proof expands each coefficient into a double sum, moves
    the sum over strings innermost and applies KernelIsDelta there. */
module Completeness {
  import opened ComplexNumbers
  import opened Sums
  import opened Matrices
  import opened Lcu
  import opened Decomposition

  /** k ↦ c_k * P_k[r][c], the terms of entry (r, c) of Σ_k c_k P_k. */
  function ExpansionTerm(a: Matrix, n: nat, r: nat, c: nat): nat -> Complex
    requires IsSquare(a, Pow2(n))
  {
    (k: nat) => Mul(Coefficient(PauliString(n, k), a, n), Entry(PauliString(n, k), r, c))
  }

  /** Entry (r, c) of Σ_k c_k P_k over the n-qubit basis. */
  function Expansion(a: Matrix, n: nat, r: nat, c: nat): Complex
    requires IsSquare(a, Pow2(n))
  {
    Sum(Pow4(n), ExpansionTerm(a, n, r, c))
  }

  /** x ↦ a[x][y] * (p[y][x] * p[r][c]). */
  function WeightedRow(p: Matrix, a: Matrix, r: nat, c: nat, y: nat): nat -> Complex {
    (x: nat) => Mul(Entry(a, x, y), Mul(Entry(p, y, x), Entry(p, r, c)))
  }

  /** y ↦ Σ_{x < d} a[x][y] * (p[y][x] * p[r][c]). */
  function WeightedSums(p: Matrix, a: Matrix, r: nat, c: nat, d: nat): nat -> Complex {
    (y: nat) => Sum(d, WeightedRow(p, a, r, c, y))
  }

  /** (k, y) ↦ Σ_{x < 2^n} a[x][y] * (P_k[y][x] * P_k[r][c]). */
  function PairTerms(a: Matrix, n: nat, r: nat, c: nat): (nat, nat) -> Complex {
    (k: nat, y: nat) => Sum(Pow2(n), WeightedRow(PauliString(n, k), a, r, c, y))
  }

  /** (k, x) ↦ a[x][y] * (P_k[y][x] * P_k[r][c]), for a fixed y. */
  function TripleTerms(a: Matrix, n: nat, r: nat, c: nat, y: nat): (nat, nat) -> Complex {
    (k: nat, x: nat) => WeightedRow(PauliString(n, k), a, r, c, y)(x)
  }

  /** x ↦ a[x][y] * Σ_k P_k[y][x] * P_k[r][c], the sum over k done. */
  function DeltaRow(a: Matrix, n: nat, r: nat, c: nat, y: nat): nat -> Complex {
    (x: nat) => Mul(Entry(a, x, y), ScaledDelta(n, y, x, r, c))
  }

  /** y ↦ Σ_{x < 2^n} DeltaRow(a, n, r, c, y)(x). */
  function DeltaSums(a: Matrix, n: nat, r: nat, c: nat): nat -> Complex {
    (y: nat) => Sum(Pow2(n), DeltaRow(a, n, r, c, y))
  }

  /** Diagonal entry y of p a, times e, as a sum over x. */
  lemma DiagonalTimes(p: Matrix, a: Matrix, r: nat, c: nat, y: nat)
    requires IsSquare(p, |p|) && IsSquare(a, |p|) && y < |p|
    ensures Mul(Diagonal(MatMul(p, a))(y), Entry(p, r, c)) == WeightedSums(p, a, r, c, |p|)(y)
  {
    var d := |p|;
    var e := Entry(p, r, c);
    assert Diagonal(MatMul(p, a))(y) == Sum(d, RowTimesColumn(p, a, y, y));
    forall x | 0 <= x < d
      ensures WeightedRow(p, a, r, c, y)(x) == Mul(RowTimesColumn(p, a, y, y)(x), e)
    {
      MulAssoc(Entry(p, y, x), Entry(a, x, y), e);
      MulComm(Entry(p, y, x), Entry(a, x, y));
      MulAssoc(Entry(a, x, y), Entry(p, y, x), e);
    }
    SumMulRight(d, e, RowTimesColumn(p, a, y, y), WeightedRow(p, a, r, c, y));
  }

  /** c_p * p[r][c] = (1 / 2^n) Σ_y Σ_x a[x][y] * (p[y][x] * p[r][c]). */
  lemma TermExpansion(p: Matrix, a: Matrix, n: nat, r: nat, c: nat)
    requires IsSquare(p, Pow2(n)) && IsSquare(a, Pow2(n))
    ensures Mul(Coefficient(p, a, n), Entry(p, r, c))
         == Scale(1.0 / (Pow2(n) as real), Sum(Pow2(n), WeightedSums(p, a, r, c, Pow2(n))))
  {
    var d := Pow2(n);
    var e := Entry(p, r, c);
    var diag := Diagonal(MatMul(p, a));
    MulScale(1.0 / (d as real), Sum(d, diag), e);
    forall y | 0 <= y < d
      ensures WeightedSums(p, a, r, c, d)(y) == Mul(diag(y), e)
    {
      DiagonalTimes(p, a, r, c, y);
    }
    SumMulRight(d, e, diag, WeightedSums(p, a, r, c, d));
  }

  /** Term k of the expansion, with its coefficient written out. */
  lemma ExpansionTermAt(a: Matrix, n: nat, r: nat, c: nat, k: nat)
    requires IsSquare(a, Pow2(n))
    ensures ExpansionTerm(a, n, r, c)(k)
         == Scale(1.0 / (Pow2(n) as real), RowSums(PairTerms(a, n, r, c), Pow2(n))(k))
  {
    var d := Pow2(n);
    var p := PauliString(n, k);
    TermExpansion(p, a, n, r, c);
    forall y | 0 <= y < d
      ensures WeightedSums(p, a, r, c, d)(y) == Row(PairTerms(a, n, r, c), k)(y)
    {
    }
    SumExt(d, WeightedSums(p, a, r, c, d), Row(PairTerms(a, n, r, c), k));
  }

  /** The expansion as (1 / 2^n) Σ_y Σ_k Σ_x, the sum over strings moved
      inside the sum over y. */
  lemma ExpansionSwapped(a: Matrix, n: nat, r: nat, c: nat)
    requires IsSquare(a, Pow2(n))
    ensures Expansion(a, n, r, c)
         == Scale(1.0 / (Pow2(n) as real), Sum(Pow2(n), ColumnSums(PairTerms(a, n, r, c), Pow4(n))))
  {
    var d := Pow2(n);
    forall k | 0 <= k < Pow4(n)
      ensures ExpansionTerm(a, n, r, c)(k)
           == Scale(1.0 / (d as real), RowSums(PairTerms(a, n, r, c), d)(k))
    {
      ExpansionTermAt(a, n, r, c, k);
    }
    SumScale(Pow4(n), 1.0 / (d as real), RowSums(PairTerms(a, n, r, c), d), ExpansionTerm(a, n, r, c));
    SumSwap(Pow4(n), d, PairTerms(a, n, r, c));
  }

  /** Column y of PairTerms, summed over the strings, with the sum over
      strings moved inside the sum over x. */
  lemma ColumnSwapped(a: Matrix, n: nat, r: nat, c: nat, y: nat)
    ensures ColumnSums(PairTerms(a, n, r, c), Pow4(n))(y)
         == Sum(Pow2(n), ColumnSums(TripleTerms(a, n, r, c, y), Pow4(n)))
  {
    var d := Pow2(n);
    var f := TripleTerms(a, n, r, c, y);
    forall k | 0 <= k < Pow4(n)
      ensures Column(PairTerms(a, n, r, c), y)(k) == RowSums(f, d)(k)
    {
      RowOfTriple(a, n, r, c, y, k);
    }
    SumExt(Pow4(n), Column(PairTerms(a, n, r, c), y), RowSums(f, d));
    SumSwap(Pow4(n), d, f);
  }

  lemma RowOfTriple(a: Matrix, n: nat, r: nat, c: nat, y: nat, k: nat)
    ensures Column(PairTerms(a, n, r, c), y)(k) == RowSums(TripleTerms(a, n, r, c, y), Pow2(n))(k)
  {
    var f := TripleTerms(a, n, r, c, y);
    forall x | 0 <= x < Pow2(n)
      ensures WeightedRow(PauliString(n, k), a, r, c, y)(x) == Row(f, k)(x)
    {
    }
    SumExt(Pow2(n), WeightedRow(PauliString(n, k), a, r, c, y), Row(f, k));
  }

  /** Σ_k a[x][y] * P_k[y][x] * P_k[r][c] = a[x][y] * 2^n [y = c and x = r]. */
  lemma TripleColumn(a: Matrix, n: nat, r: nat, c: nat, y: nat, x: nat)
    requires r < Pow2(n) && c < Pow2(n) && y < Pow2(n) && x < Pow2(n)
    ensures ColumnSums(TripleTerms(a, n, r, c, y), Pow4(n))(x) == DeltaRow(a, n, r, c, y)(x)
  {
    TripleColumnKernel(a, n, r, c, y, x);
    KernelIsDelta(n, y, x, r, c);
  }

  /** Σ_k a[x][y] * P_k[y][x] * P_k[r][c] = a[x][y] * Σ_k P_k[y][x] * P_k[r][c]. */
  lemma TripleColumnKernel(a: Matrix, n: nat, r: nat, c: nat, y: nat, x: nat)
    ensures ColumnSums(TripleTerms(a, n, r, c, y), Pow4(n))(x)
         == Mul(Entry(a, x, y), Kernel(n, y, x, r, c))
  {
    var f := TripleTerms(a, n, r, c, y);
    forall k | 0 <= k < Pow4(n)
      ensures Column(f, x)(k) == Mul(Entry(a, x, y), KernelTerm(n, y, x, r, c)(k))
    {
      TripleAt(a, n, r, c, y, x, k);
    }
    SumMulLeft(Pow4(n), Entry(a, x, y), KernelTerm(n, y, x, r, c), Column(f, x));
  }

  /** Σ_x a[x][y] * 2^n [y = c and x = r] is a[r][c] * 2^n in column c and
      zero in every other. */
  lemma DeltaRowSum(a: Matrix, n: nat, r: nat, c: nat, y: nat)
    requires r < Pow2(n)
    ensures DeltaSums(a, n, r, c)(y)
         == if y == c then Mul(Entry(a, r, c), FromReal(Pow2(n) as real)) else Zero
  {
    var g := DeltaRow(a, n, r, c, y);
    forall x | 0 <= x < Pow2(n) && (y != c || x != r)
      ensures g(x) == Zero
    {
      MulZeroRight(Entry(a, x, y));
    }
    if y == c {
      SumOfSingleTerm(Pow2(n), g, r);
    } else {
      SumOfZeros(Pow2(n), g);
    }
  }

  lemma TripleAt(a: Matrix, n: nat, r: nat, c: nat, y: nat, x: nat, k: nat)
    ensures Column(TripleTerms(a, n, r, c, y), x)(k) == Mul(Entry(a, x, y), KernelTerm(n, y, x, r, c)(k))
  {
    var p := PauliString(n, k);
    var f := TripleTerms(a, n, r, c, y);
    assert Column(f, x)(k) == f(k, x);
    assert f(k, x) == WeightedRow(p, a, r, c, y)(x);
    assert WeightedRow(p, a, r, c, y)(x) == Mul(Entry(a, x, y), Mul(Entry(p, y, x), Entry(p, r, c)));
    assert KernelTerm(n, y, x, r, c)(k) == Mul(Entry(p, y, x), Entry(p, r, c));
  }

  /** Column y of the swapped sum collapses to its delta form. */
  lemma ColumnCollapse(a: Matrix, n: nat, r: nat, c: nat, y: nat)
    requires r < Pow2(n) && c < Pow2(n) && y < Pow2(n)
    ensures ColumnSums(PairTerms(a, n, r, c), Pow4(n))(y) == DeltaSums(a, n, r, c)(y)
  {
    ColumnSwapped(a, n, r, c, y);
    forall x | 0 <= x < Pow2(n)
      ensures ColumnSums(TripleTerms(a, n, r, c, y), Pow4(n))(x) == DeltaRow(a, n, r, c, y)(x)
    {
      TripleColumn(a, n, r, c, y, x);
    }
    SumExt(Pow2(n), ColumnSums(TripleTerms(a, n, r, c, y), Pow4(n)), DeltaRow(a, n, r, c, y));
  }

  /** The whole triple sum is a[r][c] * 2^n. */
  lemma TripleSum(a: Matrix, n: nat, r: nat, c: nat)
    requires r < Pow2(n) && c < Pow2(n)
    ensures Sum(Pow2(n), ColumnSums(PairTerms(a, n, r, c), Pow4(n)))
         == Mul(Entry(a, r, c), FromReal(Pow2(n) as real))
  {
    var g := DeltaSums(a, n, r, c);
    forall y | 0 <= y < Pow2(n)
      ensures ColumnSums(PairTerms(a, n, r, c), Pow4(n))(y) == g(y)
    {
      ColumnCollapse(a, n, r, c, y);
    }
    SumExt(Pow2(n), ColumnSums(PairTerms(a, n, r, c), Pow4(n)), g);
    forall y | 0 <= y < Pow2(n) && y != c
      ensures g(y) == Zero
    {
      DeltaRowSum(a, n, r, c, y);
    }
    SumOfSingleTerm(Pow2(n), g, c);
    DeltaRowSum(a, n, r, c, c);
  }

  /** Dividing by d undoes multiplying by d. */
  lemma ScaleBack(x: Complex, d: real)
    requires d != 0.0
    ensures Scale(1.0 / d, Mul(x, FromReal(d))) == x
  {
    assert (1.0 / d) * (x.re * d) == x.re;
    assert (1.0 / d) * (x.im * d) == x.im;
  }

  /** Completeness of the Pauli basis: Σ_k c_k P_k[r][c] = A[r][c] for
      every entry of A, with c_k = trace(P_k A) / 2^n. */
  lemma {:induction false} ExpansionIsExact(a: Matrix, n: nat, r: nat, c: nat)
    requires IsSquare(a, Pow2(n)) && r < Pow2(n) && c < Pow2(n)
    ensures Expansion(a, n, r, c) == a[r][c]
  {
    ExpansionSwapped(a, n, r, c);
    TripleSum(a, n, r, c);
    ScaleBack(Entry(a, r, c), Pow2(n) as real);
  }

  /** k ↦ coefs[k] * strings[k][r][c]. */
  function WeightedStrings(strings: seq<Matrix>, coefs: seq<Complex>, r: nat, c: nat): nat -> Complex {
    (k: nat) => if k < |strings| && k < |coefs| then Mul(coefs[k], Entry(strings[k], r, c)) else Zero
  }

  /** Entry (r, c) of Σ_k coefs[k] * strings[k], the matrix the pair of
      vectors `get_pauli_strings` and `get_coefs` return stands for. */
  function Reconstruct(strings: seq<Matrix>, coefs: seq<Complex>, r: nat, c: nat): Complex {
    Sum(|coefs|, WeightedStrings(strings, coefs, r, c))
  }

  /** The strings of one call to `generate_pauli_strings` and the
      coefficients `generate_coefs` computes for them add back up to A. */
  lemma {:induction false} ReconstructIsExact(a: Matrix, n: nat, strings: seq<Matrix>, coefs: seq<Complex>, r: nat, c: nat)
    requires IsSquare(a, Pow2(n)) && r < Pow2(n) && c < Pow2(n)
    requires strings == PauliBasis(n) && |coefs| == |strings|
    requires forall k :: 0 <= k < |coefs| ==> coefs[k] == Coefficient(strings[k], a, n)
    ensures Reconstruct(strings, coefs, r, c) == a[r][c]
  {
    forall k | 0 <= k < |coefs|
      ensures WeightedStrings(strings, coefs, r, c)(k) == ExpansionTerm(a, n, r, c)(k)
    {
    }
    SumExt(|coefs|, WeightedStrings(strings, coefs, r, c), ExpansionTerm(a, n, r, c));
    ExpansionIsExact(a, n, r, c);
  }

  /** A decomposer that has generated its basis once and then its
      coefficients holds an exact decomposition of its target. */
  lemma DecomposerIsExact(l: Lcu, r: nat, c: nat)
    requires l.Valid() && l.generations == 1
    requires |l.coefs| == |l.pauliStrings|
    requires forall k :: 0 <= k < |l.coefs| ==> l.coefs[k] == Coefficient(l.pauliStrings[k], l.a, l.nQubits)
    requires r < Pow2(l.nQubits) && c < Pow2(l.nQubits)
    ensures Reconstruct(l.pauliStrings, l.coefs, r, c) == l.a[r][c]
  {
    assert Repeat(PauliBasis(l.nQubits), 1) == PauliBasis(l.nQubits);
    ReconstructIsExact(l.a, l.nQubits, l.pauliStrings, l.coefs, r, c);
  }

  /** On one qubit, X decomposes as 0 I + 1 X + 0 Y + 0 Z. */
  lemma CoefficientsOfX()
    ensures Coefficient(PauliString(1, 0), PauliX, 1) == Zero
    ensures Coefficient(PauliString(1, 1), PauliX, 1) == One
    ensures Coefficient(PauliString(1, 2), PauliX, 1) == Zero
    ensures Coefficient(PauliString(1, 3), PauliX, 1) == Zero
  {
    CoefficientOfXAt(0);
    CoefficientOfXAt(1);
    CoefficientOfXAt(2);
    CoefficientOfXAt(3);
  }

  lemma CoefficientOfXAt(k: nat)
    requires k < 4
    ensures Coefficient(PauliString(1, k), PauliX, 1) == if k == 1 then One else Zero
  {
    var p := Generators[k];
    assert PauliString(1, k) == p;
    CoefficientAgainstX(p);
  }

  /** Against X, trace(p X) / 2 is the mean of the off-diagonal entries of p. */
  lemma CoefficientAgainstX(p: Matrix)
    requires IsSquare(p, 2)
    ensures Coefficient(p, PauliX, 1) == Scale(0.5, Add(p[0][1], p[1][0]))
  {
    CoefficientOfOneQubit(p, PauliX);
    MulZeroRight(p[0][0]);
    MulZeroRight(p[1][1]);
    MulComm(p[0][1], One);
    MulComm(p[1][0], One);
    MulOneLeft(p[0][1]);
    MulOneLeft(p[1][0]);
  }

  /** trace(p a) / 2 for 2 by 2 matrices, written out. */
  lemma CoefficientOfOneQubit(p: Matrix, a: Matrix)
    requires IsSquare(p, 2) && IsSquare(a, 2)
    ensures Coefficient(p, a, 1) == Scale(0.5, Add(
      Add(Zero, Add(Add(Zero, Mul(p[0][0], a[0][0])), Mul(p[0][1], a[1][0]))),
      Add(Add(Zero, Mul(p[1][0], a[0][1])), Mul(p[1][1], a[1][1]))))
  {
    assert Pow2(1) == 2;
    assert Diagonal(MatMul(p, a))(0) == Add(Add(Zero, Mul(p[0][0], a[0][0])), Mul(p[0][1], a[1][0]));
    assert Diagonal(MatMul(p, a))(1) == Add(Add(Zero, Mul(p[1][0], a[0][1])), Mul(p[1][1], a[1][1]));
  }
}
