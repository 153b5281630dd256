/** What the decomposition computed by `Lcu` means: the 4^n Pauli strings
    form a basis of the 2^n by 2^n matrices, and the coefficients
    trace(P_k A) / 2^n recombine to A. */
module Decomposition {
  import opened ComplexNumbers
  import opened Sums
  import opened Matrices
  import opened Lcu

  /** Dividing by 4 commutes with adding a multiple of 4. */
  lemma DivFour(a: nat, s: nat)
    ensures (4 * a + s) / 4 == a + s / 4
    ensures (4 * a + s) % 4 == s % 4
  {
  }

  lemma {:induction false} Pow4Step(k: nat)
    requires k >= 1
    ensures Pow4(k) == 4 * Pow4(k - 1)
  {
  }

  /** Shifting h * 4^k + l right by j <= k digits shifts both parts. */
  lemma {:induction false} ShiftOfBlock(h: nat, l: nat, k: nat, j: nat)
    requires j <= k
    ensures Shift(h * Pow4(k) + l, j) == h * Pow4(k - j) + Shift(l, j)
  {
    if j > 0 {
      ShiftOfBlock(h, l, k, j - 1);
      Pow4Step(k - j + 1);
      DivFourOfMultiple(h, Pow4(k - j), Shift(l, j - 1));
    }
  }

  /** An index below 4^(j + m), shifted right by j digits, is below 4^m. */
  lemma {:induction false} ShiftBound(l: nat, j: nat, m: nat)
    requires l < Pow4(j + m)
    ensures Shift(l, j) < Pow4(m)
  {
    if j > 0 {
      ShiftBound(l, j - 1, m + 1);
    }
  }

  /** The digits of h * 4^k + l: digit k is h and the ones below are l's. */
  lemma DigitsOfBlock(h: nat, l: nat, k: nat)
    requires h < 4 && l < Pow4(k)
    ensures Digit(h * Pow4(k) + l, k) == h
    ensures forall j :: 0 <= j < k ==> Digit(h * Pow4(k) + l, j) == Digit(l, j)
  {
    TopDigitOfBlock(h, l, k);
    forall j | 0 <= j < k
      ensures Digit(h * Pow4(k) + l, j) == Digit(l, j)
    {
      LowDigitOfBlock(h, l, k, j);
    }
  }

  lemma TopDigitOfBlock(h: nat, l: nat, k: nat)
    requires h < 4 && l < Pow4(k)
    ensures Digit(h * Pow4(k) + l, k) == h
  {
    ShiftOfBlock(h, l, k, k);
    ShiftBound(l, k, 0);
    assert Shift(h * Pow4(k) + l, k) == h;
  }

  lemma LowDigitOfBlock(h: nat, l: nat, k: nat, j: nat)
    requires j < k
    ensures Digit(h * Pow4(k) + l, j) == Digit(l, j)
  {
    ShiftOfBlock(h, l, k, j);
    Pow4Step(k - j);
    ModFourOfMultiple(h, Pow4(k - j - 1), Shift(l, j));
  }

  lemma DivFourOfMultiple(h: nat, p: nat, s: nat)
    ensures (h * (4 * p) + s) / 4 == h * p + s / 4
  {
    assert h * (4 * p) == 4 * (h * p);
    DivFour(h * p, s);
  }

  lemma ModFourOfMultiple(h: nat, p: nat, s: nat)
    ensures (h * (4 * p) + s) % 4 == s % 4
  {
    assert h * (4 * p) == 4 * (h * p);
    DivFour(h * p, s);
  }

  /** A prefix of the tensor product depends only on the digits it reads. */
  lemma {:induction false} TensorPrefixOfDigits(x: nat, y: nat, j: nat)
    requires j >= 1
    requires forall d :: 0 <= d < j ==> Digit(x, d) == Digit(y, d)
    ensures TensorPrefix(x, j) == TensorPrefix(y, j)
  {
    if j == 1 {
      DigitZero(x);
      DigitZero(y);
      TensorPrefixBase(x, y);
    } else {
      TensorPrefixOfDigits(x, y, j - 1);
      TensorPrefixStep(x, y, j);
    }
  }

  lemma DigitZero(x: nat)
    ensures Digit(x, 0) == x % 4
  {
  }

  lemma TensorPrefixBase(x: nat, y: nat)
    requires x % 4 == y % 4
    ensures TensorPrefix(x, 1) == TensorPrefix(y, 1)
  {
  }

  lemma TensorPrefixStep(x: nat, y: nat, j: nat)
    requires j >= 2
    requires TensorPrefix(x, j - 1) == TensorPrefix(y, j - 1) && Digit(x, j - 1) == Digit(y, j - 1)
    ensures TensorPrefix(x, j) == TensorPrefix(y, j)
  {
  }

  /** G_h ⊗ m, for a square m. */
  function WithFactor(h: nat, m: Matrix): (r: Matrix)
    requires h < 4 && IsSquare(m, |m|)
    ensures IsSquare(r, 2 * |m|)
  {
    GeneratorsAreSquare();
    Kron(Generators[h], m)
  }

  /** k ↦ P_k[s][t] * P_k[r][c] for the n-qubit strings P_k. */
  function KernelTerm(n: nat, s: nat, t: nat, r: nat, c: nat): nat -> Complex {
    (k: nat) => Mul(Entry(PauliString(n, k), s, t), Entry(PauliString(n, k), r, c))
  }

  /** Σ_k P_k[s][t] * P_k[r][c] over the n-qubit basis. */
  function Kernel(n: nat, s: nat, t: nat, r: nat, c: nat): Complex {
    Sum(Pow4(n), KernelTerm(n, s, t, r, c))
  }

  /** 2^n where s = c and t = r, zero elsewhere. */
  function ScaledDelta(n: nat, s: nat, t: nat, r: nat, c: nat): Complex {
    if s == c && t == r then FromReal(Pow2(n) as real) else Zero
  }

  lemma SumOfFour(f: nat -> Complex)
    ensures Sum(4, f) == Add(Add(f(0), f(1)), Add(f(2), f(3)))
  {
  }

  /** Generator d at an entry, the same matrix as the one-qubit string d. */
  lemma OneQubitStrings(d: nat)
    requires d < 4
    ensures PauliString(1, d) == Generators[d]
  {
  }

  /** The one-qubit identity Σ_d G_d[s][t] * G_d[r][c] = 2 [s = c][t = r]. */
  lemma OneQubitKernel(s: nat, t: nat, r: nat, c: nat)
    requires s < 2 && t < 2 && r < 2 && c < 2
    ensures Kernel(1, s, t, r, c) == ScaledDelta(1, s, t, r, c)
  {
    SumOfFour(KernelTerm(1, s, t, r, c));
    OneQubitStrings(0);
    OneQubitStrings(1);
    OneQubitStrings(2);
    OneQubitStrings(3);
    GeneratorProducts(s, t, r, c);
  }

  function Pair(g: Matrix, s: nat, t: nat, r: nat, c: nat): Complex {
    Mul(Entry(g, s, t), Entry(g, r, c))
  }

  lemma GeneratorProducts(s: nat, t: nat, r: nat, c: nat)
    requires s < 2 && t < 2 && r < 2 && c < 2
    ensures Add(Add(Pair(PauliI, s, t, r, c), Pair(PauliX, s, t, r, c)),
                Add(Pair(PauliY, s, t, r, c), Pair(PauliZ, s, t, r, c)))
      == ScaledDelta(1, s, t, r, c)
  {
    GeneratorEntriesArePauli(s, t);
    GeneratorEntriesArePauli(r, c);
    MulOfPauliEntries(Entry(PauliI, s, t), Entry(PauliI, r, c));
    MulOfPauliEntries(Entry(PauliX, s, t), Entry(PauliX, r, c));
    MulOfPauliEntries(Entry(PauliY, s, t), Entry(PauliY, r, c));
    MulOfPauliEntries(Entry(PauliZ, s, t), Entry(PauliZ, r, c));
    GeneratorTable(s, t, r, c);
    assert Pow2(1) == 2;
  }

  /** The generators entry by entry. */
  lemma GeneratorEntryValues(s: nat, t: nat)
    requires s < 2 && t < 2
    ensures Entry(PauliI, s, t) == (if s == t then One else Zero)
    ensures Entry(PauliX, s, t) == (if s == t then Zero else One)
    ensures Entry(PauliY, s, t) == (if s == t then Zero else if s == 0 then MinusI else I)
    ensures Entry(PauliZ, s, t) == (if s != t then Zero else if s == 0 then One else MinusOne)
  {
  }

  lemma GeneratorEntriesArePauli(s: nat, t: nat)
    requires s < 2 && t < 2
    ensures IsPauliEntry(Entry(PauliI, s, t)) && IsPauliEntry(Entry(PauliX, s, t))
    ensures IsPauliEntry(Entry(PauliY, s, t)) && IsPauliEntry(Entry(PauliZ, s, t))
  {
    GeneratorEntryValues(s, t);
  }

  /** The one-qubit identity on the multiplication table. */
  lemma GeneratorTable(s: nat, t: nat, r: nat, c: nat)
    requires s < 2 && t < 2 && r < 2 && c < 2
    ensures Add(Add(PauliProduct(Entry(PauliI, s, t), Entry(PauliI, r, c)),
                    PauliProduct(Entry(PauliX, s, t), Entry(PauliX, r, c))),
                Add(PauliProduct(Entry(PauliY, s, t), Entry(PauliY, r, c)),
                    PauliProduct(Entry(PauliZ, s, t), Entry(PauliZ, r, c))))
      == (if s == c && t == r then FromReal(2.0) else Zero)
  {
    GeneratorEntryValues(s, t);
    GeneratorEntryValues(r, c);
  }

  /** The index hi * d + lo: digit hi above a remainder lo below d. */
  function Join(hi: nat, lo: nat, d: nat): nat {
    hi * d + lo
  }

  /** Entry (i1 d + i0, j1 d + j0) of G_h ⊗ m, for m of size d, is
      G_h[i1][j1] * m[i0][j0]. */
  lemma {:induction false} WithFactorEntry(h: nat, m: Matrix, i1: nat, i0: nat, j1: nat, j0: nat)
    requires h < 4 && IsSquare(m, |m|)
    requires i1 < 2 && j1 < 2 && i0 < |m| && j0 < |m|
    ensures Entry(WithFactor(h, m), Join(i1, i0, |m|), Join(j1, j0, |m|)) ==
      Mul(Entry(Generators[h], i1, j1), Entry(m, i0, j0))
  {
    var d := |m|;
    GeneratorsAreSquare();
    DivModOfSplit(i1, i0, d);
    DivModOfSplit(j1, j0, d);
    SplitBelow(i1, i0, d);
    SplitBelow(j1, j0, d);
    KronEntry(Generators[h], m, Join(i1, i0, d), Join(j1, j0, d));
  }

  /** q * d + r < 2 d for q < 2 and r < d. */
  lemma SplitBelow(q: nat, r: nat, d: nat)
    requires q < 2 && r < d
    ensures q * d + r < 2 * d
  {
  }

  lemma MulInterchange(a: Complex, b: Complex, c: Complex, d: Complex)
    ensures Mul(Mul(a, b), Mul(c, d)) == Mul(Mul(a, c), Mul(b, d))
  {
    MulAssoc(a, b, Mul(c, d));
    MulAssoc(b, c, d);
    MulComm(b, c);
    MulAssoc(c, b, d);
    MulAssoc(a, c, Mul(b, d));
  }

  /** The four corners of a kernel index, split into a high (one-qubit)
      digit and a low (d-sized) part. */
  datatype Split = Split(s1: nat, s0: nat, t1: nat, t0: nat, r1: nat, r0: nat, c1: nat, c0: nat)

  predicate SplitBy(x: Split, d: nat) {
    x.s1 < 2 && x.t1 < 2 && x.r1 < 2 && x.c1 < 2 &&
    x.s0 < d && x.t0 < d && x.r0 < d && x.c0 < d
  }

  /** h * 4^n + l, the string whose top digit (digit n) is h above the n
      digits of l, defined so that unfolding it adds no product term. */
  function Stacked(h: nat, l: nat, n: nat): nat
    decreases n
  {
    if n == 0 then h + l else 4 * Stacked(h, 0, n - 1) + l
  }

  lemma {:induction false} StackedIsBlockIndex(h: nat, l: nat, n: nat)
    ensures Stacked(h, l, n) == h * Pow4(n) + l
  {
    if n > 0 {
      StackedIsBlockIndex(h, 0, n - 1);
      Pow4Step(n);
      assert 4 * (h * Pow4(n - 1)) == h * (4 * Pow4(n - 1));
    }
  }

  /** All digits below k of x and y agree. */
  predicate SameDigits(x: nat, y: nat, k: nat) {
    forall d :: 0 <= d < k ==> Digit(x, d) == Digit(y, d)
  }

  /** The digits of Stacked(h, l, n): h on top, l's below. */
  lemma StackedDigits(h: nat, l: nat, n: nat)
    requires h < 4 && l < Pow4(n)
    ensures Digit(Stacked(h, l, n), n) == h && SameDigits(Stacked(h, l, n), l, n)
  {
    StackedIsBlockIndex(h, l, n);
    DigitsOfBlock(h, l, n);
  }

  /** Entry (i1 2^k + i0, j1 2^k + j0) of the prefix of k + 1 factors is the
      top generator's entry (i1, j1) times entry (i0, j0) of the prefix of k. */
  lemma {:induction false} TensorPrefixEntry(x: nat, k: nat, i1: nat, i0: nat, j1: nat, j0: nat)
    requires k >= 1 && i1 < 2 && j1 < 2 && i0 < Pow2(k) && j0 < Pow2(k)
    ensures Entry(TensorPrefix(x, k + 1), Join(i1, i0, Pow2(k)), Join(j1, j0, Pow2(k))) ==
      Mul(Entry(Generators[Digit(x, k)], i1, j1), Entry(TensorPrefix(x, k), i0, j0))
  {
    WithFactorEntry(Digit(x, k), TensorPrefix(x, k), i1, i0, j1, j0);
  }

  lemma {:induction false} LowEntry(x: nat, y: nat, k: nat, i: nat, j: nat)
    requires k >= 1 && SameDigits(x, y, k)
    ensures Entry(TensorPrefix(x, k), i, j) == Entry(TensorPrefix(y, k), i, j)
  {
    TensorPrefixOfDigits(x, y, k);
  }

  lemma OneQubitEntry(h: nat, i: nat, j: nat)
    requires h < 4
    ensures Entry(PauliString(1, h), i, j) == Entry(Generators[h], i, j)
  {
    OneQubitStrings(h);
  }

  lemma {:induction false} StringEntryStep(n: nat, x: nat, i1: nat, i0: nat, j1: nat, j0: nat)
    requires n >= 1 && i1 < 2 && j1 < 2 && i0 < Pow2(n) && j0 < Pow2(n)
    ensures Entry(PauliString(n + 1, x), Join(i1, i0, Pow2(n)), Join(j1, j0, Pow2(n))) ==
      Mul(Entry(Generators[Digit(x, n)], i1, j1), Entry(TensorPrefix(x, n), i0, j0))
  {
    TensorPrefixEntry(x, n, i1, i0, j1, j0);
  }

  /** An entry of the string x on n + 1 qubits, given x's digits. */
  lemma {:induction false} StringEntryOfDigits(n: nat, x: nat, h: nat, l: nat, i1: nat, i0: nat, j1: nat, j0: nat)
    requires n >= 1 && h < 4 && Digit(x, n) == h && SameDigits(x, l, n)
    requires i1 < 2 && j1 < 2 && i0 < Pow2(n) && j0 < Pow2(n)
    ensures Entry(PauliString(n + 1, x), Join(i1, i0, Pow2(n)), Join(j1, j0, Pow2(n))) ==
      Mul(Entry(PauliString(1, h), i1, j1), Entry(PauliString(n, l), i0, j0))
  {
    StringEntryStep(n, x, i1, i0, j1, j0);
    OneQubitEntry(h, i1, j1);
    LowEntry(x, l, n, i0, j0);
  }

  /** Entry (i1 2^n + i0, j1 2^n + j0) of P_{h 4^n + l} on n + 1 qubits is
      (G_h)[i1][j1] times entry (i0, j0) of P_l on n qubits. */
  lemma {:induction false} StringEntryOfBlock(n: nat, h: nat, l: nat, i1: nat, i0: nat, j1: nat, j0: nat)
    requires n >= 1 && h < 4 && l < Pow4(n)
    requires i1 < 2 && j1 < 2 && i0 < Pow2(n) && j0 < Pow2(n)
    ensures Entry(PauliString(n + 1, Stacked(h, l, n)), Join(i1, i0, Pow2(n)), Join(j1, j0, Pow2(n))) ==
      Mul(Entry(PauliString(1, h), i1, j1), Entry(PauliString(n, l), i0, j0))
  {
    StackedDigits(h, l, n);
    StringEntryOfDigits(n, Stacked(h, l, n), h, l, i1, i0, j1, j0);
  }

  /** The product of two entries of P_{h 4^n + l} splits into a one-qubit
      product and an n-qubit product. */
  lemma {:induction false} StringPairOfBlock(n: nat, x: Split, h: nat, l: nat)
    requires n >= 1 && h < 4 && l < Pow4(n) && SplitBy(x, Pow2(n))
    ensures
      var p, d := PauliString(n + 1, Stacked(h, l, n)), Pow2(n);
      Mul(Entry(p, Join(x.s1, x.s0, d), Join(x.t1, x.t0, d)), Entry(p, Join(x.r1, x.r0, d), Join(x.c1, x.c0, d))) ==
      Mul(Mul(Entry(PauliString(1, h), x.s1, x.t1), Entry(PauliString(1, h), x.r1, x.c1)),
          Mul(Entry(PauliString(n, l), x.s0, x.t0), Entry(PauliString(n, l), x.r0, x.c0)))
  {
    StringEntryOfBlock(n, h, l, x.s1, x.s0, x.t1, x.t0);
    StringEntryOfBlock(n, h, l, x.r1, x.r0, x.c1, x.c0);
    MulInterchange(Entry(PauliString(1, h), x.s1, x.t1), Entry(PauliString(n, l), x.s0, x.t0),
                   Entry(PauliString(1, h), x.r1, x.c1), Entry(PauliString(n, l), x.r0, x.c0));
  }

  /** The kernel term on n + 1 qubits at the joined corners of x. */
  function SplitTerm(n: nat, x: Split): nat -> Complex {
    var d := Pow2(n);
    KernelTerm(n + 1, Join(x.s1, x.s0, d), Join(x.t1, x.t0, d), Join(x.r1, x.r0, d), Join(x.c1, x.c0, d))
  }

  /** The one-qubit kernel term at the high digits of x. */
  function HighTerm(x: Split): nat -> Complex {
    KernelTerm(1, x.s1, x.t1, x.r1, x.c1)
  }

  /** The n-qubit kernel term at the low parts of x. */
  function LowTerm(n: nat, x: Split): nat -> Complex {
    KernelTerm(n, x.s0, x.t0, x.r0, x.c0)
  }

  /** Kernel term number h 4^n + l on n + 1 qubits factors into term h on
      one qubit times term l on n qubits. */
  lemma {:induction false} KernelTermOfBlock(n: nat, x: Split, h: nat, l: nat)
    requires n >= 1 && h < 4 && l < Pow4(n) && SplitBy(x, Pow2(n))
    ensures SplitTerm(n, x)(Stacked(h, l, n)) == Mul(HighTerm(x)(h), LowTerm(n, x)(l))
  {
    StringPairOfBlock(n, x, h, l);
    KernelTermsAt(n, x, h, l);
  }

  /** The three terms of KernelTermOfBlock, applied. */
  lemma KernelTermsAt(n: nat, x: Split, h: nat, l: nat)
    ensures
      var p, d := PauliString(n + 1, Stacked(h, l, n)), Pow2(n);
      SplitTerm(n, x)(Stacked(h, l, n)) ==
        Mul(Entry(p, Join(x.s1, x.s0, d), Join(x.t1, x.t0, d)), Entry(p, Join(x.r1, x.r0, d), Join(x.c1, x.c0, d)))
    ensures HighTerm(x)(h) ==
      Mul(Entry(PauliString(1, h), x.s1, x.t1), Entry(PauliString(1, h), x.r1, x.c1))
    ensures LowTerm(n, x)(l) ==
      Mul(Entry(PauliString(n, l), x.s0, x.t0), Entry(PauliString(n, l), x.r0, x.c0))
  {
  }

  /** Block h of f in the order of the top digit: l ↦ f(h 4^n + l). */
  function StackedBlock(f: nat -> Complex, n: nat, h: nat): nat -> Complex {
    (l: nat) => f(Stacked(h, l, n))
  }

  /** h ↦ Σ_{l < 4^n} f(h 4^n + l). */
  function StackedSums(f: nat -> Complex, n: nat): nat -> Complex {
    (h: nat) => Sum(Pow4(n), StackedBlock(f, n, h))
  }

  /** A sum over the 4^(n+1) strings on n + 1 qubits, grouped by the top digit. */
  lemma SumByTopDigit(n: nat, f: nat -> Complex)
    ensures Sum(Pow4(n + 1), f) == Sum(4, StackedSums(f, n))
  {
    var q := Pow4(n);
    Pow4Step(n + 1);
    SumBlocks(4, q, f);
    forall h | 0 <= h < 4
      ensures BlockSums(f, q)(h) == StackedSums(f, n)(h)
    {
      BlockIsStacked(f, n, h);
    }
    SumExt(4, BlockSums(f, q), StackedSums(f, n));
  }

  lemma BlockIsStacked(f: nat -> Complex, n: nat, h: nat)
    ensures Sum(Pow4(n), Block(f, Pow4(n), h)) == Sum(Pow4(n), StackedBlock(f, n, h))
  {
    forall l | 0 <= l < Pow4(n)
      ensures Block(f, Pow4(n), h)(l) == StackedBlock(f, n, h)(l)
    {
      StackedIsBlockIndex(h, l, n);
    }
    SumExt(Pow4(n), Block(f, Pow4(n), h), StackedBlock(f, n, h));
  }

  /** The block of top digit h of the (n + 1)-qubit kernel is the n-qubit
      kernel times term h of the one-qubit kernel. */
  lemma {:induction false} KernelBlock(n: nat, x: Split, h: nat)
    requires n >= 1 && h < 4 && SplitBy(x, Pow2(n))
    ensures StackedSums(SplitTerm(n, x), n)(h) == Mul(Kernel(n, x.s0, x.t0, x.r0, x.c0), HighTerm(x)(h))
  {
    forall l | 0 <= l < Pow4(n)
      ensures StackedBlock(SplitTerm(n, x), n, h)(l) == Mul(HighTerm(x)(h), LowTerm(n, x)(l))
    {
      KernelTermOfBlock(n, x, h, l);
    }
    SumMulLeft(Pow4(n), HighTerm(x)(h), LowTerm(n, x), StackedBlock(SplitTerm(n, x), n, h));
    MulComm(HighTerm(x)(h), Kernel(n, x.s0, x.t0, x.r0, x.c0));
  }

  /** The kernel on n + 1 qubits is the product of the one-qubit kernel at
      the high digits and the n-qubit kernel at the low parts. */
  lemma {:induction false} KernelStep(n: nat, x: Split)
    requires n >= 1 && SplitBy(x, Pow2(n))
    ensures
      var d := Pow2(n);
      Kernel(n + 1, Join(x.s1, x.s0, d), Join(x.t1, x.t0, d), Join(x.r1, x.r0, d), Join(x.c1, x.c0, d)) ==
      Mul(Kernel(n, x.s0, x.t0, x.r0, x.c0), Kernel(1, x.s1, x.t1, x.r1, x.c1))
  {
    SumByTopDigit(n, SplitTerm(n, x));
    forall h | 0 <= h < 4
      ensures StackedSums(SplitTerm(n, x), n)(h) == Mul(Kernel(n, x.s0, x.t0, x.r0, x.c0), HighTerm(x)(h))
    {
      KernelBlock(n, x, h);
    }
    SumMulLeft(4, Kernel(n, x.s0, x.t0, x.r0, x.c0), HighTerm(x), StackedSums(SplitTerm(n, x), n));
    assert Pow4(1) == 4;
  }

  /** The high digits and low parts of four indices below 2 d. */
  function SplitOf(s: nat, t: nat, r: nat, c: nat, d: nat): Split
    requires d > 0
  {
    Split(s / d, s % d, t / d, t % d, r / d, r % d, c / d, c % d)
  }

  lemma SplitOfIndices(s: nat, t: nat, r: nat, c: nat, d: nat)
    requires d > 0 && s < 2 * d && t < 2 * d && r < 2 * d && c < 2 * d
    ensures var x := SplitOf(s, t, r, c, d);
      SplitBy(x, d) && Join(x.s1, x.s0, d) == s && Join(x.t1, x.t0, d) == t &&
      Join(x.r1, x.r0, d) == r && Join(x.c1, x.c0, d) == c
  {
    SplitIndex(s, d);
    SplitIndex(t, d);
    SplitIndex(r, d);
    SplitIndex(c, d);
  }

  /** An index below 2 d is its high digit joined to its remainder. */
  lemma SplitIndex(i: nat, d: nat)
    requires d > 0 && i < 2 * d
    ensures i / d < 2 && Join(i / d, i % d, d) == i
  {
    var q := i / d;
    assert d * q <= i;
    MulMonotone(d, 2, q);
  }

  /** Joining is one-to-one on remainders below d. */
  lemma JoinInjective(a1: nat, a0: nat, b1: nat, b0: nat, d: nat)
    requires a0 < d && b0 < d
    ensures Join(a1, a0, d) == Join(b1, b0, d) <==> a1 == b1 && a0 == b0
  {
    DivModOfSplit(a1, a0, d);
    DivModOfSplit(b1, b0, d);
  }

  /** The n-qubit and one-qubit deltas multiply to the (n + 1)-qubit delta
      at the joined indices. */
  lemma DeltaOfSplit(n: nat, x: Split)
    requires SplitBy(x, Pow2(n))
    ensures
      var d := Pow2(n);
      Mul(ScaledDelta(n, x.s0, x.t0, x.r0, x.c0), ScaledDelta(1, x.s1, x.t1, x.r1, x.c1)) ==
      ScaledDelta(n + 1, Join(x.s1, x.s0, d), Join(x.t1, x.t0, d), Join(x.r1, x.r0, d), Join(x.c1, x.c0, d))
  {
    var d := Pow2(n);
    JoinInjective(x.s1, x.s0, x.c1, x.c0, d);
    JoinInjective(x.t1, x.t0, x.r1, x.r0, d);
    MulFromReal(d as real, 2.0);
    MulZeroLeft(ScaledDelta(1, x.s1, x.t1, x.r1, x.c1));
    MulZeroRight(ScaledDelta(n, x.s0, x.t0, x.r0, x.c0));
  }

  /** Σ_k P_k[s][t] P_k[r][c] = 2^n [s = c][t = r] for all indices of the
      n-qubit strings. */
  lemma {:induction false} KernelIsDelta(n: nat, s: nat, t: nat, r: nat, c: nat)
    requires s < Pow2(n) && t < Pow2(n) && r < Pow2(n) && c < Pow2(n)
    ensures Kernel(n, s, t, r, c) == ScaledDelta(n, s, t, r, c)
  {
    if n == 0 {
      ZeroQubitKernel(s, t, r, c);
    } else if n == 1 {
      OneQubitKernel(s, t, r, c);
    } else {
      var d := Pow2(n - 1);
      var x := SplitOf(s, t, r, c, d);
      SplitOfIndices(s, t, r, c, d);
      KernelIsDelta(n - 1, x.s0, x.t0, x.r0, x.c0);
      KernelDeltaStep(n, x);
    }
  }

  /** The induction step of KernelIsDelta, at joined indices. */
  lemma {:induction false} KernelDeltaStep(n: nat, x: Split)
    requires n >= 2 && SplitBy(x, Pow2(n - 1))
    requires Kernel(n - 1, x.s0, x.t0, x.r0, x.c0) == ScaledDelta(n - 1, x.s0, x.t0, x.r0, x.c0)
    ensures
      var d := Pow2(n - 1);
      var s, t, r, c := Join(x.s1, x.s0, d), Join(x.t1, x.t0, d), Join(x.r1, x.r0, d), Join(x.c1, x.c0, d);
      Kernel(n, s, t, r, c) == ScaledDelta(n, s, t, r, c)
  {
    var m := n - 1;
    KernelStep(m, x);
    OneQubitKernel(x.s1, x.t1, x.r1, x.c1);
    DeltaOfSplit(m, x);
  }

  lemma ZeroQubitKernel(s: nat, t: nat, r: nat, c: nat)
    requires s == 0 && t == 0 && r == 0 && c == 0
    ensures Kernel(0, s, t, r, c) == ScaledDelta(0, s, t, r, c)
  {
    SumOfOne(KernelTerm(0, s, t, r, c));
    ZeroQubitTerm(s, t, r, c, 0);
  }

  lemma SumOfOne(f: nat -> Complex)
    ensures Sum(1, f) == Add(Zero, f(0))
  {
  }

  lemma ZeroQubitTerm(s: nat, t: nat, r: nat, c: nat, k: nat)
    requires s == 0 && t == 0 && r == 0 && c == 0
    ensures KernelTerm(0, s, t, r, c)(k) == One
  {
    var e := Entry(PauliString(0, k), s, t);
    assert e == One && Entry(PauliString(0, k), r, c) == One;
    MulOneLeft(e);
  }
}
