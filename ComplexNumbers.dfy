/** Exact complex numbers over Dafny's `real`, standing in for the
    double-precision `std::complex<double>` / `Qrack::complex` entries of
    the source. Every entry the discrete core produces is a ring
    combination of 0, 1 and i, so exact arithmetic loses nothing. */
module ComplexNumbers {

  datatype Complex = Complex(re: real, im: real)

  const Zero: Complex := Complex(0.0, 0.0)
  const One: Complex := Complex(1.0, 0.0)
  const MinusOne: Complex := Complex(-1.0, 0.0)
  /** The imaginary unit, `const std::complex<double> i(0.0, 1.0)`. */
  const I: Complex := Complex(0.0, 1.0)
  const MinusI: Complex := Complex(0.0, -1.0)

  function Add(a: Complex, b: Complex): Complex {
    Complex(a.re + b.re, a.im + b.im)
  }

  function Neg(a: Complex): Complex {
    Complex(-a.re, -a.im)
  }

  function Mul(a: Complex, b: Complex): Complex {
    Complex(a.re * b.re - a.im * b.im, a.re * b.im + a.im * b.re)
  }

  /** Multiplication by a real number. */
  function Scale(k: real, a: Complex): Complex {
    Complex(k * a.re, k * a.im)
  }

  function Conj(a: Complex): Complex {
    Complex(a.re, -a.im)
  }

  /** A real number embedded in the complex plane. */
  function FromReal(x: real): Complex {
    Complex(x, 0.0)
  }

  /** The five values an entry of a Pauli string can take. */
  predicate IsPauliEntry(z: Complex) {
    z == Zero || z == One || z == MinusOne || z == I || z == MinusI
  }

  lemma PauliEntriesClosedUnderMul(a: Complex, b: Complex)
    requires IsPauliEntry(a) && IsPauliEntry(b)
    ensures IsPauliEntry(Mul(a, b))
  {
  }

  /** The multiplication table of the five Pauli entry values, written
      without arithmetic: zero absorbs, one is neutral, -1 negates, and
      i * i = -i * -i = -1 while i * -i = 1. */
  function PauliProduct(a: Complex, b: Complex): Complex {
    if a == Zero || b == Zero then Zero
    else if a == One then b
    else if b == One then a
    else if a == MinusOne then Neg(b)
    else if b == MinusOne then Neg(a)
    else if a == b then MinusOne
    else One
  }

  /** Complex multiplication agrees with the table on Pauli entries. */
  lemma MulOfPauliEntries(a: Complex, b: Complex)
    requires IsPauliEntry(a) && IsPauliEntry(b)
    ensures Mul(a, b) == PauliProduct(a, b)
  {
    if a == Zero {
      MulZeroLeft(b);
    } else if a == One {
      MulOneLeft(b);
    } else if a == MinusOne {
      MulMinusOneLeft(b);
    } else if a == I {
      MulILeft(b);
    } else {
      MulMinusILeft(b);
    }
  }

  lemma MulZeroLeft(b: Complex)
    ensures Mul(Zero, b) == Zero
  {
  }

  lemma MulZeroRight(a: Complex)
    ensures Mul(a, Zero) == Zero
  {
  }

  /** Real numbers multiply as complex numbers with no imaginary part. */
  lemma MulFromReal(x: real, y: real)
    ensures Mul(FromReal(x), FromReal(y)) == FromReal(x * y)
  {
  }

  lemma MulOneLeft(b: Complex)
    ensures Mul(One, b) == b
  {
  }

  lemma MulMinusOneLeft(b: Complex)
    ensures Mul(MinusOne, b) == Neg(b)
  {
  }

  lemma MulILeft(b: Complex)
    requires IsPauliEntry(b)
    ensures Mul(I, b) == PauliProduct(I, b)
  {
  }

  lemma MulMinusILeft(b: Complex)
    requires IsPauliEntry(b)
    ensures Mul(MinusI, b) == PauliProduct(MinusI, b)
  {
  }

  lemma MulComm(a: Complex, b: Complex)
    ensures Mul(a, b) == Mul(b, a)
  {
  }

  lemma MulAssoc(a: Complex, b: Complex, c: Complex)
    ensures Mul(Mul(a, b), c) == Mul(a, Mul(b, c))
  {
    assert (a.re * b.re - a.im * b.im) * c.re == a.re * (b.re * c.re) - a.im * (b.im * c.re);
    assert (a.re * b.re - a.im * b.im) * c.im == a.re * (b.re * c.im) - a.im * (b.im * c.im);
    assert (a.re * b.im + a.im * b.re) * c.re == a.re * (b.im * c.re) + a.im * (b.re * c.re);
    assert (a.re * b.im + a.im * b.re) * c.im == a.re * (b.im * c.im) + a.im * (b.re * c.im);
  }

  lemma MulAddDistrib(a: Complex, b: Complex, c: Complex)
    ensures Mul(a, Add(b, c)) == Add(Mul(a, b), Mul(a, c))
    ensures Mul(Add(b, c), a) == Add(Mul(b, a), Mul(c, a))
  {
  }

  lemma ScaleAddDistrib(k: real, a: Complex, b: Complex)
    ensures Scale(k, Add(a, b)) == Add(Scale(k, a), Scale(k, b))
  {
  }

  lemma MulScale(k: real, a: Complex, b: Complex)
    ensures Mul(Scale(k, a), b) == Scale(k, Mul(a, b))
    ensures Mul(a, Scale(k, b)) == Scale(k, Mul(a, b))
  {
    assert (k * a.re) * b.re - (k * a.im) * b.im == k * (a.re * b.re - a.im * b.im);
    assert (k * a.re) * b.im + (k * a.im) * b.re == k * (a.re * b.im + a.im * b.re);
    assert a.re * (k * b.re) - a.im * (k * b.im) == k * (a.re * b.re - a.im * b.im);
    assert a.re * (k * b.im) + a.im * (k * b.re) == k * (a.re * b.im + a.im * b.re);
  }
}
