/** Block encodings (`BlockEncoding` in BlockEncoding/BlockEncoding.cpp and
    BlockEncoding/BlockEncoding.hpp): a scalar `s` with |s| <= 1 embedded as
    the (0,0) entry of the 2 by 2 unitary [[s, q], [q, -s]], q = sqrt(1 - s^2),
    and the four ways of handing that unitary to the simulator. */
module BlockEncoding {
  import opened ComplexNumbers
  import opened Matrices
  import opened Simulator

  /** The two messages of `BlockEncodingException`. */
  datatype EncodingError =
    | ScalarExceedsOne   // "Your scalar value must not exceed 1"
    | NormExceedsOne     // "The matrix norm is larger than 1"

  datatype Result<T> = Ok(value: T) | Err(error: EncodingError)

  /** `q` is the non-negative square root of `x`; stands in for `std::sqrt`. */
  predicate IsSqrt(q: real, x: real) {
    q >= 0.0 && q * q == x
  }

  /** The square root the scalar constructor needs exists exactly when it
      can be taken: when -1 <= scalar <= 1. */
  predicate SqrtGiven(scalar: real, q: real) {
    -1.0 <= scalar <= 1.0 ==> IsSqrt(q, 1.0 - scalar * scalar)
  }

  /** The matrix the scalar constructor fills in: (0,0) = p, (0,1) = q,
      (1,0) copied from (0,1), (1,1) = -1 times (0,0). */
  function ScalarUnitary(p: real, q: real): (m: Matrix)
    ensures IsSquare(m, 2)
  {
    var m00 := FromReal(p);
    var m01 := FromReal(q);
    [[m00, m01], [m01, Mul(MinusOne, m00)]]
  }

  /** The 2 by 2 matrix is unitary: U * U^dagger = U^dagger * U = I. */
  predicate IsUnitary2(u: Matrix)
    requires IsSquare(u, 2)
  {
    MatMul(u, Adjoint(u)) == Identity(2) && MatMul(Adjoint(u), u) == Identity(2)
  }

  /** The entries of the scalar encoding: (0,0) is the scalar, both
      off-diagonals are q, and (1,1) is the negated (0,0). */
  lemma ScalarUnitaryEntries(p: real, q: real)
    ensures ScalarUnitary(p, q)[0][0] == FromReal(p)
    ensures ScalarUnitary(p, q)[0][1] == ScalarUnitary(p, q)[1][0] == FromReal(q)
    ensures ScalarUnitary(p, q)[1][1] == Neg(ScalarUnitary(p, q)[0][0])
  {
  }

  /** An entry of the product of two 2 by 2 matrices. */
  lemma MatMul2(u: Matrix, v: Matrix, r: nat, c: nat)
    requires IsSquare(u, 2) && IsSquare(v, 2) && r < 2 && c < 2
    ensures MatMul(u, v)[r][c] == Add(Mul(u[r][0], v[0][c]), Mul(u[r][1], v[1][c]))
  {
  }

  lemma Identity2()
    ensures Identity(2) == [[One, Zero], [Zero, One]]
  {
    assert Identity(2)[0] == [One, Zero];
    assert Identity(2)[1] == [Zero, One];
  }

  /** No real number is a square root of 1 - scalar^2 once scalar < -1 or scalar > 1. */
  lemma NoSqrtOutsideRange(scalar: real, x: real)
    requires scalar < -1.0 || scalar > 1.0
    ensures !IsSqrt(x, 1.0 - scalar * scalar)
  {
    if scalar < -1.0 {
      assert scalar * scalar > 1.0 by {
        assert (-scalar) * (-scalar) > 1.0 * (-scalar);
      }
    } else {
      assert scalar * scalar > 1.0 * scalar;
    }
  }

  /** With q the square root of 1 - p^2, [[p, q], [q, -p]] is real and
      symmetric, hence its own adjoint, and it squares to the identity,
      hence it is unitary. */
  lemma {:induction false} ScalarUnitaryIsUnitary(p: real, q: real)
    requires IsSqrt(q, 1.0 - p * p)
    ensures Adjoint(ScalarUnitary(p, q)) == ScalarUnitary(p, q)
    ensures MatMul(ScalarUnitary(p, q), ScalarUnitary(p, q)) == Identity(2)
    ensures IsUnitary2(ScalarUnitary(p, q))
  {
    ScalarUnitarySelfAdjoint(p, q);
    ScalarUnitarySquare(p, q);
  }

  lemma ScalarUnitarySelfAdjoint(p: real, q: real)
    ensures Adjoint(ScalarUnitary(p, q)) == ScalarUnitary(p, q)
  {
    var u := ScalarUnitary(p, q);
    var a := Adjoint(u);
    assert a[0] == u[0] && a[1] == u[1];
  }

  lemma ScalarUnitarySquare(p: real, q: real)
    requires IsSqrt(q, 1.0 - p * p)
    ensures MatMul(ScalarUnitary(p, q), ScalarUnitary(p, q)) == Identity(2)
  {
    SquareEntries(p, q);
    IdentityByEntries(MatMul(ScalarUnitary(p, q), ScalarUnitary(p, q)));
  }

  lemma IdentityByEntries(m: Matrix)
    requires IsSquare(m, 2)
    requires m[0][0] == One && m[0][1] == Zero && m[1][0] == Zero && m[1][1] == One
    ensures m == Identity(2)
  {
    Identity2();
    assert m[0] == [One, Zero];
    assert m[1] == [Zero, One];
  }

  /** U * U = (p^2 + q^2) I for U = [[p, q], [q, -p]]. */
  lemma SquareEntries(p: real, q: real)
    ensures MatMul(ScalarUnitary(p, q), ScalarUnitary(p, q))[0][0] == Complex(p * p + q * q, 0.0)
    ensures MatMul(ScalarUnitary(p, q), ScalarUnitary(p, q))[1][1] == Complex(p * p + q * q, 0.0)
    ensures MatMul(ScalarUnitary(p, q), ScalarUnitary(p, q))[0][1] == Zero
    ensures MatMul(ScalarUnitary(p, q), ScalarUnitary(p, q))[1][0] == Zero
  {
    var u := ScalarUnitary(p, q);
    var x, y, z := Complex(p, 0.0), Complex(q, 0.0), Complex(-p, 0.0);
    assert u == [[x, y], [y, z]];
    Square2(x, y, z);
    RealProducts(p, q);
  }

  /** The square of a symmetric 2 by 2 matrix [[x, y], [y, z]]. */
  lemma Square2(x: Complex, y: Complex, z: Complex)
    ensures MatMul([[x, y], [y, z]], [[x, y], [y, z]])[0][0] == Add(Mul(x, x), Mul(y, y))
    ensures MatMul([[x, y], [y, z]], [[x, y], [y, z]])[0][1] == Add(Mul(x, y), Mul(y, z))
    ensures MatMul([[x, y], [y, z]], [[x, y], [y, z]])[1][0] == Add(Mul(y, x), Mul(z, y))
    ensures MatMul([[x, y], [y, z]], [[x, y], [y, z]])[1][1] == Add(Mul(y, y), Mul(z, z))
  {
    var u := [[x, y], [y, z]];
    MatMul2(u, u, 0, 0);
    MatMul2(u, u, 0, 1);
    MatMul2(u, u, 1, 0);
    MatMul2(u, u, 1, 1);
  }

  lemma RealProducts(p: real, q: real)
    ensures Add(Mul(Complex(p, 0.0), Complex(p, 0.0)), Mul(Complex(q, 0.0), Complex(q, 0.0))) == Complex(p * p + q * q, 0.0)
    ensures Add(Mul(Complex(q, 0.0), Complex(q, 0.0)), Mul(Complex(-p, 0.0), Complex(-p, 0.0))) == Complex(p * p + q * q, 0.0)
    ensures Add(Mul(Complex(p, 0.0), Complex(q, 0.0)), Mul(Complex(q, 0.0), Complex(-p, 0.0))) == Zero
    ensures Add(Mul(Complex(q, 0.0), Complex(p, 0.0)), Mul(Complex(-p, 0.0), Complex(q, 0.0))) == Zero
  {
  }

  /** The scalar constructor as written: it rejects only scalar > 1. */
  function EncodeScalarAsWritten(scalar: real, q: real): (r: Result<Matrix>)
    requires SqrtGiven(scalar, q)
    ensures r.Err? <==> scalar > 1.0
    ensures r.Err? ==> r.error == ScalarExceedsOne
    ensures r.Ok? ==> r.value == ScalarUnitary(scalar, q)
  {
    if scalar > 1.0 then Err(ScalarExceedsOne) else Ok(ScalarUnitary(scalar, q))
  }

  /** Below -1 the as-written check lets the scalar through although
      1 - scalar^2 has no real square root, and whatever value stands in for
      it, the matrix built is not unitary: take scalar = -2. */
  lemma AsWrittenAcceptsNonUnitary(q: real)
    ensures EncodeScalarAsWritten(-2.0, q) == Ok(ScalarUnitary(-2.0, q))
    ensures MatMul(ScalarUnitary(-2.0, q), ScalarUnitary(-2.0, q)) != Identity(2)
  {
    SquareOfMinusTwoIsNotIdentity(q);
  }

  lemma SquareOfMinusTwoIsNotIdentity(q: real)
    ensures MatMul(ScalarUnitary(-2.0, q), ScalarUnitary(-2.0, q)) != Identity(2)
  {
    SquareOfMinusTwoCorner(q);
    assert Identity(2)[0][0] == One;
  }

  lemma SquareOfMinusTwoCorner(q: real)
    ensures MatMul(ScalarUnitary(-2.0, q), ScalarUnitary(-2.0, q))[0][0] != One
  {
    CornerIsNotOne(q);
    SquareCorner(-2.0, q);
  }

  /** Entry (0,0) of U * U is p^2 + q^2, so it is 1 only on the unit circle. */
  lemma SquareCorner(p: real, q: real)
    requires p * p + q * q != 1.0
    ensures MatMul(ScalarUnitary(p, q), ScalarUnitary(p, q))[0][0] != One
  {
    SquareEntries(p, q);
  }

  lemma CornerIsNotOne(q: real)
    ensures (-2.0) * (-2.0) + q * q != 1.0
  {
  }

  /** The scalar constructor with the bound the header promises, |scalar| <= 1:
      it succeeds exactly inside [-1, 1], and then yields a unitary, self-
      adjoint matrix whose (0,0) entry is the scalar. */
  function EncodeScalar(scalar: real, q: real): (r: Result<Matrix>)
    requires SqrtGiven(scalar, q)
    ensures r.Err? <==> (scalar > 1.0 || scalar < -1.0)
    ensures r.Err? ==> r.error == ScalarExceedsOne
    ensures r.Ok? ==> IsSquare(r.value, 2) && r.value[0][0] == FromReal(scalar)
    ensures r.Ok? ==> IsUnitary2(r.value) && Adjoint(r.value) == r.value
  {
    if scalar > 1.0 || scalar < -1.0 then Err(ScalarExceedsOne)
    else
      ScalarUnitaryIsUnitary(scalar, q);
      Ok(ScalarUnitary(scalar, q))
  }

  /** Inside [-1, 1] the two checks agree. */
  lemma {:induction false} EncodeScalarAgreesInRange(scalar: real, q: real)
    requires -1.0 <= scalar <= 1.0 && IsSqrt(q, 1.0 - scalar * scalar)
    ensures EncodeScalar(scalar, q) == EncodeScalarAsWritten(scalar, q)
  {
  }

  /** The norm check of the matrix constructor. The leading singular value
      of the input is a parameter (the SVD itself is not modelled). On
      success the stored matrix is left as the empty matrix it starts as,
      because the constructor never assigns it. */
  function EncodeMatrix(a: Matrix, leadingSingularValue: real): (r: Result<Matrix>)
    ensures r.Err? <==> leadingSingularValue > 1.0
    ensures r.Err? ==> r.error == NormExceedsOne
    ensures r.Ok? ==> r.value == []
  {
    if leadingSingularValue > 1.0 then Err(NormExceedsOne) else Ok([])
  }

  /** A constructed block encoding: the simulator handle and the stored
      matrix. The matrix constructor assigns neither, so both may be at
      their defaults (no handle, empty matrix). */
  class BlockEncoding {
    var qReg: QuantumRegister?
    var matrix: Matrix

    ghost predicate Valid()
      reads this
    {
      IsSquare(matrix, |matrix|)
    }

    /** The successful path of the scalar constructor: the matrix is sized
        2 by 2 and filled entry by entry. */
    constructor Scalar(qReg: QuantumRegister, scalar: real, q: real)
      requires -1.0 <= scalar <= 1.0 && IsSqrt(q, 1.0 - scalar * scalar)
      ensures Valid()
      ensures matrix == ScalarUnitary(scalar, q)
      ensures this.qReg == qReg
    {
      var m: Matrix := [[Zero, Zero], [Zero, Zero]];
      var p := scalar;
      m := m[0 := m[0][0 := FromReal(p)]];
      m := m[0 := m[0][1 := FromReal(q)]];
      m := m[1 := m[1][0 := m[0][1]]];
      m := m[1 := m[1][1 := Mul(MinusOne, m[0][0])]];
      assert m[0] == ScalarUnitary(scalar, q)[0];
      assert m[1] == ScalarUnitary(scalar, q)[1];
      matrix := m;
      this.qReg := qReg;
    }

    /** The successful path of the matrix constructor: nothing is stored. */
    constructor Unset()
      ensures Valid()
      ensures qReg == null && matrix == []
    {
      qReg := null;
      matrix := [];
    }

    /** The scalar constructor, with the rejection of scalars outside
        [-1, 1] as an error result. */
    static method FromScalar(qReg: QuantumRegister, scalar: real, q: real)
      returns (r: Result<BlockEncoding>)
      requires SqrtGiven(scalar, q)
      ensures r.Err? <==> (scalar > 1.0 || scalar < -1.0)
      ensures r.Err? ==> r.error == ScalarExceedsOne
      ensures r.Ok? ==> fresh(r.value) && r.value.Valid() && r.value.qReg == qReg
      ensures r.Ok? ==> Ok(r.value.matrix) == EncodeScalar(scalar, q)
    {
      if scalar > 1.0 || scalar < -1.0 {
        return Err(ScalarExceedsOne);
      }
      var b := new BlockEncoding.Scalar(qReg, scalar, q);
      return Ok(b);
    }

    /** The matrix constructor: it throws exactly when the leading singular
        value exceeds 1, and otherwise stores nothing. */
    static method FromMatrix(qReg: QuantumRegister, a: Matrix, leadingSingularValue: real)
      returns (r: Result<BlockEncoding>)
      ensures r.Err? <==> leadingSingularValue > 1.0
      ensures r.Err? ==> r.error == NormExceedsOne
      ensures r.Ok? ==> fresh(r.value) && r.value.Valid()
      ensures r.Ok? ==> Ok(r.value.matrix) == EncodeMatrix(a, leadingSingularValue)
      ensures r.Ok? ==> r.value.qReg == null
    {
      if leadingSingularValue > 1.0 {
        return Err(NormExceedsOne);
      }
      var b := new BlockEncoding.Unset();
      return Ok(b);
    }

    /** Issues the stored matrix on `target`. */
    method Apply(target: nat)
      requires qReg != null
      modifies qReg
      ensures qReg.issued == old(qReg.issued) + [Gate.Mtrx(matrix, target)]
      ensures unchanged(this)
    {
      qReg.Mtrx(matrix, target);
    }

    /** Issues the adjoint of the stored matrix on `target`. */
    method ApplyAdjoint(target: nat)
      requires Valid() && qReg != null
      modifies qReg
      ensures qReg.issued == old(qReg.issued) + [Gate.Mtrx(Adjoint(matrix), target)]
      ensures unchanged(this)
    {
      var adj := Adjoint(matrix);
      qReg.Mtrx(adj, target);
    }

    /** Issues the stored matrix controlled on every qubit of `controls`. */
    method ControlledApply(controls: seq<nat>, target: nat)
      requires qReg != null
      modifies qReg
      ensures qReg.issued == old(qReg.issued) + [Gate.MCMtrx(controls, matrix, target)]
      ensures unchanged(this)
    {
      qReg.MCMtrx(controls, matrix, target);
    }

    /** Issues the stored matrix anti-controlled on `controls`. */
    method AntiControlledApply(controls: seq<nat>, target: nat)
      requires qReg != null
      modifies qReg
      ensures qReg.issued == old(qReg.issued) + [Gate.MACMtrx(controls, matrix, target)]
      ensures unchanged(this)
    {
      qReg.MACMtrx(controls, matrix, target);
    }

    method GetEncodedMatrix() returns (m: Matrix)
      ensures m == matrix
    {
      m := matrix;
    }
  }

  /** For a scalar encoding, `apply_adjoint` issues the very gate `apply`
      issues, because the matrix is its own adjoint. */
  lemma {:induction false} AdjointApplyIssuesSameGate(scalar: real, q: real, target: nat)
    requires -1.0 <= scalar <= 1.0 && IsSqrt(q, 1.0 - scalar * scalar)
    ensures Gate.Mtrx(Adjoint(ScalarUnitary(scalar, q)), target) ==
      Gate.Mtrx(ScalarUnitary(scalar, q), target)
  {
    ScalarUnitaryIsUnitary(scalar, q);
  }
}
