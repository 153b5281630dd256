/** Linear-combination-of-unitaries decomposition of a 2^n by 2^n matrix
    into the Pauli-string basis (`Lcu` in src/Lcu.cpp, include/Lcu.hpp). */
module Lcu {
  import opened ComplexNumbers
  import opened Matrices

  /** The single-qubit generators, in the order the constructor pushes them. */
  const PauliI: Matrix := [[One, Zero], [Zero, One]]
  const PauliX: Matrix := [[Zero, One], [One, Zero]]
  const PauliY: Matrix := [[Zero, MinusI], [I, Zero]]
  const PauliZ: Matrix := [[One, Zero], [Zero, MinusOne]]
  const Generators: seq<Matrix> := [PauliI, PauliX, PauliY, PauliZ]

  function Pow2(n: nat): (r: nat)
    ensures r >= 1
  {
    if n == 0 then 1 else 2 * Pow2(n - 1)
  }

  function Pow4(n: nat): (r: nat)
    ensures r >= 1
  {
    if n == 0 then 1 else 4 * Pow4(n - 1)
  }

  predicate IsPowerOfTwo(d: nat) {
    d == 1 || (d >= 2 && d % 2 == 0 && IsPowerOfTwo(d / 2))
  }

  /** Exact base-2 logarithm; stands in for `round(log2(shape))`, which is
      exact on the powers of two this model admits. */
  function Log2(d: nat): (n: nat)
    requires IsPowerOfTwo(d)
    ensures Pow2(n) == d
  {
    if d == 1 then 0 else 1 + Log2(d / 2)
  }

  lemma {:induction false} Log2OfPow2(n: nat)
    ensures IsPowerOfTwo(Pow2(n)) && Log2(Pow2(n)) == n
  {
    if n > 0 {
      Log2OfPow2(n - 1);
    }
  }

  lemma GeneratorsAreSquare()
    ensures forall d :: 0 <= d < 4 ==> IsSquare(Generators[d], 2)
  {
  }

  /** The index `i` after `j` integer divisions by 4, as the inner loop of
      `generate_pauli_strings` leaves `temp_index`. */
  function Shift(i: nat, j: nat): nat {
    if j == 0 then i else Shift(i, j - 1) / 4
  }

  lemma GeneratorEntries(d: nat)
    requires d < 4
    ensures IsSquare(Generators[d], 2) && AllPauliEntries(Generators[d])
  {
  }

  /** Base-4 digit `j` of the index `i` (digit 0 is the least significant). */
  function Digit(i: nat, j: nat): (d: nat)
    ensures d < 4
  {
    Shift(i, j) % 4
  }

  /** The Kronecker product of the generators named by the `k` low base-4
      digits of `i`: G[d(k-1)] ⊗ ... ⊗ G[d(1)] ⊗ G[d(0)], built the way the
      inner loop of `generate_pauli_strings` builds it, by putting each new
      factor on the left. */
  function TensorPrefix(i: nat, k: nat): (m: Matrix)
    requires k >= 1
    ensures IsSquare(m, Pow2(k))
    decreases k
  {
    GeneratorsAreSquare();
    if k == 1 then Generators[i % 4]
    else Kron(Generators[Digit(i, k - 1)], TensorPrefix(i, k - 1))
  }

  /** Pauli string number `i` of the `n`-qubit basis; the 1 by 1 identity
      when `n` is zero. */
  function PauliString(n: nat, i: nat): (m: Matrix)
    ensures IsSquare(m, Pow2(n))
  {
    if n == 0 then [[One]] else TensorPrefix(i, n)
  }

  /** The whole basis in index order: 4^n strings. */
  function PauliBasis(n: nat): (b: seq<Matrix>)
    ensures |b| == Pow4(n)
  {
    seq(Pow4(n), i requires 0 <= i => PauliString(n, i))
  }

  /** With no qubits the basis is the single 1 by 1 identity. */
  lemma ZeroQubitBasis()
    ensures PauliBasis(0) == [[[One]]]
  {
  }

  /** The first `i` strings of the n-qubit basis. */
  function BasisPrefix(n: nat, i: nat): (b: seq<Matrix>)
    ensures |b| == i
  {
    seq(i, k requires 0 <= k => PauliString(n, k))
  }

  lemma BasisPrefixStep(before: seq<Matrix>, n: nat, i: nat)
    ensures before + BasisPrefix(n, i + 1) == (before + BasisPrefix(n, i)) + [PauliString(n, i)]
  {
    assert BasisPrefix(n, i + 1) == BasisPrefix(n, i) + [PauliString(n, i)];
  }

  /** `trace(P * A) / 2^n`, the coefficient of the Pauli string `p`. */
  function Coefficient(p: Matrix, a: Matrix, n: nat): Complex
    requires IsSquare(p, Pow2(n)) && IsSquare(a, Pow2(n))
  {
    Scale(1.0 / (Pow2(n) as real), Trace(MatMul(p, a)))
  }

  /** Every entry of every Pauli string is one of 0, 1, -1, i, -i. */
  lemma {:induction false} PauliStringEntries(n: nat, i: nat)
    ensures AllPauliEntries(PauliString(n, i))
  {
    if n > 0 {
      TensorPrefixEntries(i, n);
    }
  }

  lemma {:induction false} TensorPrefixEntries(i: nat, k: nat)
    requires k >= 1
    ensures AllPauliEntries(TensorPrefix(i, k))
  {
    GeneratorEntries(Digit(i, k - 1));
    if k == 1 {
      GeneratorEntries(i % 4);
    } else {
      TensorPrefixEntries(i, k - 1);
      KronOfPauliEntries(Generators[Digit(i, k - 1)], TensorPrefix(i, k - 1));
    }
  }

  /** The decomposer: the target matrix, the basis it has generated so far
      and the coefficients of its last projection. */
  class Lcu {
    var a: Matrix
    var nQubits: nat
    var nPauliStrings: nat
    var pauliMatrices: seq<Matrix>
    var pauliStrings: seq<Matrix>
    var coefs: seq<Complex>
    /** How many times the basis has been generated. */
    ghost var generations: nat

    /** The target is 2^nQubits square, the counts agree, and the stored
        strings are whole copies of the basis, one after another. */
    ghost predicate Valid()
      reads this
    {
      IsSquare(a, Pow2(nQubits)) &&
      nPauliStrings == Pow4(nQubits) &&
      pauliMatrices == Generators &&
      pauliStrings == Repeat(PauliBasis(nQubits), generations) &&
      forall k :: 0 <= k < |pauliStrings| ==> IsSquare(pauliStrings[k], Pow2(nQubits))
    }

    constructor (A: Matrix)
      requires IsSquare(A, |A|) && IsPowerOfTwo(|A|)
      ensures Valid()
      ensures a == A && Pow2(nQubits) == |A| && nPauliStrings == Pow4(nQubits)
      ensures pauliMatrices == [PauliI, PauliX, PauliY, PauliZ]
      ensures pauliStrings == [] && coefs == [] && generations == 0
    {
      a := A;
      pauliMatrices := [];
      pauliStrings := [];
      coefs := [];
      generations := 0;
      pauliMatrices := pauliMatrices + [PauliI];
      pauliMatrices := pauliMatrices + [PauliX];
      pauliMatrices := pauliMatrices + [PauliY];
      pauliMatrices := pauliMatrices + [PauliZ];
      var shape := |A|;
      var n := Log2(shape);
      nQubits := n;
      nPauliStrings := Pow4(n);
    }

    /** Appends the whole n-qubit basis, string `i` at position
        `old(|pauliStrings|) + i`; strings already stored are kept. */
    method GeneratePauliStrings()
      requires Valid()
      modifies this
      ensures Valid()
      ensures pauliStrings == old(pauliStrings) + PauliBasis(nQubits)
      ensures a == old(a) && nQubits == old(nQubits) && nPauliStrings == old(nPauliStrings)
      ensures pauliMatrices == old(pauliMatrices) && coefs == old(coefs)
      ensures generations == old(generations) + 1
    {
      ghost var n := nQubits;
      ghost var before := pauliStrings;
      for i := 0 to nPauliStrings
        invariant a == old(a) && nQubits == n && nPauliStrings == Pow4(n)
        invariant pauliMatrices == Generators && coefs == old(coefs)
        invariant generations == old(generations)
        invariant pauliStrings == before + BasisPrefix(n, i)
      {
        if nQubits == 0 {
          var p: Matrix := [[One]];
          BasisPrefixStep(before, n, i);
          pauliStrings := pauliStrings + [p];
          continue;
        }
        var current := TensorOfDigits(i);
        BasisPrefixStep(before, n, i);
        pauliStrings := pauliStrings + [current];
      }
      assert BasisPrefix(n, Pow4(n)) == PauliBasis(n);
      generations := generations + 1;
      RepeatElements(PauliBasis(n), generations);
    }

    /** The inner loop of `generate_pauli_strings`: starting from the
        generator of digit 0 of `i`, puts the generator of each further
        base-4 digit on the left, nQubits factors in all. */
    method TensorOfDigits(i: nat) returns (current: Matrix)
      requires nQubits >= 1 && pauliMatrices == Generators
      ensures current == TensorPrefix(i, nQubits)
    {
      var tempIndex := i;
      current := pauliMatrices[tempIndex % 4];
      tempIndex := tempIndex / 4;
      for j := 1 to nQubits
        invariant current == TensorPrefix(i, j)
        invariant tempIndex == Shift(i, j)
      {
        var next := pauliMatrices[tempIndex % 4];
        current := Kron(next, current);
        tempIndex := tempIndex / 4;
      }
    }

    /** Replaces the coefficients by `trace(P_k * A) / 2^n` for every stored
        string `P_k`, in the same order. */
    method GenerateCoefs()
      requires Valid()
      modifies this
      ensures Valid()
      ensures |coefs| == |pauliStrings|
      ensures forall k :: 0 <= k < |coefs| ==>
        coefs[k] == Coefficient(pauliStrings[k], a, nQubits)
      ensures a == old(a) && nQubits == old(nQubits) && nPauliStrings == old(nPauliStrings)
      ensures pauliMatrices == old(pauliMatrices) && pauliStrings == old(pauliStrings)
      ensures generations == old(generations)
    {
      coefs := [];
      for k := 0 to |pauliStrings|
        invariant |coefs| == k <= |pauliStrings|
        invariant a == old(a) && nQubits == old(nQubits) && nPauliStrings == old(nPauliStrings)
        invariant pauliMatrices == old(pauliMatrices) && pauliStrings == old(pauliStrings)
        invariant generations == old(generations)
        invariant forall l :: 0 <= l < k ==> coefs[l] == Coefficient(pauliStrings[l], a, nQubits)
      {
        var matrix := MatMul(pauliStrings[k], a);
        var multiplier := 1.0 / (Pow2(nQubits) as real);
        coefs := coefs + [Scale(multiplier, Trace(matrix))];
      }
    }

    method GetPauliStrings() returns (s: seq<Matrix>)
      ensures s == pauliStrings
    {
      s := pauliStrings;
    }

    method GetCoefs() returns (c: seq<Complex>)
      ensures c == coefs
    {
      c := coefs;
    }
  }

  /** `c` copies of `s`, one after another. */
  function Repeat<T>(s: seq<T>, c: nat): (r: seq<T>)
    ensures |r| == |s| * c
  {
    if c == 0 then [] else Repeat(s, c - 1) + s
  }

  /** Every element of a repetition is an element of what is repeated. */
  lemma {:induction false} RepeatElements<T>(s: seq<T>, c: nat)
    ensures forall x :: x in Repeat(s, c) ==> x in s
  {
    if c > 0 {
      RepeatElements(s, c - 1);
    }
  }
}
