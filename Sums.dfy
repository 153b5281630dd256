/** Finite sums of complex numbers, Σ_{i < n} f(i), and the algebra of
    exchanging, splitting and factoring them that the Pauli-basis proofs
    need. */
module Sums {
  import opened ComplexNumbers

  /** Σ_{i < n} f(i), accumulated from the left as a loop would. */
  function Sum(n: nat, f: nat -> Complex): Complex {
    if n == 0 then Zero else Add(Sum(n - 1, f), f(n - 1))
  }

  /** Sums of functions that agree below `n` are equal. */
  lemma {:induction false} SumExt(n: nat, f: nat -> Complex, g: nat -> Complex)
    requires forall i :: 0 <= i < n ==> f(i) == g(i)
    ensures Sum(n, f) == Sum(n, g)
  {
    if n > 0 {
      SumExt(n - 1, f, g);
    }
  }

  lemma {:induction false} SumOfZeros(n: nat, f: nat -> Complex)
    requires forall i :: 0 <= i < n ==> f(i) == Zero
    ensures Sum(n, f) == Zero
  {
    if n > 0 {
      SumOfZeros(n - 1, f);
    }
  }

  /** A sum whose terms vanish except at `c` is its term at `c`. */
  lemma {:induction false} SumOfSingleTerm(n: nat, f: nat -> Complex, c: nat)
    requires c < n
    requires forall i :: 0 <= i < n && i != c ==> f(i) == Zero
    ensures Sum(n, f) == f(c)
  {
    if n - 1 == c {
      SumOfZeros(n - 1, f);
    } else {
      SumOfSingleTerm(n - 1, f, c);
    }
  }

  /** Multiplying every term by `x` multiplies the sum by `x`. */
  lemma {:induction false} SumMulLeft(n: nat, x: Complex, f: nat -> Complex, g: nat -> Complex)
    requires forall i :: 0 <= i < n ==> g(i) == Mul(x, f(i))
    ensures Sum(n, g) == Mul(x, Sum(n, f))
  {
    if n > 0 {
      SumMulLeft(n - 1, x, f, g);
      MulAddDistrib(x, Sum(n - 1, f), f(n - 1));
    }
  }

  /** Scaling every term by a real `k` scales the sum by `k`. */
  lemma {:induction false} SumScale(n: nat, k: real, f: nat -> Complex, g: nat -> Complex)
    requires forall i :: 0 <= i < n ==> g(i) == Scale(k, f(i))
    ensures Sum(n, g) == Scale(k, Sum(n, f))
  {
    if n > 0 {
      SumScale(n - 1, k, f, g);
      ScaleAddDistrib(k, Sum(n - 1, f), f(n - 1));
    }
  }

  /** Row i of a two-index family: j ↦ f(i, j). */
  function Row(f: (nat, nat) -> Complex, i: nat): nat -> Complex {
    (j: nat) => f(i, j)
  }

  /** Column j of a two-index family: i ↦ f(i, j). */
  function Column(f: (nat, nat) -> Complex, j: nat): nat -> Complex {
    (i: nat) => f(i, j)
  }

  /** i ↦ Σ_{j < m} f(i, j). */
  function RowSums(f: (nat, nat) -> Complex, m: nat): nat -> Complex {
    (i: nat) => Sum(m, Row(f, i))
  }

  /** j ↦ Σ_{i < n} f(i, j). */
  function ColumnSums(f: (nat, nat) -> Complex, n: nat): nat -> Complex {
    (j: nat) => Sum(n, Column(f, j))
  }

  /** The order of a double sum can be exchanged. */
  lemma {:induction false} SumSwap(n: nat, m: nat, f: (nat, nat) -> Complex)
    ensures Sum(n, RowSums(f, m)) == Sum(m, ColumnSums(f, n))
  {
    if n > 0 {
      SumSwap(n - 1, m, f);
      forall j | 0 <= j < m
        ensures ColumnSums(f, n)(j) == Add(ColumnSums(f, n - 1)(j), Row(f, n - 1)(j))
      {
      }
      SumOfAdds(m, ColumnSums(f, n - 1), Row(f, n - 1), ColumnSums(f, n));
    } else {
      SumOfZeros(m, ColumnSums(f, n));
    }
  }

  /** Multiplying every term by `x` on the right multiplies the sum by `x`. */
  lemma {:induction false} SumMulRight(n: nat, x: Complex, f: nat -> Complex, g: nat -> Complex)
    requires forall i :: 0 <= i < n ==> g(i) == Mul(f(i), x)
    ensures Sum(n, g) == Mul(Sum(n, f), x)
  {
    if n > 0 {
      SumMulRight(n - 1, x, f, g);
      MulAddDistrib(x, Sum(n - 1, f), f(n - 1));
    }
  }

  /** The sum of termwise sums is the sum of the two sums. */
  lemma {:induction false} SumOfAdds(n: nat, f: nat -> Complex, g: nat -> Complex, h: nat -> Complex)
    requires forall i :: 0 <= i < n ==> h(i) == Add(f(i), g(i))
    ensures Sum(n, h) == Add(Sum(n, f), Sum(n, g))
  {
    if n > 0 {
      SumOfAdds(n - 1, f, g, h);
    }
  }

  /** Block h of f: l ↦ f(h * q + l). */
  function Block(f: nat -> Complex, q: nat, h: nat): nat -> Complex {
    (l: nat) => f(h * q + l)
  }

  /** The block sums of f: h ↦ Σ_{l < q} f(h * q + l). */
  function BlockSums(f: nat -> Complex, q: nat): nat -> Complex {
    (h: nat) => Sum(q, Block(f, q, h))
  }

  /** A sum over m * q indices, taken as m blocks of q consecutive ones. */
  lemma {:induction false} SumBlocks(m: nat, q: nat, f: nat -> Complex)
    ensures Sum(m * q, f) == Sum(m, BlockSums(f, q))
  {
    if m > 0 {
      SumBlocks(m - 1, q, f);
      var a := (m - 1) * q;
      assert m * q == a + q;
      SumShifted(a, q, f);
      assert Block(f, q, m - 1) == Shifted(f, a);
    }
  }

  /** f shifted by a: l ↦ f(a + l). */
  function Shifted(f: nat -> Complex, a: nat): nat -> Complex {
    (l: nat) => f(a + l)
  }

  /** Σ_{i < a + b} f(i) = Σ_{i < a} f(i) + Σ_{l < b} f(a + l). */
  lemma {:induction false} SumShifted(a: nat, b: nat, f: nat -> Complex)
    ensures Sum(a + b, f) == Add(Sum(a, f), Sum(b, Shifted(f, a)))
  {
    if b > 0 {
      SumShifted(a, b - 1, f);
    }
  }
}
