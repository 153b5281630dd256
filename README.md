# QSVT framework core, modelled in Dafny

This project models three pieces of a C++ framework for quantum singular
value transformation (QSVT):

- **Pauli-string decomposition (`Lcu`).** The decomposer takes a 2^n by 2^n
  matrix A and fixes the generators I, X, Y, Z. It enumerates the 4^n Pauli
  strings; string i is the Kronecker product of the generators named by
  the base-4 digits of i, with the least significant digit as the
  right-most factor. It then computes one coefficient trace(P_k A) / 2^n
  per stored string.
- **QSP phase applier (`Qsp`).** Given the phase list θ0 … θm and a
  block-encoded unitary Ua, `apply` issues RZ(-2θ0). Then, for each later
  angle, it issues Mtrx(Ua) followed by RZ(-2θk). Every call targets
  qubit 0.
- **Block encoding (`BlockEncoding`).** A scalar s is embedded as the
  (0,0) entry of the 2 by 2 matrix [[s, q], [q, -s]], where
  q = sqrt(1 - s^2). The matrix constructor only checks the norm bound.
  Four methods hand the stored matrix to the simulator: plain, adjoint,
  controlled and anti-controlled.

Complex numbers are exact pairs of Dafny `real`s (`ComplexNumbers`). A
matrix is a `seq<seq<Complex>>` (`Matrices`), with the Kronecker product,
matrix product, trace and adjoint as pure functions. Finite sums are in
`Sums`. The quantum simulator is reduced to the ordered record of the gate
calls it receives (`Simulator`).

The decomposer and the applier are classes whose methods update their
fields in loops. Each method is proved against specification functions:
`PauliBasis`, `TensorPrefix`, `Coefficient` and `Schedule`.

`Decomposition` and `Completeness` prove what the decomposer computes: an
exact decomposition of A. The central results are:

- `KernelIsDelta`: Σ_k P_k[s][t] P_k[r][c] = 2^n when s = c and t = r, and
  0 otherwise.
- `ExpansionIsExact`: Σ_k (trace(P_k A) / 2^n) P_k = A, entry by entry.
- `DecomposerIsExact`: the strings and coefficients a decomposer holds after
  `generate_pauli_strings` and `generate_coefs` add back up to its target.

## Model

| member | source | states |
|---|---|---|
| Lcu.Lcu.constructor | src/Lcu.cpp:7-38 | stores A; the generator list is exactly [I, X, Y, Z] in push order; 2^nQubits equals the number of columns; nPauliStrings = 4^nQubits; no strings and no coefficients yet |
| Lcu.Log2OfPow2 | src/Lcu.cpp:33-35 | the exact logarithm that stands in for round(log2(cols)) returns n on a 2^n-column input |
| Lcu.Lcu.GeneratePauliStrings | src/Lcu.cpp:40-67 | appends the whole n-qubit basis, string i at position old length + i for i = 0 … 4^n - 1; strings already stored are kept; nothing else changes; the stored strings stay whole copies of the basis |
| Lcu.Lcu.TensorOfDigits | src/Lcu.cpp:52-63 | the inner loop returns G[d(n-1)] ⊗ … ⊗ G[d(1)] ⊗ G[d(0)], where d(j) = (i / 4^j) % 4 |
| Lcu.PauliString | src/Lcu.cpp:46-63 | every string is 2^n by 2^n |
| Lcu.ZeroQubitBasis | src/Lcu.cpp:46-50 | with no qubits the basis is the single 1 by 1 identity |
| Lcu.PauliBasis | src/Lcu.cpp:42 | the basis has exactly 4^n strings |
| Lcu.PauliStringEntries | src/Lcu.cpp:52-63 | every entry of every string is 0, 1, -1, i or -i |
| Matrices.KronEntry | src/Lcu.cpp:60 | entry (i, j) of a ⊗ b is a[i / d][j / d] · b[i % d][j % d] for b of size d, so b is the fast-varying factor |
| Lcu.Lcu.GenerateCoefs | src/Lcu.cpp:69-81 | discards old coefficients; leaves one per stored string, in the same order, coefs[k] = trace(pauliStrings[k] · A) / 2^n; nothing else changes |
| Lcu.Lcu.GetPauliStrings | src/Lcu.cpp:83-86 | returns the stored strings |
| Lcu.Lcu.GetCoefs | src/Lcu.cpp:88-91 | returns the stored coefficients |
| Decomposition.TensorPrefixOfDigits | src/Lcu.cpp:52-63 | a string built from j factors depends only on the j low base-4 digits of its index |
| Decomposition.StackedDigits | src/Lcu.cpp:52-63 | index h · 4^n + l (h < 4, l < 4^n) has top digit h and the n low digits of l |
| Decomposition.StringEntryOfBlock | src/Lcu.cpp:52-63 | on n + 1 qubits, string h · 4^n + l is G_h ⊗ P_l entry by entry |
| Decomposition.OneQubitKernel | src/Lcu.cpp:11-30 | for the four generators, Σ_d G_d[s][t] G_d[r][c] = 2 if s = c and t = r, else 0 |
| Decomposition.KernelStep | src/Lcu.cpp:52-63 | the (n+1)-qubit sum Σ_k P_k[s][t] P_k[r][c] factors into the n-qubit sum at the low parts of the indices times the one-qubit sum at the high digits |
| Decomposition.KernelIsDelta | src/Lcu.cpp:40-67 | for indices below 2^n, Σ_k P_k[s][t] P_k[r][c] over the 4^n strings is 2^n when s = c and t = r, and 0 otherwise |
| Completeness.TermExpansion | src/Lcu.cpp:76-79 | c_p · p[r][c] = (1 / 2^n) Σ_y Σ_x a[x][y] · p[y][x] · p[r][c] for any 2^n by 2^n p |
| Completeness.ExpansionIsExact | src/Lcu.cpp:69-81 | Σ_k (trace(P_k A) / 2^n) · P_k[r][c] = A[r][c] for every entry of every 2^n by 2^n A |
| Completeness.ReconstructIsExact | src/Lcu.cpp:40-81 | one basis and the coefficients computed for it recombine to A |
| Completeness.DecomposerIsExact | src/Lcu.cpp:40-81 | a decomposer that generated its strings once and then its coefficients holds an exact decomposition of its target |
| Completeness.CoefficientAgainstX | src/Lcu.cpp:76-79 | the coefficient of a 2 by 2 p in X is the mean of p's off-diagonal entries |
| Completeness.CoefficientsOfX | src/Lcu.cpp:69-81 | for n = 1 and A = X the coefficients are 0, 1, 0, 0 on I, X, Y, Z |
| Qsp.Qsp.constructor | Qsp/Qsp.cpp:3-8 | stores the register, Ua and the angles unchanged |
| Qsp.Qsp.Apply | Qsp/Qsp.cpp:10-21 | appends exactly QspSequence(angles, Ua) to the register's calls and leaves the applier unchanged; needs at least one angle, because angles[0] is read unconditionally |
| Qsp.ScheduleLayout | Qsp/Qsp.cpp:12-19 | call 0 is RZ(-2θ0, 0); for every later angle θj, calls 2j-1 and 2j are Mtrx(Ua, 0) then RZ(-2θj, 0); 2k-1 calls in all |
| Qsp.ScheduleCounts | Qsp/Qsp.cpp:12-19 | k angles give k rotations and k - 1 matrix applications, and no other calls |
| Qsp.ScheduleTargets | Qsp/Qsp.cpp:12-18 | every issued call targets qubit 0 |
| Qsp.ScheduleAngles | Qsp/Qsp.cpp:12-18 | the rotation angles are -2θ0, …, -2θ(k-1), in phase-list order |
| Qsp.SingleAngle | Qsp/Qsp.cpp:12-19 | a single angle yields one rotation and nothing else |
| Qsp.ApplyTwice | Qsp/Qsp.cpp:10-21 | two calls of apply append the same sequence twice |
| BlockEncoding.EncodeScalarAsWritten | BlockEncoding/BlockEncoding.cpp:8-30 | the scalar constructor as written fails exactly when scalar > 1, and otherwise yields [[s, q], [q, -s]] |
| BlockEncoding.AsWrittenAcceptsNonUnitary | BlockEncoding/BlockEncoding.cpp:10-27 | scalar = -2 passes the check, and the matrix then built does not square to the identity, whatever q is |
| BlockEncoding.NoSqrtOutsideRange | BlockEncoding/BlockEncoding.cpp:17 | for scalar outside [-1, 1], 1 - scalar^2 has no real square root |
| BlockEncoding.EncodeScalar | BlockEncoding/BlockEncoding.cpp:8-30 | with the bound -1 <= s <= 1 the constructor fails exactly outside [-1, 1]; on success the matrix is 2 by 2, its (0,0) entry is s, it is unitary and it is its own adjoint |
| BlockEncoding.EncodeScalarAgreesInRange | BlockEncoding/BlockEncoding.cpp:10-27 | inside [-1, 1] the corrected and as-written constructors give the same result |
| BlockEncoding.ScalarUnitaryEntries | BlockEncoding/BlockEncoding.cpp:21-27 | (0,0) = s, both off-diagonals equal q, and (1,1) = -(0,0) |
| BlockEncoding.ScalarUnitaryIsUnitary | BlockEncoding/BlockEncoding.cpp:15-27 | with q^2 = 1 - s^2 and q >= 0, the matrix equals its adjoint, squares to I and is unitary |
| BlockEncoding.BlockEncoding.Scalar | BlockEncoding/BlockEncoding.cpp:15-29 | filling the 2 by 2 matrix entry by entry gives [[s, q], [q, -s]] and stores the register |
| BlockEncoding.BlockEncoding.FromScalar | BlockEncoding/BlockEncoding.cpp:8-30 | rejects scalars outside [-1, 1] with the scalar error; otherwise a fresh encoding holds EncodeScalar's matrix and the register |
| BlockEncoding.EncodeMatrix | BlockEncoding/BlockEncoding.cpp:32-44 | the matrix constructor fails exactly when the leading singular value exceeds 1, and otherwise stores nothing (the empty matrix) |
| BlockEncoding.BlockEncoding.FromMatrix | BlockEncoding/BlockEncoding.cpp:32-44 | fails with the norm error exactly when the leading singular value exceeds 1; otherwise a fresh encoding with no register and an empty matrix |
| BlockEncoding.BlockEncoding.Apply | BlockEncoding/BlockEncoding.cpp:47-50 | appends Mtrx(matrix, target) to the register's calls; the encoding is unchanged |
| BlockEncoding.BlockEncoding.ApplyAdjoint | BlockEncoding/BlockEncoding.cpp:52-55 | appends Mtrx(adjoint of matrix, target); the encoding is unchanged |
| BlockEncoding.BlockEncoding.ControlledApply | BlockEncoding/BlockEncoding.cpp:57-60 | appends MCMtrx(controls, matrix, target); the encoding is unchanged |
| BlockEncoding.BlockEncoding.AntiControlledApply | BlockEncoding/BlockEncoding.cpp:62-65 | appends MACMtrx(controls, matrix, target); the encoding is unchanged |
| BlockEncoding.BlockEncoding.GetEncodedMatrix | BlockEncoding/BlockEncoding.cpp:67-70 | returns the stored matrix |
| BlockEncoding.AdjointApplyIssuesSameGate | BlockEncoding/BlockEncoding.cpp:47-55 | for a scalar encoding, apply_adjoint issues the very gate apply issues |

## Left out

- Lcu.Lcu.constructor: requires a square input whose size is a power of two. The source computes `round(log2(cols))` and checks nothing. The exact `Log2` agrees with it on powers of two. On other sizes the source builds strings of a different size from A, which the model does not follow. No dimension error is raised either: the code has none.
- Floating point is not modelled. All arithmetic is exact, over `real`, so the round-trip `ExpansionIsExact` holds exactly rather than to rounding error.
- Integer widths are not modelled. `n_pauli_strings = pow(4, n)` stored in an `int` overflows once n >= 16, and qubit indices are `bitLenInt` and `uint8_t`. Here they are unbounded naturals.
- Lcu.Lcu.TensorOfDigits: the inner loop of `generate_pauli_strings` is its own method. The outer loop calls it where the source runs the loop inline. The steps, reads and results are the same.
- `std::sqrt` is taken as a parameter q with q >= 0 and q^2 = 1 - s^2. For |s| > 1 no real q exists (`NoSqrtOutsideRange`), so the NaN the source computes there is not modelled.
- The SVD in the matrix constructor is a foreign call. The leading singular value is a parameter. The identity built at BlockEncoding/BlockEncoding.cpp:42 is never used, and neither the matrix nor the register is stored. The model keeps exactly that: an empty matrix and no register.
- The simulator's amplitudes, probabilities and measurements are not modelled. A register is the ordered record of the calls it receives: RZ, Mtrx, MCMtrx, MACMtrx.
- A gate carries the matrix itself, not the raw buffer `data()` hands over. The buffer's storage order is therefore not modelled. The scalar encoding is symmetric, so the order does not matter for it.
- BlockEncoding.BlockEncoding.Apply, ApplyAdjoint, ControlledApply and AntiControlledApply require a register. The source dereferences the register pointer unconditionally.
- Exceptions (`BlockEncodingException`) become `Err` results that carry which of the two messages was thrown.
- The KAK decomposition, the program entry point, the QSVT wrapper and the simulator test are not part of this model.

## Findings

| source | as written | input that shows it | evidently intended | confidence | as-written member | corrected member |
|---|---|---|---|---|---|---|
| BlockEncoding/BlockEncoding.cpp:10 | only `scalar > 1` is rejected | scalar = -2 is accepted. 1 - scalar^2 = -3 has no real square root, and for every real q, [[-2, q], [q, 2]] squared has (0,0) entry 4 + q^2 ≠ 1, so it is not unitary | reject every scalar outside [-1, 1], the bound the header states for the scalar | high; not executed | BlockEncoding.AsWrittenAcceptsNonUnitary | BlockEncoding.EncodeScalar |
