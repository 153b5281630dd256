/** The quantum-signal-processing phase-sequence applier (`Qsp` in
    Qsp/Qsp.cpp, include/Qsp.hpp): Z rotations by the phase angles,
    interleaved with the block-encoded unitary, all on qubit 0. */
module Qsp {
  import opened Matrices
  import opened Simulator

  /** The calls `apply` has issued once it has consumed the first `k`
      angles: RZ(-2θ0), then Mtrx(Ua) and RZ(-2θj) for j = 1 .. k-1. */
  function Schedule(angles: seq<real>, ua: Matrix, k: nat): (s: seq<Gate>)
    requires 1 <= k <= |angles|
    decreases k
  {
    if k == 1 then [Gate.RZ(-2.0 * angles[0], 0)]
    else Schedule(angles, ua, k - 1) + [Gate.Mtrx(ua, 0), Gate.RZ(-2.0 * angles[k - 1], 0)]
  }

  /** Everything one call of `apply` issues. */
  function QspSequence(angles: seq<real>, ua: Matrix): seq<Gate>
    requires |angles| >= 1
  {
    Schedule(angles, ua, |angles|)
  }

  /** The number of Z rotations in a sequence of calls. */
  function CountRZ(s: seq<Gate>): nat {
    if s == [] then 0 else CountRZ(s[..|s| - 1]) + (if s[|s| - 1].RZ? then 1 else 0)
  }

  /** The number of single-qubit matrix applications in a sequence of calls. */
  function CountMtrx(s: seq<Gate>): nat {
    if s == [] then 0 else CountMtrx(s[..|s| - 1]) + (if s[|s| - 1].Mtrx? then 1 else 0)
  }

  /** The angles of the Z rotations, in issue order. */
  function RotationAngles(s: seq<Gate>): seq<real> {
    if s == [] then []
    else RotationAngles(s[..|s| - 1]) + (if s[|s| - 1].RZ? then [s[|s| - 1].angle] else [])
  }

  lemma CountsOfAppend(s: seq<Gate>, t: seq<Gate>)
    ensures CountRZ(s + t) == CountRZ(s) + CountRZ(t)
    ensures CountMtrx(s + t) == CountMtrx(s) + CountMtrx(t)
    ensures RotationAngles(s + t) == RotationAngles(s) + RotationAngles(t)
    decreases |t|
  {
    if t == [] {
      assert s + t == s;
    } else {
      assert (s + t)[..|s + t| - 1] == s + t[..|t| - 1];
      CountsOfAppend(s, t[..|t| - 1]);
    }
  }

  lemma CountsOfSingleton(g: Gate)
    ensures CountRZ([g]) == (if g.RZ? then 1 else 0)
    ensures CountMtrx([g]) == (if g.Mtrx? then 1 else 0)
    ensures RotationAngles([g]) == (if g.RZ? then [g.angle] else [])
  {
    assert [g][..0] == [];
  }

  /** Position by position: the first call is RZ(-2θ0), and for each later
      angle θj the calls at 2j-1 and 2j are Mtrx(Ua) then RZ(-2θj). The
      positions 0 .. 2k-2 are all covered, so this fixes the sequence. */
  lemma {:induction false} ScheduleLayout(angles: seq<real>, ua: Matrix, k: nat)
    requires 1 <= k <= |angles|
    ensures |Schedule(angles, ua, k)| == 2 * k - 1
    ensures Schedule(angles, ua, k)[0] == Gate.RZ(-2.0 * angles[0], 0)
    ensures forall j :: 1 <= j < k ==>
      Schedule(angles, ua, k)[2 * j - 1] == Gate.Mtrx(ua, 0) &&
      Schedule(angles, ua, k)[2 * j] == Gate.RZ(-2.0 * angles[j], 0)
  {
    if k > 1 {
      ScheduleLayout(angles, ua, k - 1);
    }
  }

  /** One call issues |angles| rotations and |angles| - 1 matrix
      applications, and nothing else: 2 |angles| - 1 calls in all. */
  lemma {:induction false} ScheduleCounts(angles: seq<real>, ua: Matrix, k: nat)
    requires 1 <= k <= |angles|
    ensures CountRZ(Schedule(angles, ua, k)) == k
    ensures CountMtrx(Schedule(angles, ua, k)) == k - 1
    ensures |Schedule(angles, ua, k)| == CountRZ(Schedule(angles, ua, k)) + CountMtrx(Schedule(angles, ua, k))
  {
    if k == 1 {
      CountsOfSingleton(Gate.RZ(-2.0 * angles[0], 0));
    } else {
      ScheduleCounts(angles, ua, k - 1);
      TailCounts(angles, ua, k);
    }
  }

  /** The two calls that consuming angle k - 1 appends. */
  function ScheduleTail(angles: seq<real>, ua: Matrix, k: nat): seq<Gate>
    requires 1 <= k <= |angles|
  {
    [Gate.Mtrx(ua, 0), Gate.RZ(-2.0 * angles[k - 1], 0)]
  }

  /** Counting over the last step of the schedule. */
  lemma TailCounts(angles: seq<real>, ua: Matrix, k: nat)
    requires 2 <= k <= |angles|
    ensures CountRZ(Schedule(angles, ua, k)) == CountRZ(Schedule(angles, ua, k - 1)) + 1
    ensures CountMtrx(Schedule(angles, ua, k)) == CountMtrx(Schedule(angles, ua, k - 1)) + 1
    ensures RotationAngles(Schedule(angles, ua, k))
         == RotationAngles(Schedule(angles, ua, k - 1)) + [-2.0 * angles[k - 1]]
    ensures |Schedule(angles, ua, k)| == |Schedule(angles, ua, k - 1)| + 2
  {
    var tail := ScheduleTail(angles, ua, k);
    assert Schedule(angles, ua, k) == Schedule(angles, ua, k - 1) + tail;
    CountsOfAppend(Schedule(angles, ua, k - 1), tail);
    PairCounts(ua, -2.0 * angles[k - 1]);
  }

  lemma PairCounts(ua: Matrix, theta: real)
    ensures CountRZ([Gate.Mtrx(ua, 0), Gate.RZ(theta, 0)]) == 1
    ensures CountMtrx([Gate.Mtrx(ua, 0), Gate.RZ(theta, 0)]) == 1
    ensures RotationAngles([Gate.Mtrx(ua, 0), Gate.RZ(theta, 0)]) == [theta]
  {
    var m, z := Gate.Mtrx(ua, 0), Gate.RZ(theta, 0);
    CountsOfSingleton(m);
    CountsOfSingleton(z);
    assert [m] + [z] == [m, z];
    CountsOfAppend([m], [z]);
  }

  /** Every call of `apply` acts on qubit 0. */
  lemma {:induction false} ScheduleTargets(angles: seq<real>, ua: Matrix, k: nat)
    requires 1 <= k <= |angles|
    ensures forall g :: g in Schedule(angles, ua, k) ==> g.target == 0
  {
    if k > 1 {
      ScheduleTargets(angles, ua, k - 1);
      assert Schedule(angles, ua, k) == Schedule(angles, ua, k - 1) + ScheduleTail(angles, ua, k);
    }
  }

  /** The rotation angles are -2θ, in the order of the phase list. */
  lemma {:induction false} ScheduleAngles(angles: seq<real>, ua: Matrix, k: nat)
    requires 1 <= k <= |angles|
    ensures RotationAngles(Schedule(angles, ua, k)) == seq(k, j requires 0 <= j < k => -2.0 * angles[j])
  {
    if k == 1 {
      CountsOfSingleton(Gate.RZ(-2.0 * angles[0], 0));
    } else {
      ScheduleAngles(angles, ua, k - 1);
      TailCounts(angles, ua, k);
    }
  }

  /** A single angle yields one rotation and nothing else. */
  lemma SingleAngle(theta: real, ua: Matrix)
    ensures QspSequence([theta], ua) == [Gate.RZ(-2.0 * theta, 0)]
  {
  }

  /** The applier: a simulator handle, the block-encoded unitary and the
      phase list, all fixed at construction. */
  class Qsp {
    var qReg: QuantumRegister
    var ua: Matrix
    var angles: seq<real>

    constructor (qReg: QuantumRegister, ua: Matrix, angles: seq<real>)
      ensures this.qReg == qReg && this.ua == ua && this.angles == angles
    {
      this.qReg := qReg;
      this.ua := ua;
      this.angles := angles;
    }

    /** Issues RZ(-2θ0), then Mtrx(Ua), RZ(-2θk) for every later angle;
        the applier itself is left as it was. */
    method Apply()
      requires |angles| >= 1
      modifies qReg
      ensures qReg.issued == old(qReg.issued) + QspSequence(angles, ua)
      ensures unchanged(this)
    {
      qReg.RZ(-2.0 * angles[0], 0);
      for k := 1 to |angles|
        invariant qReg.issued == old(qReg.issued) + Schedule(angles, ua, k)
      {
        qReg.Mtrx(ua, 0);
        qReg.RZ(-2.0 * angles[k], 0);
      }
    }
  }

  /** Because `apply` leaves the phase list and `Ua` alone, a second call
      issues exactly the sequence the first one did. */
  method ApplyTwice(q: Qsp)
    requires |q.angles| >= 1
    modifies q.qReg
    ensures q.qReg.issued ==
      old(q.qReg.issued) + QspSequence(q.angles, q.ua) + QspSequence(q.angles, q.ua)
  {
    q.Apply();
    q.Apply();
  }
}
