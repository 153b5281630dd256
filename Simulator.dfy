/** The quantum-state simulator (Qrack's `QInterface`) is not part of this
    model: it is reduced to the ordered record of the gate calls issued to
    it. The amplitudes it would evolve are left out. */
module Simulator {
  import opened Matrices

  /** One call issued to the simulator: a Z rotation, a single-qubit matrix,
      or its controlled and anti-controlled forms. */
  datatype Gate =
    | RZ(angle: real, target: nat)
    | Mtrx(m: Matrix, target: nat)
    | MCMtrx(controls: seq<nat>, m: Matrix, target: nat)
    | MACMtrx(controls: seq<nat>, m: Matrix, target: nat)

  /** A handle to the simulator (`QInterfacePtr`); `issued` is the history
      of gate calls in the order they were made. */
  class QuantumRegister {
    ghost var issued: seq<Gate>

    constructor ()
      ensures issued == []
    {
      issued := [];
    }

    method RZ(angle: real, target: nat)
      modifies this
      ensures issued == old(issued) + [Gate.RZ(angle, target)]
    {
      issued := issued + [Gate.RZ(angle, target)];
    }

    method Mtrx(m: Matrix, target: nat)
      modifies this
      ensures issued == old(issued) + [Gate.Mtrx(m, target)]
    {
      issued := issued + [Gate.Mtrx(m, target)];
    }

    method MCMtrx(controls: seq<nat>, m: Matrix, target: nat)
      modifies this
      ensures issued == old(issued) + [Gate.MCMtrx(controls, m, target)]
    {
      issued := issued + [Gate.MCMtrx(controls, m, target)];
    }

    method MACMtrx(controls: seq<nat>, m: Matrix, target: nat)
      modifies this
      ensures issued == old(issued) + [Gate.MACMtrx(controls, m, target)]
    {
      issued := issued + [Gate.MACMtrx(controls, m, target)];
    }
  }
}
