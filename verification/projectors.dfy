/** Projective single-qubit measurements: the X, Y and Z basis projectors and the
    projector onto the basis |±>_φ = (|0> ± e^{iφ}|1>)/√2, each as the short sequence of
    circuit operations it decomposes into. */
module Projectors {
  import opened Results
  import opened Circuits

  /** The value of `np.pi`; the proofs use only that it is nonzero. */
  const Pi: real := 3.141592653589793

  const DefaultXLabel: string := "X"
  const DefaultYLabel: string := "Y"
  const DefaultZLabel: string := "Z"
  const DefaultBPhiLabel: string := "B_phi"
  const DefaultCollapseQubitState: bool := false

  datatype Projector =
    | ProjectorX(measurementLabel: string)
    | ProjectorY(measurementLabel: string)
    | ProjectorZ(measurementLabel: string)
    | ProjectorBPhi(phi: real, measurementLabel: string, collapseQubitState: bool)

  /** Names of the post-measurement states listed by a projector's `basis` property
      (the state vectors themselves are floating-point data and are not modelled). */
  datatype Ket = Plus | Minus | PlusY | MinusY | Zero | One | PlusPhi(phi: real) | MinusPhi(phi: real)

  /** The keyword-argument constructors: an absent argument takes the class default. */
  function NewProjectorX(key: Option<string>): (p: Projector)
    ensures p.ProjectorX? && p.measurementLabel == key.GetOr(DefaultXLabel)
  {
    ProjectorX(key.GetOr(DefaultXLabel))
  }

  function NewProjectorY(key: Option<string>): (p: Projector)
    ensures p.ProjectorY? && p.measurementLabel == key.GetOr(DefaultYLabel)
  {
    ProjectorY(key.GetOr(DefaultYLabel))
  }

  /** `Projector_Y(...)` as written: its constructor calls `super(Projector_X, self)` on
      an object that is not a `Projector_X`, which Python rejects with a TypeError, so no
      Y projector is ever built. */
  function NewProjectorYAsWritten(key: Option<string>): (r: Result<Projector>)
    ensures r == Err(TypeError)
  {
    Err(TypeError)
  }

  /** As written, constructing a Y projector fails whatever label is given, while the
      intended constructor builds one with that label. (The `super` calls of the X, Z
      and B_phi constructors name their own class and have no effect.) */
  lemma ProjectorYConstructionFails(key: Option<string>)
    ensures NewProjectorYAsWritten(key).Err?
    ensures NewProjectorYAsWritten(key) != Ok(NewProjectorY(key))
    ensures NewProjectorY(key).measurementLabel == key.GetOr(DefaultYLabel)
  {
  }

  function NewProjectorZ(key: Option<string>): (p: Projector)
    ensures p.ProjectorZ? && p.measurementLabel == key.GetOr(DefaultZLabel)
  {
    ProjectorZ(key.GetOr(DefaultZLabel))
  }

  function NewProjectorBPhi(phi: real, key: Option<string>, collapse: Option<bool>): (p: Projector)
    ensures p.ProjectorBPhi? && p.phi == phi
    ensures p.measurementLabel == key.GetOr(DefaultBPhiLabel)
    ensures p.collapseQubitState == collapse.GetOr(DefaultCollapseQubitState)
  {
    ProjectorBPhi(phi, key.GetOr(DefaultBPhiLabel), collapse.GetOr(DefaultCollapseQubitState))
  }

  /** `_num_qubits_`: every projector is a one-qubit gate, so its decomposition fails on
      an empty qubit list and succeeds on a list of that many qubits. */
  function NumQubits(p: Projector): (n: nat)
    ensures n > 0 && Decompose(p, []).Err?
    ensures forall qubits: seq<Qubit> :: |qubits| == n ==> Decompose(p, qubits).Ok?
  {
    1
  }

  /** The basis rotation HP(-φ/π) that maps |+>_φ to |0> and |->_φ to |1>. */
  function Rotation(phi: real, q: Qubit): seq<Op> {
    [ZPow(-phi / Pi, q), H(q)]
  }

  /** The operations a projector decomposes into when applied to `qubits`; only the
      first qubit is used, and an empty qubit list fails on `qubit[0]`. */
  function Decompose(p: Projector, qubits: seq<Qubit>): (r: Result<seq<Op>>)
    ensures r.Err? <==> |qubits| == 0
    ensures r.Err? ==> r.error == IndexError
  {
    if |qubits| == 0 then Err(IndexError)
    else
      var q := qubits[0];
      match p
      case ProjectorX(key) => Ok([MeasurePauli(PauliX, q, key)])
      case ProjectorY(key) => Ok([MeasurePauli(PauliY, q, key)])
      case ProjectorZ(key) => Ok([Measure(q, key)])
      case ProjectorBPhi(phi, key, collapse) =>
        var measured := [ZPow(-phi / Pi, q), H(q), Measure(q, key)];
        if collapse then Ok(measured + [H(q), ZPow(phi / Pi, q)]) else Ok(measured)
  }

  /** The outcome-indexed kets of the `basis` property: outcome 0 names the state the
      measurement projects onto, outcome 1 its orthogonal partner. */
  function Basis(p: Projector): (b: map<int, Ket>)
    ensures b.Keys == {0, 1} && b[0] != b[1]
    ensures p.ProjectorBPhi? ==> b[0] == PlusPhi(p.phi) && b[1] == MinusPhi(p.phi)
  {
    match p
    case ProjectorX(_) => map[0 := Plus, 1 := Minus]
    case ProjectorY(_) => map[0 := PlusY, 1 := MinusY]
    case ProjectorZ(_) => map[0 := Zero, 1 := One]
    case ProjectorBPhi(phi, _, _) => map[0 := PlusPhi(phi), 1 := MinusPhi(phi)]
  }

  /** Every decomposition holds exactly one measurement, keyed by the projector's label
      (`MeasurementKeysInOrder` relates the keys to the measurements' positions). */
  lemma DecomposeMeasuresOnce(p: Projector, qubits: seq<Qubit>)
    requires |qubits| > 0
    ensures Decompose(p, qubits).Ok?
    ensures MeasurementKeys(Decompose(p, qubits).value) == [p.measurementLabel]
    ensures |MeasurementPositions(Decompose(p, qubits).value, 0)| == 1
  {
    var ops := Decompose(p, qubits).value;
    MeasurementKeysCount(ops, 0);
    var q := qubits[0];
    var key := p.measurementLabel;
    if p.ProjectorBPhi? {
      var rotated := [ZPow(-p.phi / Pi, q), H(q), Measure(q, key)];
      var tail := if p.collapseQubitState then [H(q), ZPow(p.phi / Pi, q)] else [];
      assert ops == rotated + tail;
      MeasurementKeysAppend(rotated, tail);
      assert MeasurementKeys(rotated) == [key] by {
        assert rotated[1..][1..] == [Measure(q, key)];
        assert rotated[1..][1..][1..] == [];
        assert MeasurementKeys(rotated[1..][1..]) == [key];
      }
      assert MeasurementKeys(tail) == [] by {
        if p.collapseQubitState {
          assert tail[1..][1..] == [];
        }
      }
    } else {
      assert ops[1..] == [];
    }
  }

  /** Every operation of a decomposition acts on the first given qubit only, so the
      decomposition touches exactly `NumQubits` qubits. */
  lemma DecomposeActsOnFirstQubit(p: Projector, qubits: seq<Qubit>)
    requires |qubits| > 0
    ensures forall op :: op in Decompose(p, qubits).value ==> op.Qubits() == {qubits[0]}
    ensures (set op, x | op in Decompose(p, qubits).value && x in op.Qubits() :: x) == {qubits[0]}
    ensures |set op, x | op in Decompose(p, qubits).value && x in op.Qubits() :: x| == NumQubits(p)
  {
    var ops := Decompose(p, qubits).value;
    var q := qubits[0];
    assert forall op :: op in ops ==> op.Qubits() == {q};
    assert (set op, x | op in ops && x in op.Qubits() :: x) == {q} by {
      assert ops[0] in ops && q in ops[0].Qubits();
    }
  }

  /** Without state restoration, the B_phi projector is the rotation HP(-φ/π) followed by
      a computational-basis measurement under its key. */
  lemma BPhiDecomposition(phi: real, key: string, q: Qubit)
    ensures Decompose(ProjectorBPhi(phi, key, false), [q])
         == Ok([ZPow(-phi / Pi, q), H(q), Measure(q, key)])
  {
  }

  /** With state restoration, the measurement is followed by the inverse of the rotation
      HP(-φ/π), namely P(φ/π)H; its final exponent is the negation of the first. */
  lemma BPhiCollapseDecomposition(phi: real, key: string, q: Qubit)
    ensures var ops := Decompose(ProjectorBPhi(phi, key, true), [q]).value;
            && ops == Rotation(phi, q) + [Measure(q, key)] + Adjoint(Rotation(phi, q))
            && ops[4].exponent == -ops[0].exponent
  {
    assert Adjoint(Rotation(phi, q)) == [H(q), ZPow(phi / Pi, q)];
  }

  /** X, Y and Z projectors are a single measurement: a Pauli-string measurement of X
      or Y, or a plain computational-basis measurement for Z. */
  lemma PauliProjectorDecompositions(key: string, q: Qubit)
    ensures Decompose(ProjectorX(key), [q]) == Ok([MeasurePauli(PauliX, q, key)])
    ensures Decompose(ProjectorY(key), [q]) == Ok([MeasurePauli(PauliY, q, key)])
    ensures Decompose(ProjectorZ(key), [q]) == Ok([Measure(q, key)])
  {
  }

  /** Every `basis` property has exactly the outcomes 0 and 1, naming two different kets. */
  lemma BasisOutcomes(p: Projector)
    ensures Basis(p).Keys == {0, 1}
    ensures Basis(p)[0] != Basis(p)[1]
  {
  }

  /** The constructors' defaults: labels 'X', 'Y', 'Z', 'B_phi', no state restoration. */
  lemma ConstructorDefaults(phi: real)
    ensures NewProjectorX(None) == ProjectorX("X")
    ensures NewProjectorY(None) == ProjectorY("Y")
    ensures NewProjectorZ(None) == ProjectorZ("Z")
    ensures NewProjectorBPhi(phi, None, None) == ProjectorBPhi(phi, "B_phi", false)
  {
  }
}
