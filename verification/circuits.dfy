/** The vocabulary of the circuit library the system builds on: qubits and the
    single- and two-qubit operations the modelled code appends to circuits. Only the
    identity of each operation is modelled, not its unitary matrix. */
module Circuits {

  /** `LineQubit(x)`, `GridQubit(row, col)` and `NamedQubit(name)`. */
  datatype Qubit = LineQubit(x: int) | GridQubit(row: int, col: int) | NamedQubit(name: string)

  datatype Pauli = PauliX | PauliY | PauliZ

  datatype Op =
    | ZPow(exponent: real, target: Qubit)         // ZPowGate(exponent)(target)
    | XPow(exponent: real, target: Qubit)         // XPowGate(exponent)(target)
    | H(target: Qubit)                            // Hadamard
    | CZ(control: Qubit, target: Qubit)           // controlled phase
    | Measure(target: Qubit, key: string)         // computational-basis measurement
    | MeasurePauli(pauli: Pauli, target: Qubit, key: string) // single Pauli-string measurement
  {
    predicate IsMeasurement() {
      Measure? || MeasurePauli?
    }

    /** The qubits the operation acts on. */
    function Qubits(): set<Qubit> {
      match this
      case CZ(c, t) => {c, t}
      case _ => {target}
    }
  }

  /** The measurement keys of `ops`, in circuit order. */
  function MeasurementKeys(ops: seq<Op>): (keys: seq<string>)
    ensures |keys| <= |ops|
    ensures forall k :: k in keys ==> exists i :: 0 <= i < |ops| && ops[i].IsMeasurement() && ops[i].key == k
  {
    if |ops| == 0 then []
    else if ops[0].IsMeasurement() then [ops[0].key] + MeasurementKeys(ops[1..])
    else MeasurementKeys(ops[1..])
  }

  /** The positions of the measurements in `ops`, each offset by `base`. */
  function MeasurementPositions(ops: seq<Op>, base: nat): seq<nat> {
    if |ops| == 0 then []
    else (if ops[0].IsMeasurement() then [base] else []) + MeasurementPositions(ops[1..], base + 1)
  }

  /** Every position listed is that of a measurement in `ops`. */
  lemma {:induction false} MeasurementPositionsSound(ops: seq<Op>, base: nat)
    ensures forall j :: 0 <= j < |MeasurementPositions(ops, base)| ==>
              var p := MeasurementPositions(ops, base)[j];
              base <= p < base + |ops| && ops[p - base].IsMeasurement()
  {
    if |ops| > 0 {
      MeasurementPositionsSound(ops[1..], base + 1);
      var idx, rest := MeasurementPositions(ops, base), MeasurementPositions(ops[1..], base + 1);
      var d := if ops[0].IsMeasurement() then 1 else 0;
      forall j | d <= j < |idx|
        ensures base <= idx[j] < base + |ops| && ops[idx[j] - base].IsMeasurement()
      {
        assert idx[j] == rest[j - d];
        assert ops[1..][idx[j] - (base + 1)] == ops[idx[j] - base];
      }
    }
  }

  /** The positions are listed in increasing order. */
  lemma {:induction false} MeasurementPositionsIncreasing(ops: seq<Op>, base: nat)
    ensures forall j, k :: 0 <= j < k < |MeasurementPositions(ops, base)| ==>
              MeasurementPositions(ops, base)[j] < MeasurementPositions(ops, base)[k]
  {
    if |ops| > 0 {
      MeasurementPositionsIncreasing(ops[1..], base + 1);
      MeasurementPositionsSound(ops[1..], base + 1);
    }
  }

  /** The position of every measurement is listed. */
  lemma {:induction false} MeasurementPositionsComplete(ops: seq<Op>, base: nat)
    ensures forall i :: 0 <= i < |ops| && ops[i].IsMeasurement() ==> base + i in MeasurementPositions(ops, base)
  {
    if |ops| > 0 {
      MeasurementPositionsComplete(ops[1..], base + 1);
      var rest := MeasurementPositions(ops[1..], base + 1);
      forall i | 0 < i < |ops| && ops[i].IsMeasurement()
        ensures base + i in MeasurementPositions(ops, base)
      {
        assert ops[1..][i - 1] == ops[i];
        assert base + 1 + (i - 1) in rest;
      }
    }
  }

  /** There are as many keys as listed positions. */
  lemma {:induction false} MeasurementKeysCount(ops: seq<Op>, base: nat)
    ensures |MeasurementKeys(ops)| == |MeasurementPositions(ops, base)|
  {
    if |ops| > 0 {
      MeasurementKeysCount(ops[1..], base + 1);
    }
  }

  /** Extending a prefix by operation i appends that operation's key when it is a
      measurement and nothing otherwise; with the empty list having no keys, this
      fixes the keys and their order. */
  lemma MeasurementKeysSnoc(ops: seq<Op>, i: nat)
    requires i < |ops|
    ensures MeasurementKeys(ops[..i + 1])
         == MeasurementKeys(ops[..i]) + (if ops[i].IsMeasurement() then [ops[i].key] else [])
  {
    assert ops[..i + 1] == ops[..i] + [ops[i]];
    MeasurementKeysAppend(ops[..i], [ops[i]]);
    assert [ops[i]][1..] == [];
  }

  /** The keys of `ops` are listed in circuit order with one key per measurement: there
      are as many keys as measurements, whose positions are listed in increasing order,
      and each operation appends its own key, if any, to the keys of the operations
      before it. */
  lemma MeasurementKeysInOrder(ops: seq<Op>)
    ensures var idx := MeasurementPositions(ops, 0);
            && |MeasurementKeys(ops)| == |idx|
            && (forall j :: 0 <= j < |idx| ==> idx[j] < |ops| && ops[idx[j]].IsMeasurement())
            && (forall j, k :: 0 <= j < k < |idx| ==> idx[j] < idx[k])
            && (forall i :: 0 <= i < |ops| && ops[i].IsMeasurement() ==> i in idx)
    ensures MeasurementKeys(ops[..0]) == []
    ensures forall i :: 0 <= i < |ops| ==>
              MeasurementKeys(ops[..i + 1])
              == MeasurementKeys(ops[..i]) + (if ops[i].IsMeasurement() then [ops[i].key] else [])
  {
    MeasurementKeysCount(ops, 0);
    MeasurementPositionsSound(ops, 0);
    MeasurementPositionsIncreasing(ops, 0);
    MeasurementPositionsComplete(ops, 0);
    forall i | 0 <= i < |ops|
      ensures MeasurementKeys(ops[..i + 1])
              == MeasurementKeys(ops[..i]) + (if ops[i].IsMeasurement() then [ops[i].key] else [])
    {
      MeasurementKeysSnoc(ops, i);
    }
  }

  /** The keys of a concatenation are the keys of its parts, in order. */
  lemma {:induction false} MeasurementKeysAppend(a: seq<Op>, b: seq<Op>)
    ensures MeasurementKeys(a + b) == MeasurementKeys(a) + MeasurementKeys(b)
  {
    if |a| > 0 {
      assert (a + b)[1..] == a[1..] + b;
      MeasurementKeysAppend(a[1..], b);
    } else {
      assert a + b == b;
    }
  }

  /** The inverse of a unitary operation: a power gate with the opposite exponent; H and
      CZ are their own inverses. */
  function AdjointOp(op: Op): (r: Op)
    requires !op.IsMeasurement()
    ensures !r.IsMeasurement() && r.Qubits() == op.Qubits()
    ensures op.ZPow? ==> r.ZPow? && r.exponent == -op.exponent
    ensures op.XPow? ==> r.XPow? && r.exponent == -op.exponent
    ensures op.H? || op.CZ? ==> r == op
  {
    match op
    case ZPow(e, q) => ZPow(-e, q)
    case XPow(e, q) => XPow(-e, q)
    case H(q) => H(q)
    case CZ(c, t) => CZ(c, t)
  }

  /** The inverse of a measurement-free sequence: the inverses in reverse order. */
  function Adjoint(ops: seq<Op>): (r: seq<Op>)
    requires forall i :: 0 <= i < |ops| ==> !ops[i].IsMeasurement()
    ensures |r| == |ops|
    ensures forall i :: 0 <= i < |r| ==> r[i] == AdjointOp(ops[|ops| - 1 - i])
  {
    if |ops| == 0 then [] else Adjoint(ops[1..]) + [AdjointOp(ops[0])]
  }

  lemma AdjointOpInvolution(op: Op)
    requires !op.IsMeasurement()
    ensures AdjointOp(AdjointOp(op)) == op
  {
  }

  /** Inverting twice gives back the original sequence. */
  lemma {:induction false} AdjointInvolution(ops: seq<Op>)
    requires forall i :: 0 <= i < |ops| ==> !ops[i].IsMeasurement()
    ensures Adjoint(Adjoint(ops)) == ops
  {
    var a := Adjoint(ops);
    var aa := Adjoint(a);
    forall i | 0 <= i < |ops|
      ensures aa[i] == ops[i]
    {
      AdjointOpInvolution(ops[i]);
    }
  }
}
