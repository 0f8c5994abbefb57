/** The measurement-based SU(2) gate as data: a five-node path graph whose nodes carry
    the operations to apply, the functions that compute each operation's parameters
    from earlier measurement outcomes, and the labels of those outcomes. */
module SingleQubit {
  import opened Results
  import opened Circuits
  import opened Dependencies
  import Projectors
  import opened GraphStates

  /** A measurement outcome. */
  type Bit = b: int | 0 <= b <= 1

  /** The operation classes a node may list under 'gates'. */
  datatype OpKind = ProjectorBPhiKind | XPowGateKind | ZPowGateKind

  /** The parameter functions `_f_params_q<node>_t<slot>` of the gate. */
  datatype ParamFn = ParamsQ0T0 | ParamsQ1T0 | ParamsQ2T0 | ParamsQ3T0 | ParamsQ4T0 | ParamsQ4T1

  /** The keyword-argument dictionaries the parameter functions return. */
  datatype Params =
    | MeasurementParams(phi: real, measurementLabel: string)
    | ExponentParams(exponent: int)

  /** One entry of the operation dictionary: parallel lists of operation classes,
      parameter functions and dependency-label tuples (`None` for no dependency). */
  datatype NodeSpec = NodeSpec(
    gates: seq<OpKind>,
    parameters: seq<ParamFn>,
    previousMeasurementDependencies: seq<Option<seq<string>>>)

  datatype SU2Gate = SU2Gate(alpha: real, beta: real, gamma: real, gateLabel: string)

  const DefaultGateLabel: string := ""

  /** The keyword-argument constructor: an absent gate label is the empty string. */
  function NewSU2Gate(alpha: real, beta: real, gamma: real, gateLabel: Option<string>): (g: SU2Gate)
    ensures g.alpha == alpha && g.beta == beta && g.gamma == gamma
    ensures g.gateLabel == gateLabel.GetOr(DefaultGateLabel)
    ensures gateLabel.None? ==> g.gateLabel == ""
  {
    SU2Gate(alpha, beta, gamma, gateLabel.GetOr(DefaultGateLabel))
  }

  /** The path graph on nodes 0..n-1, as `nx.path_graph(n)` builds it: a one-dimensional
      graph whose edges join consecutive nodes. */
  function PathGraph(n: nat): (g: StructuralGraph)
    ensures g.dimension == 1
    ensures |g.nodes| == n && forall i :: 0 <= i < n ==> g.nodes[i] == Index(i)
    ensures |g.edges| == if n == 0 then 0 else n - 1
    ensures forall k :: 0 <= k < |g.edges| ==> g.edges[k] == (Index(k), Index(k + 1))
  {
    StructuralGraph(seq(n, i => Index(i)), seq(if n == 0 then 0 else n - 1, k => (Index(k), Index(k + 1))), 1)
  }

  /** The gate graph every SU2Gate is built on. */
  function GateGraph(g: SU2Gate): StructuralGraph {
    PathGraph(5)
  }

  /** Python's `**` on an integer base and a non-negative exponent. */
  function Power(base: int, e: nat): int {
    if e == 0 then 1 else base * Power(base, e - 1)
  }

  function DigitChar(d: nat): char
    requires d <= 9
  {
    (d + '0' as int) as char
  }

  /** The outcome label `b_q<node>[<gate label>]`. */
  function MeasurementLabel(node: nat, gateLabel: string): string
    requires node <= 9
  {
    "b_q" + [DigitChar(node)] + "[" + gateLabel + "]"
  }

  /** How many outcome bits a parameter function takes: none for node 0, the previous
      outcome for nodes 1-3, two outcomes for each correction of node 4. */
  function Arity(f: ParamFn): (a: nat)
    ensures a <= 2
    ensures a == 0 <==> f == ParamsQ0T0
    ensures a == 2 <==> f == ParamsQ4T0 || f == ParamsQ4T1
  {
    match f
    case ParamsQ0T0 => 0
    case ParamsQ1T0 | ParamsQ2T0 | ParamsQ3T0 => 1
    case ParamsQ4T0 | ParamsQ4T1 => 2
  }

  /** How many outcomes a dependency entry passes: none for `None`. */
  function DependencyCount(d: Option<seq<string>>): nat {
    match d
    case None => 0
    case Some(labels) => |labels|
  }

  /** Calls a parameter function with the given outcome bits; the wrong number of
      arguments is a TypeError. */
  function Apply(g: SU2Gate, f: ParamFn, args: seq<Bit>): (r: Result<Params>)
    ensures r.Ok? <==> |args| == Arity(f)
    ensures r.Err? ==> r.error == TypeError
  {
    if |args| != Arity(f) then Err(TypeError)
    else
      match f
      case ParamsQ0T0 => Ok(MeasurementParams(0.0, MeasurementLabel(0, g.gateLabel)))
      case ParamsQ1T0 =>
        Ok(MeasurementParams(-g.alpha * Power(-1, args[0]) as real, MeasurementLabel(1, g.gateLabel)))
      case ParamsQ2T0 =>
        Ok(MeasurementParams(-g.beta * Power(-1, args[0]) as real, MeasurementLabel(2, g.gateLabel)))
      case ParamsQ3T0 =>
        Ok(MeasurementParams(-g.gamma * Power(-1, args[0]) as real, MeasurementLabel(3, g.gateLabel)))
      case ParamsQ4T0 => Ok(ExponentParams(args[0] as int + args[1] as int))
      case ParamsQ4T1 => Ok(ExponentParams(args[0] as int + args[1] as int))
  }

  /** The operation dictionary of an SU2Gate, keyed by gate-graph node. */
  function OperationDictionary(g: SU2Gate): (d: map<nat, NodeSpec>)
    ensures d.Keys == {0, 1, 2, 3, 4}
    ensures d[0].previousMeasurementDependencies == [None]
    ensures forall n :: 1 <= n <= 3 ==>
              d[n].previousMeasurementDependencies == [Some([MeasurementLabel(n - 1, g.gateLabel)])]
    ensures d[4].previousMeasurementDependencies
         == [Some([MeasurementLabel(1, g.gateLabel), MeasurementLabel(3, g.gateLabel)]),
             Some([MeasurementLabel(0, g.gateLabel), MeasurementLabel(2, g.gateLabel)])]
  {
    var L := g.gateLabel;
    map[
      0 := NodeSpec([ProjectorBPhiKind], [ParamsQ0T0], [None]),
      1 := NodeSpec([ProjectorBPhiKind], [ParamsQ1T0], [Some([MeasurementLabel(0, L)])]),
      2 := NodeSpec([ProjectorBPhiKind], [ParamsQ2T0], [Some([MeasurementLabel(1, L)])]),
      3 := NodeSpec([ProjectorBPhiKind], [ParamsQ3T0], [Some([MeasurementLabel(2, L)])]),
      4 := NodeSpec([XPowGateKind, ZPowGateKind], [ParamsQ4T0, ParamsQ4T1],
                    [Some([MeasurementLabel(1, L), MeasurementLabel(3, L)]),
                     Some([MeasurementLabel(0, L), MeasurementLabel(2, L)])])
    ]
  }

  // ----- Labels produced and labels consumed -----

  function Zeros(n: nat): seq<Bit> {
    seq(n, _ => 0)
  }

  /** The outcome label a slot writes: the measurement label its parameter function
      returns, if it returns one. */
  function SlotLabel(g: SU2Gate, f: ParamFn): Option<string> {
    match Apply(g, f, Zeros(Arity(f)))
    case Ok(MeasurementParams(_, l)) => Some(l)
    case _ => None
  }

  /** The outcome labels written by the slots of one node. */
  function NodeLabels(g: SU2Gate, spec: NodeSpec): set<string> {
    set i | 0 <= i < |spec.parameters| && SlotLabel(g, spec.parameters[i]).Some?
      :: SlotLabel(g, spec.parameters[i]).value
  }

  /** The outcome labels the slots of one node read. */
  function DependencyLabels(spec: NodeSpec): set<string> {
    set i, d | 0 <= i < |spec.previousMeasurementDependencies|
               && spec.previousMeasurementDependencies[i].Some?
               && d in spec.previousMeasurementDependencies[i].value
      :: d
  }

  /** Every node lists as many operations, parameter functions and dependency entries,
      and every parameter function takes as many bits as its dependency entry names. */
  ghost predicate WellFormed(dict: map<nat, NodeSpec>) {
    forall n :: n in dict ==>
      && |dict[n].gates| == |dict[n].parameters| == |dict[n].previousMeasurementDependencies|
      && forall i :: 0 <= i < |dict[n].parameters| ==>
           Arity(dict[n].parameters[i]) == DependencyCount(dict[n].previousMeasurementDependencies[i])
  }

  /** The dictionary as the walk sees it: for each node, the labels its slots read and
      the labels they write. */
  function Steps(g: SU2Gate, dict: map<nat, NodeSpec>): map<nat, Step> {
    map n | n in dict :: Step(DependencyLabels(dict[n]), NodeLabels(g, dict[n]))
  }

  function GateSteps(g: SU2Gate): map<nat, Step> {
    Steps(g, OperationDictionary(g))
  }

  // ----- Properties of the SU2Gate dictionary -----

  /** The dictionary has exactly the keys 0..4, the nodes of the gate graph. */
  lemma OperationDictionaryKeys(g: SU2Gate)
    ensures OperationDictionary(g).Keys == {0, 1, 2, 3, 4}
    ensures forall n: nat :: n in OperationDictionary(g) <==> n < 5
    ensures forall n: nat :: n in OperationDictionary(g) <==> Index(n) in GateGraph(g).nodes
  {
    var nodes := GateGraph(g).nodes;
    assert nodes == [Index(0), Index(1), Index(2), Index(3), Index(4)];
  }

  /** Nodes 0-3 hold one slot, node 4 holds two, and the parallel lists agree in length
      and in arity. */
  lemma OperationDictionaryWellFormed(g: SU2Gate)
    ensures WellFormed(OperationDictionary(g))
    ensures forall n :: n in OperationDictionary(g) ==>
              |OperationDictionary(g)[n].gates| == if n == 4 then 2 else 1
  {
  }

  /** Nodes 0-3 are B_phi projectors; node 4 applies an X power, then a Z power. */
  lemma OperationKinds(g: SU2Gate)
    ensures forall n :: n in OperationDictionary(g) && n < 4 ==>
              OperationDictionary(g)[n].gates == [ProjectorBPhiKind]
    ensures OperationDictionary(g)[4].gates == [XPowGateKind, ZPowGateKind]
  {
  }

  /** Nodes 0-3 write `b_q0[L]` ... `b_q3[L]`; node 4 writes nothing. */
  lemma NodeLabelsOfGate(g: SU2Gate, n: nat)
    requires n in OperationDictionary(g)
    ensures NodeLabels(g, OperationDictionary(g)[n]) == if n < 4 then {MeasurementLabel(n, g.gateLabel)} else {}
  {
    var spec := OperationDictionary(g)[n];
    if n == 4 {
      assert SlotLabel(g, spec.parameters[0]).None?;
      assert SlotLabel(g, spec.parameters[1]).None?;
    } else {
      assert SlotLabel(g, spec.parameters[0]) == Some(MeasurementLabel(n, g.gateLabel));
    }
  }

  /** The labels `b_q<k>[L]` for the measured nodes k below n. */
  function LabelsBelow(gateLabel: string, n: nat): set<string> {
    if n == 0 then {}
    else LabelsBelow(gateLabel, n - 1) + (if n - 1 < 4 then {MeasurementLabel(n - 1, gateLabel)} else {})
  }

  /** The labels written by the nodes below n, for n = 0..5. */
  lemma {:induction false} ProducedBeforeGate(g: SU2Gate, n: nat)
    requires n <= 5
    ensures ProducedBefore(GateSteps(g), n) == LabelsBelow(g.gateLabel, n)
  {
    if n > 0 {
      ProducedBeforeGate(g, n - 1);
      NodeLabelsOfGate(g, n - 1);
    }
  }

  lemma LabelsBelowGate(L: string)
    ensures LabelsBelow(L, 1) == {MeasurementLabel(0, L)}
    ensures LabelsBelow(L, 2) == {MeasurementLabel(0, L), MeasurementLabel(1, L)}
    ensures LabelsBelow(L, 3) == {MeasurementLabel(0, L), MeasurementLabel(1, L), MeasurementLabel(2, L)}
    ensures LabelsBelow(L, 4) == LabelsBelow(L, 5)
         == {MeasurementLabel(0, L), MeasurementLabel(1, L), MeasurementLabel(2, L), MeasurementLabel(3, L)}
  {
    assert LabelsBelow(L, 0) == {};
  }

  /** Node 0 reads nothing, and every label a node reads is written by an earlier node. */
  lemma GateTopologicallyValid(g: SU2Gate)
    ensures OperationDictionary(g)[0].previousMeasurementDependencies == [None]
    ensures TopologicallyValid(GateSteps(g))
  {
    var dict := OperationDictionary(g);
    var L := g.gateLabel;
    LabelsBelowGate(L);
    forall n | n in GateSteps(g)
      ensures DependenciesWrittenBefore(GateSteps(g), n)
    {
      ProducedBeforeGate(g, n);
      var deps := dict[n].previousMeasurementDependencies;
      forall d | d in DependencyLabels(dict[n])
        ensures d in LabelsBelow(L, n)
      {
        var i :| 0 <= i < |deps| && deps[i].Some? && d in deps[i].value;
        assert n != 0;
      }
    }
  }

  /** The four outcome labels of one gate label. */
  function GateLabels(gateLabel: string): set<string> {
    {MeasurementLabel(0, gateLabel), MeasurementLabel(1, gateLabel),
     MeasurementLabel(2, gateLabel), MeasurementLabel(3, gateLabel)}
  }

  /** Walking nodes 0..4 in order finds every dependency already written and ends
      having written the four outcome labels. */
  lemma GateWalk(g: SU2Gate)
    ensures Walk(GateSteps(g), [0, 1, 2, 3, 4], {}) == Ok(GateLabels(g.gateLabel))
  {
    GateWalkAscending(g);
    GateWritesFourLabels(g);
    assert Ascending(0, 5) == [0, 1, 2, 3, 4];
  }

  lemma GateWalkAscending(g: SU2Gate)
    ensures Walk(GateSteps(g), Ascending(0, 5), {}) == Ok(ProducedBefore(GateSteps(g), 5))
  {
    OperationDictionaryKeys(g);
    assert forall n: nat :: n in GateSteps(g) <==> n < 5;
    GateTopologicallyValid(g);
    AscendingWalkSucceedsIffValid(GateSteps(g), 5);
  }

  /** Over all five nodes the gate writes exactly the labels `b_q0[L]` ... `b_q3[L]`. */
  lemma GateWritesFourLabels(g: SU2Gate)
    ensures ProducedBefore(GateSteps(g), 5) == GateLabels(g.gateLabel)
  {
    ProducedBeforeGate(g, 5);
    LabelsBelowGate(g.gateLabel);
  }

  /** Walking the nodes backwards fails at node 4, whose corrections read labels no node
      has written yet. */
  lemma GateReverseWalkFails(g: SU2Gate)
    ensures Walk(GateSteps(g), [4, 3, 2, 1, 0], {}).Err?
  {
    var dict := OperationDictionary(g);
    var d := MeasurementLabel(1, g.gateLabel);
    assert d in dict[4].previousMeasurementDependencies[0].value;
    assert d in GateSteps(g)[4].inputs;
  }

  /** The label reads `b_q`, the node's digit, then the gate label in square brackets. */
  lemma MeasurementLabelShape(node: nat, gateLabel: string)
    requires node <= 9
    ensures var l := MeasurementLabel(node, gateLabel);
            && |l| == |gateLabel| + 6
            && l[..3] == "b_q" && l[3] == DigitChar(node) && l[4] == '[' && l[|l| - 1] == ']'
            && l[5..|l| - 1] == gateLabel
  {
  }

  /** Outcome labels are injective in node and gate label: two labels agree exactly when
      both the node and the gate label agree. */
  lemma MeasurementLabelInjective(n1: nat, gateLabel1: string, n2: nat, gateLabel2: string)
    requires n1 <= 9 && n2 <= 9
    ensures MeasurementLabel(n1, gateLabel1) == MeasurementLabel(n2, gateLabel2)
        <==> n1 == n2 && gateLabel1 == gateLabel2
  {
    var s1 := MeasurementLabel(n1, gateLabel1);
    var s2 := MeasurementLabel(n2, gateLabel2);
    if s1 == s2 {
      assert s1[3] == DigitChar(n1) && s2[3] == DigitChar(n2);
      assert |gateLabel1| == |gateLabel2|;
      assert gateLabel1 == s1[5..5 + |gateLabel1|];
      assert gateLabel2 == s2[5..5 + |gateLabel2|];
    }
  }

  /** The four labels of one gate are pairwise distinct. */
  lemma GateLabelsDistinct(gateLabel: string)
    ensures forall j, k :: 0 <= j < k < 4 ==> MeasurementLabel(j, gateLabel) != MeasurementLabel(k, gateLabel)
  {
    forall j, k | 0 <= j < k < 4
      ensures MeasurementLabel(j, gateLabel) != MeasurementLabel(k, gateLabel)
    {
      MeasurementLabelInjective(j, gateLabel, k, gateLabel);
    }
  }

  /** The label sets of two gate labels are disjoint exactly when the gate labels differ. */
  lemma GateLabelSetsDisjoint(L1: string, L2: string)
    ensures GateLabels(L1) !! GateLabels(L2) <==> L1 != L2
  {
    if L1 == L2 {
      assert MeasurementLabel(0, L1) in GateLabels(L1) * GateLabels(L2);
    } else {
      forall j, k | 0 <= j < 4 && 0 <= k < 4
        ensures MeasurementLabel(j, L1) != MeasurementLabel(k, L2)
      {
        MeasurementLabelInjective(j, L1, k, L2);
      }
    }
  }

  /** Two gates write disjoint label sets exactly when their gate labels differ. */
  lemma GateLabelsDisjoint(g1: SU2Gate, g2: SU2Gate)
    ensures ProducedBefore(GateSteps(g1), 5) !! ProducedBefore(GateSteps(g2), 5)
        <==> g1.gateLabel != g2.gateLabel
  {
    GateWritesFourLabels(g1);
    GateWritesFourLabels(g2);
    GateLabelSetsDisjoint(g1.gateLabel, g2.gateLabel);
  }

  /** The label a slot writes does not depend on the outcome bits it is given. */
  lemma SlotLabelIgnoresOutcomes(g: SU2Gate, f: ParamFn, args: seq<Bit>)
    requires |args| == Arity(f)
    ensures Apply(g, f, args).Ok?
    ensures Apply(g, f, args).value.MeasurementParams? <==> SlotLabel(g, f).Some?
    ensures SlotLabel(g, f).Some? ==> Apply(g, f, args).value.measurementLabel == SlotLabel(g, f).value
  {
  }

  /** Feed-forward angles: node 0 measures at φ = 0; nodes 1-3 measure at -θ after a
      previous outcome 0 and at +θ after a previous outcome 1, for θ = α, β, γ. */
  lemma FeedForwardAngles(g: SU2Gate, b: Bit)
    ensures Apply(g, ParamsQ0T0, []).value.phi == 0.0
    ensures Apply(g, ParamsQ1T0, [b]).value.phi == if b == 0 then -g.alpha else g.alpha
    ensures Apply(g, ParamsQ2T0, [b]).value.phi == if b == 0 then -g.beta else g.beta
    ensures Apply(g, ParamsQ3T0, [b]).value.phi == if b == 0 then -g.gamma else g.gamma
  {
    assert Power(-1, b) == if b == 0 then 1 else -1;
  }

  /** The correction exponents are plain integer sums of outcome bits: X gets
      b_q1 + b_q3 and Z gets b_q0 + b_q2, both in 0..2 and not reduced mod 2. */
  lemma CorrectionExponents(g: SU2Gate, b0: Bit, b1: Bit, b2: Bit, b3: Bit)
    ensures Apply(g, ParamsQ4T0, [b1, b3]) == Ok(ExponentParams(b1 as int + b3 as int))
    ensures Apply(g, ParamsQ4T1, [b0, b2]) == Ok(ExponentParams(b0 as int + b2 as int))
    ensures Apply(g, ParamsQ4T0, [1, 1]).value.exponent == 2
  {
  }

  // ----- Operations built from the slots -----

  /** A slot's operation, as `gate(**params)` builds it. */
  datatype Operation =
    | Projection(projector: Projectors.Projector)
    | XPowGate(exponent: int)
    | ZPowGate(exponent: int)

  /** Instantiates an operation class with a parameter dictionary; a dictionary whose
      keywords do not fit the class is a TypeError. */
  function Instantiate(kind: OpKind, p: Params): (r: Result<Operation>)
    ensures r.Ok? <==> (kind == ProjectorBPhiKind <==> p.MeasurementParams?)
    ensures r.Ok? && p.MeasurementParams? ==>
              r.value == Projection(Projectors.ProjectorBPhi(p.phi, p.measurementLabel, false))
    ensures r.Ok? && p.ExponentParams? ==>
              r.value == (if kind == XPowGateKind then XPowGate(p.exponent) else ZPowGate(p.exponent))
  {
    match (kind, p)
    case (ProjectorBPhiKind, MeasurementParams(phi, l)) =>
      Ok(Projection(Projectors.NewProjectorBPhi(phi, Some(l), None)))
    case (XPowGateKind, ExponentParams(e)) => Ok(XPowGate(e))
    case (ZPowGateKind, ExponentParams(e)) => Ok(ZPowGate(e))
    case _ => Err(TypeError)
  }

  /** Node 4 applies the X correction XPowGate(b_q1 + b_q3) and then the Z correction
      ZPowGate(b_q0 + b_q2), each fed the outcomes its dependency tuple names. */
  lemma CorrectionOperations(g: SU2Gate, b0: Bit, b1: Bit, b2: Bit, b3: Bit)
    ensures var spec := OperationDictionary(g)[4];
            var L := g.gateLabel;
            && spec.previousMeasurementDependencies
               == [Some([MeasurementLabel(1, L), MeasurementLabel(3, L)]), Some([MeasurementLabel(0, L), MeasurementLabel(2, L)])]
            && Instantiate(spec.gates[0], Apply(g, spec.parameters[0], [b1, b3]).value) == Ok(XPowGate(b1 as int + b3 as int))
            && Instantiate(spec.gates[1], Apply(g, spec.parameters[1], [b0, b2]).value) == Ok(ZPowGate(b0 as int + b2 as int))
  {
    OperationKinds(g);
    CorrectionExponents(g, b0, b1, b2, b3);
  }

  /** Every slot of every node, given as many bits as it depends on, yields parameters
      its operation class accepts; for nodes 0-3 that is a non-restoring B_phi projector
      decomposing into ZPow(-φ/π), H and a measurement under the node's label. */
  lemma SlotsInstantiate(g: SU2Gate, n: nat, i: nat, args: seq<Bit>, q: Qubit)
    requires n in OperationDictionary(g)
    requires i < |OperationDictionary(g)[n].parameters|
    requires |args| == DependencyCount(OperationDictionary(g)[n].previousMeasurementDependencies[i])
    ensures var spec := OperationDictionary(g)[n];
            var p := Apply(g, spec.parameters[i], args);
            && p.Ok?
            && Instantiate(spec.gates[i], p.value).Ok?
            && (n < 4 ==>
                  Projectors.Decompose(Instantiate(spec.gates[i], p.value).value.projector, [q])
                  == Ok([ZPow(-p.value.phi / Projectors.Pi, q), H(q), Measure(q, MeasurementLabel(n, g.gateLabel))]))
  {
  }
}
