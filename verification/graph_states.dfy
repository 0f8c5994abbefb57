/** Graph states: one qubit per node of a structural graph, prepared by a Hadamard on
    every qubit followed by a controlled phase on every edge. The state vector obtained
    by simulating the preparation is not modelled. */
module GraphStates {
  import opened Results
  import opened Circuits

  /** A graph node: an integer index on a 1-D chain, an integer pair on a 2-D grid. */
  datatype Node = Index(i: int) | Pair(row: int, col: int)

  /** The nodes (in graph order), the edges and the coordinate dimension of a graph. */
  datatype StructuralGraph = StructuralGraph(nodes: seq<Node>, edges: seq<(Node, Node)>, dimension: int)

  /** The qubit placed on a node: `LineQubit(v)` in dimension 1, `GridQubit(*v)` in
      dimension 2. An integer node cannot be unpacked by `*v`, a TypeError; a pair node
      in dimension 1 is taken to fail the same way. */
  function QubitOf(v: Node, dimension: int): (r: Result<Qubit>)
    requires dimension == 1 || dimension == 2
    ensures r.Ok? <==> (dimension == 1 <==> v.Index?)
    ensures r.Err? ==> r.error == TypeError
  {
    match v
    case Index(i) => if dimension == 1 then Ok(LineQubit(i)) else Err(TypeError)
    case Pair(row, col) => if dimension == 2 then Ok(GridQubit(row, col)) else Err(TypeError)
  }

  function QubitsOf(nodes: seq<Node>, dimension: int): (r: Result<seq<Qubit>>)
    requires dimension == 1 || dimension == 2
    ensures r.Ok? <==> forall i :: 0 <= i < |nodes| ==> QubitOf(nodes[i], dimension).Ok?
    ensures r.Ok? ==> |r.value| == |nodes|
    ensures r.Ok? ==> forall i :: 0 <= i < |nodes| ==> QubitOf(nodes[i], dimension) == Ok(r.value[i])
    ensures r.Err? ==> r.error == TypeError
  {
    if |nodes| == 0 then Ok([])
    else
      var q :- QubitOf(nodes[0], dimension);
      var rest :- QubitsOf(nodes[1..], dimension);
      assert forall i :: 1 <= i < |nodes| ==> nodes[i] == nodes[1..][i - 1];
      Ok([q] + rest)
  }

  /** `_initialize_qubits`: one qubit per node, in node order; any dimension other than
      1 or 2 is unsupported. */
  function InitializeQubits(g: StructuralGraph): (r: Result<seq<Qubit>>)
    ensures g.dimension != 1 && g.dimension != 2 ==> r == Err(NotImplementedError)
    ensures r.Ok? ==> |r.value| == |g.nodes|
    ensures r.Ok? && g.dimension == 1 ==>
              forall i :: 0 <= i < |g.nodes| ==> g.nodes[i].Index? && r.value[i] == LineQubit(g.nodes[i].i)
    ensures r.Ok? && g.dimension == 2 ==>
              forall i :: 0 <= i < |g.nodes| ==>
                g.nodes[i].Pair? && r.value[i] == GridQubit(g.nodes[i].row, g.nodes[i].col)
    ensures (g.dimension == 1 && forall i :: 0 <= i < |g.nodes| ==> g.nodes[i].Index?) ==> r.Ok?
    ensures (g.dimension == 2 && forall i :: 0 <= i < |g.nodes| ==> g.nodes[i].Pair?) ==> r.Ok?
    ensures r.Err? && (g.dimension == 1 || g.dimension == 2) ==> r.error == TypeError
  {
    if g.dimension == 1 || g.dimension == 2 then QubitsOf(g.nodes, g.dimension)
    else Err(NotImplementedError)
  }

  /** `_initialize_qubits` as written: `raise NotImplemented` raises a constant that is
      not an exception, which Python reports as a TypeError. */
  function InitializeQubitsAsWritten(g: StructuralGraph): (r: Result<seq<Qubit>>)
    ensures g.dimension != 1 && g.dimension != 2 ==> r == Err(TypeError)
    ensures g.dimension == 1 || g.dimension == 2 ==> r == InitializeQubits(g)
  {
    if g.dimension == 1 || g.dimension == 2 then QubitsOf(g.nodes, g.dimension)
    else Err(TypeError)
  }

  /** As written, a three-dimensional graph and a two-dimensional graph holding an integer
      node (which `GridQubit(*v)` cannot unpack) fail with the same error, so a caller
      cannot tell an unsupported dimension from a malformed node; the intended version
      tells them apart. */
  lemma UnsupportedDimensionIndistinguishable(g3: StructuralGraph, g2: StructuralGraph)
    requires g3 == StructuralGraph([Index(0)], [], 3)
    requires g2 == StructuralGraph([Index(0)], [], 2)
    ensures InitializeQubitsAsWritten(g3) == InitializeQubitsAsWritten(g2) == Err(TypeError)
    ensures InitializeQubits(g3) == Err(NotImplementedError) && InitializeQubits(g2) == Err(TypeError)
  {
    assert QubitOf(g2.nodes[0], 2).Err?;
  }

  /** `list.index`: the position of the first occurrence of v, or a ValueError. */
  function IndexOf(s: seq<Node>, v: Node): (r: Result<nat>)
    ensures r.Ok? <==> v in s
    ensures r.Ok? ==> r.value < |s| && s[r.value] == v && forall j :: 0 <= j < r.value ==> s[j] != v
    ensures r.Err? ==> r.error == ValueError
  {
    if |s| == 0 then Err(ValueError)
    else if s[0] == v then Ok(0)
    else
      var i :- IndexOf(s[1..], v);
      Ok(i + 1)
  }

  /** The Hadamard layer: H on every qubit once, in qubit order. */
  function HadamardLayer(qubits: seq<Qubit>): (ops: seq<Op>)
    ensures |ops| == |qubits| && forall i :: 0 <= i < |ops| ==> ops[i] == H(qubits[i])
  {
    seq(|qubits|, i requires 0 <= i < |qubits| => H(qubits[i]))
  }

  /** Both endpoints of edge e are nodes, the first positions of both in the node list
      have a qubit, and those are two different qubits (the circuit library rejects a
      controlled phase on one qubit twice). */
  predicate EdgeResolves(nodes: seq<Node>, qubits: seq<Qubit>, e: (Node, Node)) {
    && e.0 in nodes && e.1 in nodes
    && IndexOf(nodes, e.0).value < |qubits| && IndexOf(nodes, e.1).value < |qubits|
    && qubits[IndexOf(nodes, e.0).value] != qubits[IndexOf(nodes, e.1).value]
  }

  /** The controlled phase between the qubits of the two endpoints of a resolving edge. */
  function EdgeCZ(nodes: seq<Node>, qubits: seq<Qubit>, e: (Node, Node)): Op
    requires EdgeResolves(nodes, qubits, e)
  {
    CZ(qubits[IndexOf(nodes, e.0).value], qubits[IndexOf(nodes, e.1).value])
  }

  /** The controlled phase of one edge (n1, n2); the lookups happen in the source's order,
      so an unknown n1 is reported before an out-of-range n1, and both before anything
      about n2. A self-loop, or two nodes sharing a qubit, gives a controlled phase on
      duplicate qubits, which the circuit library rejects with a ValueError. */
  function EdgeOp(nodes: seq<Node>, qubits: seq<Qubit>, e: (Node, Node)): (r: Result<Op>)
    ensures r.Ok? <==> EdgeResolves(nodes, qubits, e)
    ensures r.Ok? ==> r.value == EdgeCZ(nodes, qubits, e)
    ensures e.0 !in nodes ==> r == Err(ValueError)
    ensures e.0 == e.1 ==> r.Err?
    ensures r.Err? ==> r.error == ValueError || r.error == IndexError
  {
    var i1 :- IndexOf(nodes, e.0);
    if i1 >= |qubits| then Err(IndexError)
    else
      var i2 :- IndexOf(nodes, e.1);
      if i2 >= |qubits| then Err(IndexError)
      else if qubits[i1] == qubits[i2] then Err(ValueError)
      else Ok(CZ(qubits[i1], qubits[i2]))
  }

  /** The controlled phases of `edges`, in edge order; the first failing edge decides. */
  function EdgeOps(nodes: seq<Node>, qubits: seq<Qubit>, edges: seq<(Node, Node)>): (r: Result<seq<Op>>)
    ensures r.Ok? <==> forall k :: 0 <= k < |edges| ==> EdgeResolves(nodes, qubits, edges[k])
    ensures r.Ok? ==> |r.value| == |edges|
    ensures r.Ok? ==> forall k :: 0 <= k < |edges| ==> r.value[k] == EdgeCZ(nodes, qubits, edges[k])
    decreases |edges|
  {
    if |edges| == 0 then Ok([])
    else
      var init := edges[..|edges| - 1];
      assert forall k :: 0 <= k < |init| ==> init[k] == edges[k];
      var done :- EdgeOps(nodes, qubits, init);
      var cz :- EdgeOp(nodes, qubits, edges[|edges| - 1]);
      Ok(done + [cz])
  }

  /** `_produce_initialization_circuit`: the Hadamard layer, then one controlled phase per
      edge. Operations are listed in the order they are appended. */
  function InitializationCircuit(g: StructuralGraph, qubits: seq<Qubit>): (r: Result<seq<Op>>)
    ensures r.Ok? <==> forall k :: 0 <= k < |g.edges| ==> EdgeResolves(g.nodes, qubits, g.edges[k])
    ensures r.Ok? ==> |r.value| == |qubits| + |g.edges|
    ensures r.Ok? ==> forall i :: 0 <= i < |qubits| ==> r.value[i] == H(qubits[i])
    ensures r.Ok? ==> forall k :: 0 <= k < |g.edges| ==> r.value[|qubits| + k] == EdgeCZ(g.nodes, qubits, g.edges[k])
  {
    var czs :- EdgeOps(g.nodes, qubits, g.edges);
    Ok(HadamardLayer(qubits) + czs)
  }

  /** In a successful initialization circuit no Hadamard follows a controlled phase. */
  lemma NoHadamardAfterCZ(g: StructuralGraph, qubits: seq<Qubit>)
    ensures InitializationCircuit(g, qubits).Ok? ==>
              var ops := InitializationCircuit(g, qubits).value;
              forall i, j :: 0 <= i < j < |ops| && ops[i].CZ? ==> !ops[j].H?
  {
    var r := InitializationCircuit(g, qubits);
    if r.Ok? {
      var ops := r.value;
      forall i, j | 0 <= i < j < |ops| && ops[i].CZ?
        ensures !ops[j].H?
      {
        assert |qubits| <= i;
        var k := j - |qubits|;
        assert ops[|qubits| + k] == EdgeCZ(g.nodes, qubits, g.edges[k]);
      }
    }
  }

  /** A failure at edge k of a prefix is the failure of the whole edge list. */
  lemma {:induction false} EdgeOpsPrefixErr(nodes: seq<Node>, qubits: seq<Qubit>, edges: seq<(Node, Node)>, k: nat)
    requires k <= |edges|
    requires EdgeOps(nodes, qubits, edges[..k]).Err?
    ensures EdgeOps(nodes, qubits, edges) == EdgeOps(nodes, qubits, edges[..k])
    decreases |edges|
  {
    if k < |edges| {
      var init := edges[..|edges| - 1];
      assert init[..k] == edges[..k];
      EdgeOpsPrefixErr(nodes, qubits, init, k);
    } else {
      assert edges[..k] == edges;
    }
  }

  /** Extending a successful prefix of the edge list by one edge. */
  lemma EdgeOpsExtend(nodes: seq<Node>, qubits: seq<Qubit>, edges: seq<(Node, Node)>, k: nat)
    requires k < |edges| && EdgeOps(nodes, qubits, edges[..k]).Ok?
    ensures EdgeOps(nodes, qubits, edges[..k + 1])
            == (var cz := EdgeOp(nodes, qubits, edges[k]);
                if cz.Ok? then Ok(EdgeOps(nodes, qubits, edges[..k]).value + [cz.value]) else Err(cz.error))
  {
    assert edges[..k + 1][..k] == edges[..k];
  }

  /** The first loop of `_produce_initialization_circuit`: one Hadamard per qubit. */
  method AppendHadamards(qubits: seq<Qubit>) returns (circuit: seq<Op>)
    ensures circuit == HadamardLayer(qubits)
  {
    circuit := [];
    for i := 0 to |qubits|
      invariant |circuit| == i && forall j :: 0 <= j < i ==> circuit[j] == H(qubits[j])
    {
      circuit := circuit + [H(qubits[i])];
    }
  }

  /** The second loop of `_produce_initialization_circuit`: one controlled phase per edge
      appended to `circuit`, stopping at the first edge whose lookup fails. */
  method AppendEdges(nodes: seq<Node>, qubits: seq<Qubit>, edges: seq<(Node, Node)>, prefix: seq<Op>)
    returns (r: Result<seq<Op>>)
    ensures EdgeOps(nodes, qubits, edges).Ok? ==> r == Ok(prefix + EdgeOps(nodes, qubits, edges).value)
    ensures EdgeOps(nodes, qubits, edges).Err? ==> r == Err(EdgeOps(nodes, qubits, edges).error)
  {
    var circuit := prefix;
    for k := 0 to |edges|
      invariant EdgeOps(nodes, qubits, edges[..k]).Ok?
      invariant circuit == prefix + EdgeOps(nodes, qubits, edges[..k]).value
    {
      var cz := EdgeOp(nodes, qubits, edges[k]);
      if cz.Err? {
        assert EdgeOps(nodes, qubits, edges) == Err(cz.error) by {
          EdgeOpsExtend(nodes, qubits, edges, k);
          EdgeOpsPrefixErr(nodes, qubits, edges, k + 1);
        }
        return Err(cz.error);
      }
      assert EdgeOps(nodes, qubits, edges[..k + 1]) == Ok(EdgeOps(nodes, qubits, edges[..k]).value + [cz.value]) by {
        EdgeOpsExtend(nodes, qubits, edges, k);
      }
      circuit := circuit + [cz.value];
    }
    assert edges[..|edges|] == edges;
    r := Ok(circuit);
  }

  /** `_produce_initialization_circuit` as the two loops of the source, appending one
      operation at a time. */
  method ProduceInitializationCircuit(g: StructuralGraph, qubits: seq<Qubit>) returns (r: Result<seq<Op>>)
    ensures r == InitializationCircuit(g, qubits)
  {
    var hadamards := AppendHadamards(qubits);
    r := AppendEdges(g.nodes, qubits, g.edges, hadamards);
  }

  /** `get_qubit(*args)`: one argument names a node, two arguments name the grid node
      (a, b); any other argument count reaches the lookup with no index assigned. */
  function GetQubit(g: StructuralGraph, qubits: seq<Qubit>, args: seq<Node>): (r: Result<Qubit>)
    ensures |args| != 1 && |args| != 2 ==> r == Err(UnboundLocalError)
    ensures |args| == 1 && args[0] !in g.nodes ==> r == Err(ValueError)
    ensures |args| == 1 && args[0] in g.nodes && |qubits| == |g.nodes| ==>
              exists j :: 0 <= j < |g.nodes| && g.nodes[j] == args[0] && r == Ok(qubits[j])
                          && forall i :: 0 <= i < j ==> g.nodes[i] != args[0]
  {
    var idx :-
      if |args| == 1 then IndexOf(g.nodes, args[0])
      else if |args| == 2 then
        (if args[0].Index? && args[1].Index? then IndexOf(g.nodes, Pair(args[0].i, args[1].i))
         else Err(ValueError))
      else Err(UnboundLocalError);
    if idx < |qubits| then Ok(qubits[idx]) else Err(IndexError)
  }

  /** Looking up a node of a graph whose qubits were placed returns the qubit built from
      that node; in dimension 2 the two-argument form names the grid coordinates. */
  lemma GetQubitOfNode(g: StructuralGraph, qubits: seq<Qubit>, v: Node)
    requires InitializeQubits(g) == Ok(qubits)
    requires v in g.nodes
    ensures Ok(qubits[IndexOf(g.nodes, v).value]) == QubitOf(v, g.dimension)
    ensures GetQubit(g, qubits, [v]) == QubitOf(v, g.dimension)
    ensures v.Pair? ==> GetQubit(g, qubits, [Index(v.row), Index(v.col)]) == Ok(GridQubit(v.row, v.col))
  {
  }

  lemma FiveOps(ops: seq<Op>, a: Op, b: Op, c: Op, d: Op, e: Op)
    requires |ops| == 5 && ops[0] == a && ops[1] == b && ops[2] == c && ops[3] == d && ops[4] == e
    ensures ops == [a, b, c, d, e]
  {
  }

  /** The three-node chain 0 - 1 - 2 of dimension 1. */
  predicate IsChainOfThree(g: StructuralGraph) {
    g == StructuralGraph([Index(0), Index(1), Index(2)], [(Index(0), Index(1)), (Index(1), Index(2))], 1)
  }

  /** The chain 0 - 1 - 2 places line qubits 0, 1 and 2. */
  lemma ChainOfThreeQubits(g: StructuralGraph)
    requires IsChainOfThree(g)
    ensures InitializeQubits(g) == Ok([LineQubit(0), LineQubit(1), LineQubit(2)])
  {
    assert InitializeQubits(g).value == [LineQubit(0), LineQubit(1), LineQubit(2)];
  }

  /** The chain 0 - 1 - 2 prepares H on the three line qubits, then CZ(0, 1) and CZ(1, 2). */
  lemma ChainOfThreeCircuit(g: StructuralGraph, qs: seq<Qubit>)
    requires IsChainOfThree(g) && qs == [LineQubit(0), LineQubit(1), LineQubit(2)]
    ensures InitializationCircuit(g, qs)
            == Ok([H(LineQubit(0)), H(LineQubit(1)), H(LineQubit(2)),
                   CZ(LineQubit(0), LineQubit(1)), CZ(LineQubit(1), LineQubit(2))])
  {
    var e0, e1 := g.edges[0], g.edges[1];
    assert EdgeResolves(g.nodes, qs, e0) && EdgeCZ(g.nodes, qs, e0) == CZ(LineQubit(0), LineQubit(1)) by {
      assert IndexOf(g.nodes, Index(0)) == Ok(0);
      assert IndexOf(g.nodes, Index(1)) == Ok(1);
    }
    assert EdgeResolves(g.nodes, qs, e1) && EdgeCZ(g.nodes, qs, e1) == CZ(LineQubit(1), LineQubit(2)) by {
      assert IndexOf(g.nodes, Index(1)) == Ok(1);
      assert IndexOf(g.nodes, Index(2)) == Ok(2);
    }
    var ops := InitializationCircuit(g, qs).value;
    assert |ops| == 5 && ops[0] == H(LineQubit(0)) && ops[1] == H(LineQubit(1)) && ops[2] == H(LineQubit(2));
    assert ops[3] == CZ(LineQubit(0), LineQubit(1)) && ops[4] == CZ(LineQubit(1), LineQubit(2));
    FiveOps(ops, H(LineQubit(0)), H(LineQubit(1)), H(LineQubit(2)),
            CZ(LineQubit(0), LineQubit(1)), CZ(LineQubit(1), LineQubit(2)));
  }

  /** Any dimension other than 1 or 2 is rejected as unsupported, whatever the nodes, and
      that error differs from every error a supported dimension can give. */
  lemma UnsupportedDimension(g: StructuralGraph, h: StructuralGraph)
    requires g.dimension != 1 && g.dimension != 2
    requires h.dimension == 1 || h.dimension == 2
    ensures InitializeQubits(g) == Err(NotImplementedError)
    ensures InitializeQubits(h) != InitializeQubits(g)
  {
  }
}
