# mbqcirq core, modelled in Dafny

mbqcirq describes measurement-based quantum computation on top of a circuit library.
This project models four pure pieces of it and proves what they promise:

- **SU2Gate** (`single_qubit.dfy`, `dependencies.dfy`). The gate is data: a five-node
  path graph whose operation dictionary lists, for each node, the operation classes to
  apply, the parameter functions `_f_params_q<n>_t<k>` that compute their keyword
  arguments from earlier measurement outcomes, and the outcome labels those functions
  read. Nodes 0-3 are `Projector_B_phi` measurements whose angle flips sign with the
  previous outcome. Node 4 applies X and Z corrections whose exponents are sums of
  outcome bits. The labels each node reads and writes form a dependency discipline
  (`Dependencies`). A walk over the nodes in ascending order finds every label it
  reads already written exactly when that discipline holds.
- **Projectors** (`projectors.dfy`). The X, Y, Z and B_phi projective measurements
  are modelled through their constructors' defaults, their `_num_qubits_`, the key
  sets of their `basis` and the operation sequences `_decompose_` yields. B_phi
  rotates by HP(-φ/π), measures, and optionally restores the state with the inverse
  rotation P(φ/π)H.
- **Graph states** (`graph_states.dfy`). `_initialize_qubits` places one line or grid
  qubit per node. `_produce_initialization_circuit` builds a Hadamard on every qubit
  and then a controlled phase per edge. `get_qubit` finds the qubit of a node.
- **Pauli decomposition** (`pauli.dfy`). The tabulated matrices I, σx, σy, σz and
  `decompose_into_pauli_2x2_basis` are modelled with exact complex arithmetic:
  a_k = tr(σ_k A)/2. The decomposition and recombination are proved inverse to each
  other.

Shared vocabulary lives in `results.dfy` (Python exceptions as a `Result`) and
`circuits.dfy` (qubits and the circuit operations the code appends).

Python exceptions become `Err(...)` values naming the exception class. A circuit is
the sequence of operations in the order they are appended. The numeric value of π
is a constant, and the proofs use only that it is nonzero.

## Model

| member | source | states |
|---|---|---|
| Circuits.MeasurementKeys | source/mbqcirq/measurements/projectors.py:209-219 | the measurement keys of an operation list: no more keys than operations, and each one is the key of some measurement in the list (the count and the order are stated by MeasurementKeysInOrder) |
| Circuits.MeasurementKeysCount | source/mbqcirq/measurements/projectors.py:209-219 | there are exactly as many keys as measurement positions |
| Circuits.MeasurementKeysSnoc | source/mbqcirq/measurements/projectors.py:209-219 | extending a prefix by one operation appends that operation's key if it is a measurement, and nothing otherwise |
| Circuits.MeasurementKeysInOrder | source/mbqcirq/measurements/projectors.py:209-219 | one key per measurement, in circuit order: as many keys as measurements, whose positions are listed in increasing order and cover every measurement; each operation appends its own key, if any, to the keys of the operations before it |
| Circuits.MeasurementKeysAppend | source/mbqcirq/measurements/projectors.py:213-219 | the keys of a concatenation are the keys of the first part followed by those of the second |
| Circuits.AdjointOp | source/mbqcirq/measurements/projectors.py:178-180 | the inverse of a unitary operation is again unitary and acts on the same qubits; a power gate's inverse negates its exponent, and H and CZ are their own inverses |
| Circuits.Adjoint | source/mbqcirq/measurements/projectors.py:178-180 | the inverse of a measurement-free sequence has the same length and is the inverses of the operations in reverse order |
| Circuits.AdjointOpInvolution | source/mbqcirq/measurements/projectors.py:178-180 | inverting an operation twice gives it back |
| Circuits.AdjointInvolution | source/mbqcirq/measurements/projectors.py:178-180 | inverting a sequence twice gives it back |
| Dependencies.Walk | source/mbqcirq/gates/single_qubit.py:48-79 | a walk that visits nodes in a given order never loses a written label; it fails with KeyError on an unknown node, or with the non-empty set of labels a node reads before any visited node has written them |
| Dependencies.ProducedBeforeMeans | source/mbqcirq/gates/single_qubit.py:48-79 | a label is written before node n exactly when some dictionary node numbered below n writes it |
| Dependencies.WalkFrom | source/mbqcirq/gates/single_qubit.py:48-79 | walking nodes k..n-1 in order succeeds exactly when each of them reads only labels written below it, and then ends with every label written below n |
| Dependencies.AscendingWalkSucceedsIffValid | source/mbqcirq/gates/single_qubit.py:48-79 | for a dictionary on nodes 0..n-1, the ascending walk succeeds exactly when every node reads only labels written by lower nodes, and then ends with every node's labels |
| Projectors.NewProjectorX | source/mbqcirq/measurements/projectors.py:23-34 | builds an X projector whose label is the given one, or 'X' when none is given |
| Projectors.NewProjectorY | source/mbqcirq/measurements/projectors.py:62-73 | the intended Y constructor: builds a Y projector whose label is the given one, or 'Y' when none is given |
| Projectors.NewProjectorYAsWritten | source/mbqcirq/measurements/projectors.py:72 | as written, constructing a Y projector always fails with TypeError, because `super(Projector_X, self)` is called on an object that is not a `Projector_X` |
| Projectors.ProjectorYConstructionFails | source/mbqcirq/measurements/projectors.py:62-73 | for every label, the as-written constructor fails where the intended one builds a Y projector with that label |
| Projectors.NewProjectorZ | source/mbqcirq/measurements/projectors.py:100-111 | builds a Z projector whose label is the given one, or 'Z' when none is given |
| Projectors.NewProjectorBPhi | source/mbqcirq/measurements/projectors.py:183-204 | builds a B_phi projector with the given angle, the given label or 'B_phi', and the given restore flag or False |
| Projectors.NumQubits | source/mbqcirq/measurements/projectors.py:206-207 | a projector acts on one qubit: decomposing it on no qubit fails, and on any list of exactly `_num_qubits_` qubits succeeds (likewise lines 36-37, 75-76, 113-114) |
| Projectors.Basis | source/mbqcirq/measurements/projectors.py:224-231 | `basis` has exactly the outcome keys 0 and 1, naming different states; for B_phi they are the kets +φ and -φ (likewise lines 51-56, 89-94, 126-131) |
| Projectors.Decompose | source/mbqcirq/measurements/projectors.py:209-219 | decomposing fails with IndexError exactly when the qubit list is empty (the same holds at lines 39-46, 78-84 and 116-121) |
| Projectors.DecomposeMeasuresOnce | source/mbqcirq/measurements/projectors.py:209-219 | every decomposition holds exactly one measurement (one measurement position), and its key is the projector's measurement label (likewise lines 44-46, 82-84, 120-121) |
| Projectors.DecomposeActsOnFirstQubit | source/mbqcirq/measurements/projectors.py:206-207 | every decomposed operation acts on the first given qubit only, so a decomposition touches exactly `_num_qubits_` = 1 qubit (likewise lines 36-37, 75-76, 113-114) |
| Projectors.BPhiDecomposition | source/mbqcirq/measurements/projectors.py:213-216 | without restoration, B_phi is exactly ZPow(-φ/π), H, then a measurement under its label |
| Projectors.BPhiCollapseDecomposition | source/mbqcirq/measurements/projectors.py:217-219 | with restoration, B_phi is the rotation, the measurement, then the inverse of the rotation; the last exponent is the negation of the first |
| Projectors.PauliProjectorDecompositions | source/mbqcirq/measurements/projectors.py:39-121 | X and Y are one Pauli-string measurement of X and of Y; Z is one computational-basis measurement; each is keyed by the label |
| Projectors.BasisOutcomes | source/mbqcirq/measurements/projectors.py:224-231 | every `basis` has exactly the outcome keys 0 and 1, naming different states (likewise lines 51-56, 89-94, 126-131) |
| Projectors.ConstructorDefaults | source/mbqcirq/measurements/projectors.py:183-186 | the default labels are 'X', 'Y', 'Z' and 'B_phi', and restoration is off by default (lines 25, 64, 102, 185-186) |
| SingleQubit.NewSU2Gate | source/mbqcirq/gates/single_qubit.py:30-45 | the constructor keeps the three angles, and the gate label defaults to the empty string |
| SingleQubit.PathGraph | source/mbqcirq/gates/single_qubit.py:47 | the path graph on n nodes is one-dimensional, with nodes 0..n-1 and the n-1 edges (k, k+1) |
| SingleQubit.Apply | source/mbqcirq/gates/single_qubit.py:86-106 | calling a parameter function succeeds exactly when it gets as many outcome bits as it declares; otherwise it is a TypeError |
| SingleQubit.Arity | source/mbqcirq/gates/single_qubit.py:86-106 | a parameter function takes at most two outcome bits: none exactly for node 0, two exactly for the two corrections of node 4 |
| SingleQubit.OperationDictionary | source/mbqcirq/gates/single_qubit.py:48-79 | the dictionary has the keys 0..4; node 0 depends on nothing, node n = 1..3 reads the outcome `b_q<n-1>[L]` of the node before it, and node 4 reads (b_q1, b_q3) for its first slot and (b_q0, b_q2) for its second |
| SingleQubit.OperationDictionaryKeys | source/mbqcirq/gates/single_qubit.py:47-79 | the dictionary has exactly the keys 0..4, which are the nodes of the five-node gate graph |
| SingleQubit.OperationDictionaryWellFormed | source/mbqcirq/gates/single_qubit.py:49-78 | every node lists as many operations, parameter functions and dependency entries; each function's arity equals the length of its dependency tuple, with None meaning none; nodes 0-3 hold one slot and node 4 holds two |
| SingleQubit.OperationKinds | source/mbqcirq/gates/single_qubit.py:50-73 | nodes 0-3 use Projector_B_phi; node 4 applies XPowGate and then ZPowGate |
| SingleQubit.NodeLabelsOfGate | source/mbqcirq/gates/single_qubit.py:86-106 | node n < 4 writes the one label `b_q<n>[L]`; node 4 writes none |
| SingleQubit.ProducedBeforeGate | source/mbqcirq/gates/single_qubit.py:86-100 | the labels written by the nodes below n are the labels `b_q<k>[L]` for the measured nodes k below n |
| SingleQubit.LabelsBelowGate | source/mbqcirq/gates/single_qubit.py:86-100 | lists those labels for n = 1..5 |
| SingleQubit.GateTopologicallyValid | source/mbqcirq/gates/single_qubit.py:52-77 | node 0 has no dependency, and every label a node reads is written by a node numbered below it |
| SingleQubit.GateWalk | source/mbqcirq/gates/single_qubit.py:48-79 | walking nodes 0..4 in order finds every dependency already written and ends having written exactly the four outcome labels |
| SingleQubit.GateWalkAscending | source/mbqcirq/gates/single_qubit.py:48-79 | the ascending walk over the gate succeeds with every label the gate writes |
| SingleQubit.GateWritesFourLabels | source/mbqcirq/gates/single_qubit.py:86-100 | over its five nodes the gate writes exactly `b_q0[L]` .. `b_q3[L]` |
| SingleQubit.GateReverseWalkFails | source/mbqcirq/gates/single_qubit.py:72-78 | walking the nodes backwards fails, because node 4 reads labels nobody has written yet |
| SingleQubit.MeasurementLabelShape | source/mbqcirq/gates/single_qubit.py:58-100 | the label `f'b_q<n>[{gate_label}]'` is `b_q`, the node's digit, `[`, the gate label and `]`, six characters longer than the gate label |
| SingleQubit.MeasurementLabelInjective | source/mbqcirq/gates/single_qubit.py:86-100 | two outcome labels are equal exactly when both their node and their gate label are equal |
| SingleQubit.GateLabelsDistinct | source/mbqcirq/gates/single_qubit.py:86-100 | the four labels of one gate are pairwise distinct |
| SingleQubit.GateLabelSetsDisjoint | source/mbqcirq/gates/single_qubit.py:86-100 | the four labels of two gate labels are disjoint exactly when the gate labels differ |
| SingleQubit.GateLabelsDisjoint | source/mbqcirq/gates/single_qubit.py:86-100 | two gates write disjoint label sets exactly when their gate labels differ |
| SingleQubit.SlotLabelIgnoresOutcomes | source/mbqcirq/gates/single_qubit.py:86-106 | whatever outcome bits a function gets, it returns the same measurement label, or none for node 4 |
| SingleQubit.FeedForwardAngles | source/mbqcirq/gates/single_qubit.py:86-100 | node 0 measures at φ = 0; nodes 1-3 measure at -θ after outcome 0 and at +θ after outcome 1, for θ = α, β, γ |
| SingleQubit.CorrectionExponents | source/mbqcirq/gates/single_qubit.py:102-106 | the X exponent is b_q1 + b_q3 and the Z exponent is b_q0 + b_q2, as integer sums that can reach 2 |
| SingleQubit.Instantiate | source/mbqcirq/gates/single_qubit.py:49-78 | building a listed operation class from a parameter dictionary succeeds exactly when the keywords fit the class; B_phi gets the returned angle and label and no restoration, and XPowGate or ZPowGate gets the returned exponent |
| SingleQubit.CorrectionOperations | source/mbqcirq/gates/single_qubit.py:72-78 | node 4 reads (b_q1, b_q3) and (b_q0, b_q2), and applies XPowGate(b_q1 + b_q3) and then ZPowGate(b_q0 + b_q2) |
| SingleQubit.SlotsInstantiate | source/mbqcirq/gates/single_qubit.py:48-100 | every slot, given its dependencies' bits, yields parameters its class accepts; nodes 0-3 then decompose into ZPow(-φ/π), H and a measurement under `b_q<n>[L]` |
| GraphStates.QubitOf | source/mbqcirq/states/graph_states.py:45-49 | an index node becomes a line qubit in dimension 1 and a pair node becomes a grid qubit in dimension 2; the other shape is a TypeError |
| GraphStates.QubitsOf | source/mbqcirq/states/graph_states.py:45-49 | placing qubits succeeds exactly when every node can be placed; the result has one qubit per node, in node order |
| GraphStates.InitializeQubits | source/mbqcirq/states/graph_states.py:43-52 | one qubit per node: `LineQubit(v)` in dimension 1, `GridQubit(*v)` in dimension 2; any other dimension is unsupported |
| GraphStates.InitializeQubitsAsWritten | source/mbqcirq/states/graph_states.py:51-52 | as written, an unsupported dimension fails with TypeError; supported dimensions behave as in InitializeQubits |
| GraphStates.UnsupportedDimensionIndistinguishable | source/mbqcirq/states/graph_states.py:48-52 | as written, a 3-D graph and a 2-D graph holding an integer node fail alike with TypeError; the intended version tells them apart |
| GraphStates.UnsupportedDimension | source/mbqcirq/states/graph_states.py:51-52 | any dimension other than 1 or 2 is rejected as unsupported, unlike every result of a supported dimension |
| GraphStates.IndexOf | source/mbqcirq/states/graph_states.py:67-68 | `list.index` finds the first position of a node, or fails with ValueError exactly when it is absent |
| GraphStates.HadamardLayer | source/mbqcirq/states/graph_states.py:62-63 | one Hadamard per qubit, in qubit order |
| GraphStates.EdgeOp | source/mbqcirq/states/graph_states.py:66-69 | an edge yields the controlled phase between its endpoints' qubits exactly when both endpoints are nodes with two different qubits; an unknown first endpoint is a ValueError, and so is a self-loop, whose controlled phase would act twice on one qubit |
| GraphStates.EdgeOps | source/mbqcirq/states/graph_states.py:65-69 | all edges succeed exactly when each resolves; the k-th result is the k-th edge's controlled phase |
| GraphStates.InitializationCircuit | source/mbqcirq/states/graph_states.py:59-69 | for n qubits and m edges the circuit has n + m operations: H on each qubit in order, then operation n + k is CZ(qubits[index(n1)], qubits[index(n2)]) for the k-th edge (n1, n2) |
| GraphStates.NoHadamardAfterCZ | source/mbqcirq/states/graph_states.py:59-69 | no Hadamard follows a controlled phase in the initialization circuit |
| GraphStates.EdgeOpsPrefixErr | source/mbqcirq/states/graph_states.py:65-69 | the first failing edge decides the failure of the whole edge loop |
| GraphStates.EdgeOpsExtend | source/mbqcirq/states/graph_states.py:65-69 | one more loop iteration appends the next edge's controlled phase or stops with its error |
| GraphStates.AppendHadamards | source/mbqcirq/states/graph_states.py:61-63 | the first loop appends exactly the Hadamard layer |
| GraphStates.AppendEdges | source/mbqcirq/states/graph_states.py:65-69 | the second loop appends the controlled phases of all edges after the prefix, or stops with the first edge's error |
| GraphStates.ProduceInitializationCircuit | source/mbqcirq/states/graph_states.py:59-69 | the two loops build exactly the initialization circuit |
| GraphStates.GetQubit | source/mbqcirq/states/graph_states.py:92-106 | neither one nor two arguments is an UnboundLocalError; an unknown node is a ValueError; a known node gives the qubit at its first index |
| GraphStates.GetQubitOfNode | source/mbqcirq/states/graph_states.py:92-106 | after placing qubits, looking up a node gives the qubit built from that node; in a grid the two-argument form does too |
| GraphStates.ChainOfThreeQubits | source/mbqcirq/states/graph_states.py:43-46 | the chain 0-1-2 places line qubits 0, 1 and 2 |
| GraphStates.ChainOfThreeCircuit | source/mbqcirq/states/graph_states.py:59-69 | the chain 0-1-2 is prepared by H on the three qubits, then CZ(0, 1) and CZ(1, 2) |
| PauliMath.TabulatedMatrices | source/mbqcirq/utils/math.py:15-22 | the basis holds four matrices in the order identity, σx, σy, σz, with the entries [[1,0],[0,1]], [[0,1],[1,0]], [[0,-i],[i,0]] and [[1,0],[0,-1]] |
| PauliMath.TimesIsMul | source/mbqcirq/utils/math.py:15-18 | multiplying by a tabulated entry (0, ±1, ±i) is complex multiplication by its value |
| PauliMath.LeftMulIsMatMul | source/mbqcirq/utils/math.py:53 | the entry-wise product with a tabulated matrix is the matrix product σA |
| PauliMath.ScaleByIsMul | source/mbqcirq/utils/math.py:35-41 | scaling a tabulated matrix entry by entry is complex multiplication of each entry |
| PauliMath.Coefficients | source/mbqcirq/utils/math.py:53-54 | the four coefficients, in the order identity, σx, σy, σz, in closed form |
| PauliMath.CoefficientsAreHalfTraces | source/mbqcirq/utils/math.py:53-54 | coefficient k is half the trace of σ_k A, with σ_k as tabulated |
| PauliMath.Recompose | source/mbqcirq/utils/math.py:35-41 | the entries of Σ a_k σ_k |
| PauliMath.RecomposeIsLinearCombination | source/mbqcirq/utils/math.py:35-41 | the recombination is the linear combination of the tabulated matrices, taken in basis order |
| PauliMath.Decompose | source/mbqcirq/utils/math.py:49-54 | a matrix that is not two rows of two entries fails the shape assertion; otherwise the result has exactly four coefficients |
| PauliMath.RecomposeCoefficients | source/mbqcirq/utils/math.py:31-41 | A = Σ a_k σ_k for every 2x2 complex A |
| PauliMath.CoefficientsOfRecompose | source/mbqcirq/utils/math.py:31-41 | the coefficients of Σ c_k σ_k are c, so the decomposition is a bijection |
| PauliMath.DecomposeRoundTrip | source/mbqcirq/utils/math.py:30-54 | for a 2x2 input the decomposition succeeds and recombines to the input |
| PauliMath.HermitianCoefficients | source/mbqcirq/utils/math.py:15-18 | the coefficients of the shape shared by the four tabulated matrices |
| PauliMath.BasisMatrixCoefficients | source/mbqcirq/utils/math.py:15-22 | decomposing basis matrix σ_j gives the unit coefficient vector e_j |

## Left out

- Simulating the initialization circuit to a state vector (graph_states.py:79-85). It needs an external simulator.
- The numeric meaning of circuit operations (their unitary matrices). Operations are modelled only by what they are and which qubits they act on.
- The state vectors in each projector's `basis`. They are floating-point values built with square roots and complex exponentials, so only the outcome keys and the names of the states are modelled.
- Floating-point rounding. Angles, exponents and the Pauli arithmetic are exact reals, and π is a constant that is used only as a nonzero divisor.
- Circuit-diagram strings, such as `Projector_X` reporting 'proj_Y'. They are cosmetic.
- The `super(...)` calls in the X, Z and B_phi constructors. They have no effect. The one in the Y constructor fails and is recorded under Findings.
- Building graphs with path and grid helpers, and plotting them. Graphs are inputs given as nodes, edges and dimension; the gate graph is the path graph on five nodes.
- `MBQGate._initialize_graph_nodes`. It only copies the operation dictionary onto the graph's nodes, so the dictionary is modelled directly, keyed by node.
- A runtime executor of the gate graph. None exists in the code; the dependency walk over outcome labels is the most the data supports.
- Packing circuit operations into moments. A circuit is the list of operations in the order they are appended.
- The `isinstance(matrix, np.ndarray)` assertion in `decompose_into_pauli_2x2_basis`. Its input is modelled as rows of complex numbers, and a non-2x2 shape is the one modelled failure.
- GraphStates.QubitOf: an integer node in dimension 2 is a TypeError, because Python cannot unpack it with `*v`. A pair node in dimension 1 is passed to `LineQubit` unchanged. Whether `LineQubit` rejects it is not visible in this code, so the model assumes a TypeError there too.
- GraphStates.EdgeOp: the ValueError for a controlled phase on one qubit twice is the circuit library's own check, which is not visible in this code; the model raises it when the two endpoints resolve to the same qubit.
- GraphStates.GetQubit: a node lookup that finds a node without a qubit is modelled as IndexError. The contract states only the unknown-node and argument-count errors and the successful lookup.
- SingleQubit.Apply: outcome bits are integers 0 and 1. The source types them as floats, and `(-1) ** b` on other values is not modelled.

## Findings

| source | as written | input that shows it | evidently intended | confidence | as-written member | corrected member |
|---|---|---|---|---|---|---|
| source/mbqcirq/states/graph_states.py:52 | `raise NotImplemented` raises a constant that is not an exception, so Python 3 raises TypeError, the same error as a node that does not fit the dimension | a graph of dimension 3 with node 0, beside a graph of dimension 2 with node 0 | raise NotImplementedError, so an unsupported dimension is told apart from a malformed node | high; not executed | GraphStates.InitializeQubitsAsWritten, GraphStates.UnsupportedDimensionIndistinguishable | GraphStates.InitializeQubits, GraphStates.UnsupportedDimension |
| source/mbqcirq/measurements/projectors.py:72 | `Projector_Y.__init__` calls `super(Projector_X, self)`, and Python raises TypeError because a `Projector_Y` is not a `Projector_X` | `Projector_Y()` with any label | call `super(Projector_Y, self)`, as the other projectors do, so a Y projector is built with its label | high; not executed | Projectors.NewProjectorYAsWritten, Projectors.ProjectorYConstructionFails | Projectors.NewProjectorY |
