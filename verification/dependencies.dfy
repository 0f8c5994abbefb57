/** The ordering discipline of an operation dictionary, reduced to what it says about
    outcome labels: each node reads some labels (the outcomes its parameter functions
    depend on) and writes some labels (the outcomes its measurements record). A walk
    over the nodes in a given order succeeds when every node finds the labels it reads
    already written. */
module Dependencies {
  import opened Results

  /** The labels one node reads and the labels it writes. */
  datatype Step = Step(inputs: set<string>, outputs: set<string>)

  /** The labels written by the nodes numbered below n. */
  function ProducedBefore(steps: map<nat, Step>, n: nat): set<string> {
    if n == 0 then {}
    else ProducedBefore(steps, n - 1) + (if n - 1 in steps then steps[n - 1].outputs else {})
  }

  /** Every label node n reads is written by a node numbered below it. */
  predicate DependenciesWrittenBefore(steps: map<nat, Step>, n: nat)
    requires n in steps
  {
    steps[n].inputs <= ProducedBefore(steps, n)
  }

  predicate TopologicallyValid(steps: map<nat, Step>) {
    forall n :: n in steps ==> DependenciesWrittenBefore(steps, n)
  }

  /** Every node from k up to n reads only labels written below it. */
  predicate ValidFrom(steps: map<nat, Step>, k: nat, n: nat)
    requires forall m: nat :: m < n ==> m in steps
  {
    forall m: nat :: k <= m < n ==> DependenciesWrittenBefore(steps, m)
  }

  /** Visits the nodes in `order`, tracking the set of labels written so far; a node
      missing from the dictionary is a KeyError, and a node whose dependencies are not
      all written yet fails with the missing labels. */
  function Walk(steps: map<nat, Step>, order: seq<nat>, produced: set<string>): (r: Result<set<string>>)
    ensures r.Ok? ==> produced <= r.value
    ensures r.Err? ==> r.error == KeyError || (r.error.MissingDependencies? && r.error.labels != {})
  {
    if |order| == 0 then Ok(produced)
    else if order[0] !in steps then Err(KeyError)
    else
      var step := steps[order[0]];
      if !(step.inputs <= produced) then
        assert step.inputs - produced != {} by {
          var l :| l in step.inputs && l !in produced;
          assert l in step.inputs - produced;
        }
        Err(MissingDependencies(step.inputs - produced))
      else Walk(steps, order[1..], produced + step.outputs)
  }

  /** The nodes k, k+1, ..., n-1. */
  function Ascending(k: nat, n: nat): (s: seq<nat>)
    requires k <= n
    ensures |s| == n - k && forall i :: 0 <= i < |s| ==> s[i] == k + i
  {
    seq(n - k, i => k + i)
  }

  /** A label is written before node n exactly when some node below n writes it. */
  lemma {:induction false} ProducedBeforeMeans(steps: map<nat, Step>, n: nat, l: string)
    ensures l in ProducedBefore(steps, n) <==> exists m: nat :: m < n && m in steps && l in steps[m].outputs
  {
    if n > 0 {
      ProducedBeforeMeans(steps, n - 1, l);
      if l in ProducedBefore(steps, n) && l !in ProducedBefore(steps, n - 1) {
        assert n - 1 in steps && l in steps[n - 1].outputs;
      }
    }
  }

  lemma ValidFromStep(steps: map<nat, Step>, k: nat, n: nat)
    requires k < n
    requires forall m: nat :: m < n ==> m in steps
    ensures ValidFrom(steps, k, n) <==> DependenciesWrittenBefore(steps, k) && ValidFrom(steps, k + 1, n)
  {
  }

  lemma AscendingStep(k: nat, n: nat)
    requires k < n
    ensures Ascending(k, n)[0] == k && Ascending(k, n)[1..] == Ascending(k + 1, n)
  {
  }

  /** Walking nodes k..n-1 in order, starting from the labels written below k, succeeds
      exactly when each of those nodes reads only labels written below it, and then ends
      having written every label written below n. */
  lemma {:induction false} WalkFrom(steps: map<nat, Step>, k: nat, n: nat)
    requires k <= n
    requires forall m: nat :: m < n ==> m in steps
    ensures Walk(steps, Ascending(k, n), ProducedBefore(steps, k)).Ok? <==> ValidFrom(steps, k, n)
    ensures Walk(steps, Ascending(k, n), ProducedBefore(steps, k)).Ok? ==>
              Walk(steps, Ascending(k, n), ProducedBefore(steps, k)).value == ProducedBefore(steps, n)
    decreases n - k
  {
    if k == n {
      assert Ascending(k, n) == [];
    } else {
      AscendingStep(k, n);
      assert ProducedBefore(steps, k + 1) == ProducedBefore(steps, k) + steps[k].outputs;
      WalkFrom(steps, k + 1, n);
      ValidFromStep(steps, k, n);
    }
  }

  /** For a dictionary on nodes 0..n-1, walking the nodes in ascending order finds every
      dependency already written exactly when the dictionary is topologically valid, and
      then ends having written every node's labels. */
  lemma AscendingWalkSucceedsIffValid(steps: map<nat, Step>, n: nat)
    requires forall m: nat :: m in steps <==> m < n
    ensures Walk(steps, Ascending(0, n), {}).Ok? <==> TopologicallyValid(steps)
    ensures Walk(steps, Ascending(0, n), {}).Ok? ==> Walk(steps, Ascending(0, n), {}).value == ProducedBefore(steps, n)
  {
    WalkFrom(steps, 0, n);
    assert ValidFrom(steps, 0, n) <==> TopologicallyValid(steps);
  }
}
