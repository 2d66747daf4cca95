/**
  Label-graph (finite-state acceptor) builders for the CTC and ASG training
  criteria.  An automaton is a state count together with an ordered list of
  edges (from, to, symbol, weight); state 0 is the start state and, by
  convention, state numStates - 1 is the single final state.

  The builders append edges to a growing list, one block per position of the
  label sequence.  Each builder is modelled as a method whose loop keeps the
  list equal to a specification function over the positions processed so far.
*/
module Fsa {

  /** Every edge the builders emit carries this structural placeholder weight. */
  const UnitWeight: real := 1.0

  /** An edge of the acceptor.  State ids are rendered as strings by the
      builders; here they are the numbers those strings spell. */
  datatype Edge = Edge(src: nat, dst: nat, symbol: nat, weight: real)

  /** The edge the builders append for a (from, to, symbol) triple. */
  function Arc(src: nat, dst: nat, symbol: nat): Edge
  {
    Edge(src, dst, symbol, UnitWeight)
  }

  // ---------------------------------------------------------------------------
  // Graph vocabulary shared by the properties of both builders
  // ---------------------------------------------------------------------------

  /** Some edge of the list leads directly from state a to state b. */
  ghost predicate Connected(edges: seq<Edge>, a: nat, b: nat)
  {
    exists j :: 0 <= j < |edges| && edges[j].src == a && edges[j].dst == b
  }

  /** p is a walk through the graph from a to b. */
  ghost predicate IsPath(edges: seq<Edge>, p: seq<nat>, a: nat, b: nat)
  {
    && |p| >= 1 && p[0] == a && p[|p| - 1] == b
    && forall k :: 0 <= k < |p| - 1 ==> Connected(edges, p[k], p[k + 1])
  }

  /** State s has an edge to its successor s + 1. */
  ghost predicate StepsForward(edges: seq<Edge>, s: nat)
  {
    Connected(edges, s, s + 1)
  }

  ghost predicate Reachable(edges: seq<Edge>, a: nat, b: nat)
  {
    exists p :: IsPath(edges, p, a, b)
  }

  /** The consecutive states a, a+1, ..., b. */
  function Span(a: nat, b: nat): (p: seq<nat>)
    requires a <= b
    ensures |p| == b - a + 1
    ensures forall k :: 0 <= k < |p| ==> p[k] == a + k
    decreases b - a
  {
    if a == b then [a] else [a] + Span(a + 1, b)
  }

  // ---------------------------------------------------------------------------
  // CTC: specification of the edge list
  // ---------------------------------------------------------------------------

  /** The label the skip test compares position m's label with.  The source indexes
      label_seq[m - 1], which for m = 0 is Python's index -1: the LAST label. */
  function Predecessor(labelSeq: seq<int>, m: nat): int
    requires m < |labelSeq|
  {
    if m == 0 then labelSeq[|labelSeq| - 1] else labelSeq[m - 1]
  }

  /** Position m gets a skip edge exactly when its label differs from its predecessor. */
  predicate HasSkip(labelSeq: seq<int>, m: nat)
    requires m < |labelSeq|
  {
    labelSeq[m] != Predecessor(labelSeq, m)
  }

  /** The edges appended for position m, in order.  The base state is 2*m; the
      blank is the symbol numLabels and the symbol of the two label edges
      is the position m itself (not labelSeq[m]). */
  function CtcBlockEdges(labelSeq: seq<int>, m: nat, numLabels: nat): (block: seq<Edge>)
    requires m < |labelSeq|
    ensures |block| == if HasSkip(labelSeq, m) then 5 else 4
  {
    var i := 2 * m;
    [Arc(i, i + 1, numLabels), Arc(i + 1, i + 1, numLabels), Arc(i + 1, i + 2, m), Arc(i + 2, i + 2, m)]
      + (if HasSkip(labelSeq, m) then [Arc(i, i + 2, m)] else [])
  }

  /** The edge list after positions 0 .. k-1 have been processed. */
  function CtcBlocks(labelSeq: seq<int>, k: nat, numLabels: nat): (edges: seq<Edge>)
    requires k <= |labelSeq|
    decreases k
  {
    if k == 0 then [] else CtcBlocks(labelSeq, k - 1, numLabels) + CtcBlockEdges(labelSeq, k - 1, numLabels)
  }

  /** The four closing edges into the new final state i = numStates. */
  function CtcLastEdges(numStates: nat, position: nat, numLabels: nat): (last: seq<Edge>)
    requires numStates >= 3
    ensures |last| == 4
  {
    var i := numStates;
    [Arc(i - 1, i, numLabels), Arc(i, i, numLabels), Arc(i - 2, i, position), Arc(i - 3, i, position)]
  }

  /** The complete CTC edge list: every position block, then the final stage,
      which receives the last position index L - 1 and the count 2*L + 1. */
  function CtcEdges(numLabels: nat, labelSeq: seq<int>): (edges: seq<Edge>)
    requires |labelSeq| >= 1
  {
    CtcBlocks(labelSeq, |labelSeq|, numLabels) + CtcLastEdges(2 * |labelSeq| + 1, |labelSeq| - 1, numLabels)
  }

  /** The role of a CTC edge in an acceptor for numPositions labels: a label
      edge enters a label state (an even state), or enters the final state
      2*numPositions + 1 from one of the two states below the blank state
      2*numPositions.  Every other edge is a blank edge. */
  predicate IsCtcLabelEdge(e: Edge, numPositions: nat)
  {
    e.dst % 2 == 0 || (e.dst == 2 * numPositions + 1 && e.src < 2 * numPositions)
  }

  /** Number of positions among 0 .. k-1 that get a skip edge. */
  function SkipCount(labelSeq: seq<int>, k: nat): (n: nat)
    requires k <= |labelSeq|
    ensures n <= k
    decreases k
  {
    if k == 0 then 0 else SkipCount(labelSeq, k - 1) + (if HasSkip(labelSeq, k - 1) then 1 else 0)
  }

  /** Index in the edge list of the first edge of position m's block. */
  function BlockOffset(labelSeq: seq<int>, m: nat): (offset: nat)
    requires m <= |labelSeq|
  {
    4 * m + SkipCount(labelSeq, m)
  }

  // ---------------------------------------------------------------------------
  // CTC: the builder
  // ---------------------------------------------------------------------------

  /** One position of the CTC builder: appends the block of `position` to
      `edges` and reports the state count 2*(position+2) - 1.  The incoming
      state count is not read. */
  method CreateStatesFromLabelForCtc(labelSeq: seq<int>, position: nat, numStates: nat, numLabels: nat, edges: seq<Edge>)
    returns (newNumStates: nat, newEdges: seq<Edge>)
    requires position < |labelSeq|
    ensures newNumStates == 2 * position + 3
    ensures newEdges == edges + CtcBlockEdges(labelSeq, position, numLabels)
    ensures newEdges[..|edges|] == edges
  {
    var i := 2 * (position + 1) - 2;
    newEdges := edges;
    newEdges := newEdges + [Arc(i, i + 1, numLabels)];
    newEdges := newEdges + [Arc(i + 1, i + 1, numLabels)];
    newEdges := newEdges + [Arc(i + 1, i + 2, position)];
    newEdges := newEdges + [Arc(i + 2, i + 2, position)];
    var previous := if position == 0 then labelSeq[|labelSeq| - 1] else labelSeq[position - 1];
    if labelSeq[position] != previous {
      newEdges := newEdges + [Arc(i, i + 2, position)];
    }
    newNumStates := 2 * (position + 2) - 1;
  }

  /** The final stage of the CTC builder: a new final state numStates, entered
      by blank from numStates-1 and by `position` from numStates-2 and
      numStates-3, with a blank self-loop. */
  method CreateLastStateForCtc(labelSeq: seq<int>, position: nat, numStates: nat, numLabels: nat, edges: seq<Edge>)
    returns (newNumStates: nat, newEdges: seq<Edge>)
    requires numStates >= 3
    ensures newNumStates == numStates + 1
    ensures newEdges == edges + CtcLastEdges(numStates, position, numLabels)
    ensures newEdges[..|edges|] == edges
  {
    var i := numStates;
    newEdges := edges;
    newEdges := newEdges + [Arc(i - 1, i, numLabels)];
    newEdges := newEdges + [Arc(i, i, numLabels)];
    newEdges := newEdges + [Arc(i - 2, i, position)];
    newEdges := newEdges + [Arc(i - 3, i, position)];
    newNumStates := numStates + 1;
  }

  /** The CTC acceptor for a label sequence.  An empty sequence is excluded:
      the source then reaches the final stage with its loop variable unbound. */
  method CtcFsaForLabelSeq(numLabels: nat, labelSeq: seq<int>) returns (numStates: nat, edges: seq<Edge>)
    requires |labelSeq| >= 1
    ensures numStates == 2 * |labelSeq| + 2
    ensures edges == CtcEdges(numLabels, labelSeq)
  {
    numStates := 0;
    edges := [];
    var last: nat := 0;  // the loop variable as it stands after the loop
    for m := 0 to |labelSeq|
      invariant m > 0 ==> last == m - 1
      invariant numStates == if m == 0 then 0 else 2 * m + 1
      invariant edges == CtcBlocks(labelSeq, m, numLabels)
    {
      numStates, edges := CreateStatesFromLabelForCtc(labelSeq, m, numStates, numLabels, edges);
      last := m;
    }
    numStates, edges := CreateLastStateForCtc(labelSeq, last, numStates, numLabels, edges);
  }

  // ---------------------------------------------------------------------------
  // ASG
  // ---------------------------------------------------------------------------

  /** The two edges appended for position m: base state m (the position, not
      the label value labelSeq[m]), a forward edge and a self-loop, both with symbol m. */
  function AsgBlockEdges(m: nat): (block: seq<Edge>)
    ensures |block| == 2
  {
    [Arc(m, m + 1, m), Arc(m + 1, m + 1, m)]
  }

  /** The ASG edge list after positions 0 .. k-1. */
  function AsgChain(k: nat): (edges: seq<Edge>)
    decreases k
  {
    if k == 0 then [] else AsgChain(k - 1) + AsgBlockEdges(k - 1)
  }

  /** One position of the ASG builder; the state count is reset to numLabels. */
  method CreateStatesFromLabelForAsg(position: nat, numLabels: nat, edges: seq<Edge>)
    returns (numStates: nat, newEdges: seq<Edge>)
    ensures numStates == numLabels
    ensures newEdges == edges + AsgBlockEdges(position)
    ensures newEdges[..|edges|] == edges
  {
    var i := position;
    newEdges := edges;
    newEdges := newEdges + [Arc(i, i + 1, position)];
    newEdges := newEdges + [Arc(i + 1, i + 1, position)];
    numStates := numLabels;
  }

  /** The ASG acceptor: (0, []) for an empty sequence, otherwise numLabels
      states and the chain of 2*L edges. */
  method AsgFsaForLabelSeq(numLabels: nat, labelSeq: seq<int>) returns (numStates: nat, edges: seq<Edge>)
    ensures numStates == if |labelSeq| == 0 then 0 else numLabels
    ensures edges == AsgChain(|labelSeq|)
  {
    numStates := 0;
    edges := [];
    for m := 0 to |labelSeq|
      invariant numStates == if m == 0 then 0 else numLabels
      invariant edges == AsgChain(m)
    {
      numStates, edges := CreateStatesFromLabelForAsg(m, numLabels, edges);
    }
  }
}
