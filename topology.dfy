/** The graph topology: adjacency in compressed sparse row (CSR) form, held as
    two optional arrays. `outIndices[n]` is the number of edges of nodes
    0..n together (so node n's edges are `outDests[outIndices[n-1] .. outIndices[n]]`,
    with 0 in place of `outIndices[-1]`), and `outDests` lists edge targets. */
module Topology {
  import opened Results

  newtype uint64 = x: int | 0 <= x < 0x1_0000_0000_0000_0000
  newtype uint32 = x: int | 0 <= x < 0x1_0000_0000

  /** Either array may be absent (a null `shared_ptr`): that is an empty topology. */
  datatype GraphTopology = GraphTopology(outIndices: Option<seq<uint64>>, outDests: Option<seq<uint32>>)

  const EmptyTopology: GraphTopology := GraphTopology(None, None)

  /** The number of nodes: the length of `outIndices`, or 0 without it. */
  function NumNodes(t: GraphTopology): (n: nat)
    ensures t.outIndices.None? ==> n == 0
    ensures t.outIndices.Some? ==> n == |t.outIndices.value|
  {
    match t.outIndices
    case None => 0
    case Some(a) => |a|
  }

  /** The number of edges: the length of `outDests`, or 0 without it. */
  function NumEdges(t: GraphTopology): (n: nat)
    ensures t.outDests.None? ==> n == 0
    ensures t.outDests.Some? ==> n == |t.outDests.value|
  {
    match t.outDests
    case None => 0
    case Some(a) => |a|
  }

  /** `outIndices`, with an absent array read as empty. */
  function Offsets(t: GraphTopology): (o: seq<uint64>)
    ensures |o| == NumNodes(t)
  {
    if t.outIndices.Some? then t.outIndices.value else []
  }

  /** `outDests`, with an absent array read as empty. */
  function Dests(t: GraphTopology): (d: seq<uint32>)
    ensures |d| == NumEdges(t)
  {
    if t.outDests.Some? then t.outDests.value else []
  }

  /** CSR well-formedness, which the graph's post-load check is taken to
      enforce: offsets never decrease, the last offset is the edge count (no
      edges without nodes), and every destination names a node. */
  predicate WellFormed(t: GraphTopology) {
    var o, d := Offsets(t), Dests(t);
    && (forall i :: 0 < i < |o| ==> o[i - 1] <= o[i])
    && (if |o| == 0 then |d| == 0 else o[|o| - 1] as int == |d|)
    && (forall k :: 0 <= k < |d| ==> (d[k] as int) < |o|)
  }

  /** Where node `n`'s edges start in `outDests`. */
  function EdgeBegin(t: GraphTopology, n: nat): nat
    requires n < NumNodes(t)
  {
    if n == 0 then 0 else Offsets(t)[n - 1] as int
  }

  /** Where node `n`'s edges end in `outDests` (exclusive). */
  function EdgeEnd(t: GraphTopology, n: nat): nat
    requires n < NumNodes(t)
  {
    Offsets(t)[n] as int
  }

  /** Offsets are ordered between any two positions, not only adjacent ones. */
  lemma {:induction false} OffsetsOrdered(t: GraphTopology, i: nat, j: nat)
    requires WellFormed(t) && i <= j < NumNodes(t)
    ensures Offsets(t)[i] <= Offsets(t)[j]
    decreases j - i
  {
    if i < j {
      OffsetsOrdered(t, i, j - 1);
    }
  }

  /** In a well-formed topology every node's edge range lies inside `outDests`. */
  lemma EdgeRangeWithin(t: GraphTopology, n: nat)
    requires WellFormed(t) && n < NumNodes(t)
    ensures EdgeBegin(t, n) <= EdgeEnd(t, n) <= NumEdges(t)
  {
    OffsetsOrdered(t, n, NumNodes(t) - 1);
  }

  /** The targets of node `n`'s outgoing edges; each is a node of the graph. */
  function Neighbors(t: GraphTopology, n: nat): (ns: seq<uint32>)
    requires WellFormed(t) && n < NumNodes(t)
    ensures |ns| == EdgeEnd(t, n) - EdgeBegin(t, n)
    ensures forall k :: 0 <= k < |ns| ==> (ns[k] as int) < NumNodes(t)
  {
    EdgeRangeWithin(t, n);
    Dests(t)[EdgeBegin(t, n)..EdgeEnd(t, n)]
  }

  /** The out-degrees of nodes `0 .. k-1` added up. */
  function DegreeSum(t: GraphTopology, k: nat): nat
    requires WellFormed(t) && k <= NumNodes(t)
  {
    if k == 0 then 0 else DegreeSum(t, k - 1) + |Neighbors(t, k - 1)|
  }

  lemma {:induction false} DegreeSumIsOffset(t: GraphTopology, k: nat)
    requires WellFormed(t) && 0 < k <= NumNodes(t)
    ensures DegreeSum(t, k) == Offsets(t)[k - 1] as int
  {
    EdgeRangeWithin(t, k - 1);
    if k > 1 {
      DegreeSumIsOffset(t, k - 1);
    }
  }

  /** The neighbour lists of all nodes together account for every edge once:
      `numEdges()` is the sum of the out-degrees. */
  lemma DegreesCoverEdges(t: GraphTopology)
    requires WellFormed(t)
    ensures DegreeSum(t, NumNodes(t)) == NumEdges(t)
  {
    if NumNodes(t) > 0 {
      DegreeSumIsOffset(t, NumNodes(t));
    }
  }
}
