/**
 * Random node sampling: pick a fraction of the vertices of the original graph at random
 * (rejection sampling into a set) and keep the edges whose two endpoints were picked.
 */
module NodeSampling {
  import opened Graphs

  /** The fixed-point value of the sampling fraction 1.0; fractions are multiples of 1 / FractionUnit. */
  const FractionUnit: nat := 1_000_000

  /**
   * calculate_node_sampled_size: the vertex count times the fraction, truncated to an integer.
   * `fraction` is in units of 1 / FractionUnit.
   */
  function CalculateNodeSampledSize(sizeVertices: nat, fraction: nat): (required: nat)
    ensures fraction <= FractionUnit ==> required <= sizeVertices
    ensures fraction == FractionUnit ==> required == sizeVertices
  {
    var product := sizeVertices * fraction;
    assert fraction <= FractionUnit ==> product <= sizeVertices * FractionUnit;
    product / FractionUnit
  }

  /** The sampled size is the floor of SIZE_VERTICES * SAMPLING_FRACTION. */
  lemma CalculateNodeSampledSizeIsFloor(sizeVertices: nat, fraction: nat)
    ensures var required := CalculateNodeSampledSize(sizeVertices, fraction);
      required * FractionUnit <= sizeVertices * fraction < (required + 1) * FractionUnit
  {
  }

  /** Every drawn index lies in [0, SIZE_VERTICES - 1], the range of the uniform distribution. */
  predicate IndicesInRange(vertices: seq<int>, stream: seq<int>)
  {
    forall k :: 0 <= k < |stream| ==> 0 <= stream[k] < |vertices|
  }

  /** The set of vertices that the drawn indices `stream` point at. */
  function DrawnVertices(vertices: seq<int>, stream: seq<int>): (drawn: set<int>)
    requires IndicesInRange(vertices, stream)
    ensures |drawn| <= |stream|
  {
    if stream == [] then {}
    else
      var last := |stream| - 1;
      DrawnVertices(vertices, stream[..last]) + {vertices[stream[last]]}
  }

  /** Every drawn vertex is an element of the original graph's vertex list. */
  lemma {:induction false} DrawnVerticesInGraph(vertices: seq<int>, stream: seq<int>)
    requires IndicesInRange(vertices, stream)
    ensures DrawnVertices(vertices, stream) <= VertexSet(vertices)
  {
    if stream != [] {
      DrawnVerticesInGraph(vertices, stream[..|stream| - 1]);
    }
  }

  /**
   * The number of indices the rejection loop draws, starting its count at `from`: the first
   * prefix length at which the drawn vertices reach `required`, or the whole stream when no
   * prefix does.
   */
  function DrawsConsumed(vertices: seq<int>, stream: seq<int>, required: nat, from: nat): (consumed: nat)
    requires IndicesInRange(vertices, stream) && from <= |stream|
    ensures from <= consumed <= |stream|
    ensures consumed == |stream| || |DrawnVertices(vertices, stream[..consumed])| >= required
    decreases |stream| - from
  {
    if |DrawnVertices(vertices, stream[..from])| >= required || from == |stream| then from
    else DrawsConsumed(vertices, stream, required, from + 1)
  }

  /** While the target is not reached, one more draw does not change where the loop stops. */
  lemma DrawsConsumedStep(vertices: seq<int>, stream: seq<int>, required: nat, from: nat)
    requires IndicesInRange(vertices, stream) && from < |stream|
    requires |DrawnVertices(vertices, stream[..from])| < required
    ensures DrawsConsumed(vertices, stream, required, from) == DrawsConsumed(vertices, stream, required, from + 1)
  {
  }

  /** The vertex set node_selection_step returns when the random engine yields `stream`. */
  function SelectedNodes(vertices: seq<int>, stream: seq<int>, required: nat): (nodes: set<int>)
    requires IndicesInRange(vertices, stream)
    ensures nodes <= VertexSet(vertices)
    ensures |nodes| <= |stream|
  {
    var prefix := stream[..DrawsConsumed(vertices, stream, required, 0)];
    DrawnVerticesInGraph(vertices, prefix);
    DrawnVertices(vertices, prefix)
  }

  /** The rejection loop reached its target within `stream` (otherwise it would keep drawing). */
  predicate SelectionCompletes(vertices: seq<int>, stream: seq<int>, required: nat)
    requires IndicesInRange(vertices, stream)
  {
    |SelectedNodes(vertices, stream, required)| >= required
  }

  /** Each draw adds at most one vertex to the set. */
  lemma {:induction false} DrawnGrowsByAtMostOne(vertices: seq<int>, stream: seq<int>, n: nat)
    requires IndicesInRange(vertices, stream) && n < |stream|
    ensures DrawnVertices(vertices, stream[..n + 1])
         == DrawnVertices(vertices, stream[..n]) + {vertices[stream[n]]}
    ensures |DrawnVertices(vertices, stream[..n + 1])| <= |DrawnVertices(vertices, stream[..n])| + 1
  {
    assert stream[..n + 1][..n] == stream[..n];
  }

  /** Before the loop stops, every prefix it has drawn is still short of the target. */
  lemma {:induction false} DrawsConsumedIsFirst(vertices: seq<int>, stream: seq<int>, required: nat, from: nat, n: nat)
    requires IndicesInRange(vertices, stream) && from <= |stream|
    requires from <= n < DrawsConsumed(vertices, stream, required, from)
    ensures |DrawnVertices(vertices, stream[..n])| < required
    decreases |stream| - from
  {
    if n > from {
      DrawsConsumedIsFirst(vertices, stream, required, from + 1, n);
    }
  }

  /**
   * The selected set never overshoots the target, so a completed selection holds exactly
   * `required` vertices, and it holds no more vertices than indices were drawn.
   */
  lemma {:induction false} SelectedNodesSize(vertices: seq<int>, stream: seq<int>, required: nat)
    requires IndicesInRange(vertices, stream)
    ensures |SelectedNodes(vertices, stream, required)| <= required
    ensures |SelectedNodes(vertices, stream, required)| <= DrawsConsumed(vertices, stream, required, 0)
    ensures SelectionCompletes(vertices, stream, required)
        <==> |SelectedNodes(vertices, stream, required)| == required
  {
    var c := DrawsConsumed(vertices, stream, required, 0);
    if c > 0 {
      DrawsConsumedIsFirst(vertices, stream, required, 0, c - 1);
      DrawnGrowsByAtMostOne(vertices, stream, c - 1);
    }
  }

  /** The distinct vertices of the original graph. */
  function VertexSet(vertices: seq<int>): (distinct: set<int>)
    ensures forall v :: v in distinct <==> v in vertices
  {
    set v | v in vertices
  }

  /** A selection can only complete when the graph has at least `required` distinct vertices. */
  lemma SelectionNeedsEnoughVertices(vertices: seq<int>, stream: seq<int>, required: nat)
    requires IndicesInRange(vertices, stream)
    requires SelectionCompletes(vertices, stream, required)
    ensures required <= |VertexSet(vertices)|
  {
    var prefix := stream[..DrawsConsumed(vertices, stream, required, 0)];
    var selected := DrawnVertices(vertices, prefix);
    DrawnVerticesInGraph(vertices, prefix);
    assert selected <= VertexSet(vertices);
    SubsetCardinality(selected, VertexSet(vertices));
  }

  lemma SubsetCardinality(a: set<int>, b: set<int>)
    requires a <= b
    ensures |a| <= |b|
  {
    assert b == a + (b - a);
    assert a * (b - a) == {};
  }

  /** Once every index has been drawn, the drawn vertices are all the graph's vertices. */
  lemma {:induction false} DrawnAllIndices(vertices: seq<int>, stream: seq<int>)
    requires IndicesInRange(vertices, stream)
    requires forall j :: 0 <= j < |vertices| ==> j in stream
    ensures DrawnVertices(vertices, stream) == VertexSet(vertices)
  {
    DrawnVerticesInGraph(vertices, stream);
    forall v | v in VertexSet(vertices) ensures v in DrawnVertices(vertices, stream) {
      var j :| 0 <= j < |vertices| && vertices[j] == v;
      assert j in stream;
      var k :| 0 <= k < |stream| && stream[k] == j;
      DrawnContainsEveryDraw(vertices, stream, k);
    }
  }

  /** The vertex behind each drawn index is in the drawn set. */
  lemma {:induction false} DrawnContainsEveryDraw(vertices: seq<int>, stream: seq<int>, k: nat)
    requires IndicesInRange(vertices, stream) && k < |stream|
    ensures vertices[stream[k]] in DrawnVertices(vertices, stream)
    decreases |stream|
  {
    var last := |stream| - 1;
    if k < last {
      DrawnContainsEveryDraw(vertices, stream[..last], k);
    }
  }

  /**
   * The rejection loop terminates on every stream that eventually draws every index, as long
   * as the target does not exceed the number of distinct vertices.
   */
  lemma SelectionCompletesOnFullSweep(vertices: seq<int>, stream: seq<int>, required: nat)
    requires IndicesInRange(vertices, stream)
    requires forall j :: 0 <= j < |vertices| ==> j in stream
    requires required <= |VertexSet(vertices)|
    ensures SelectionCompletes(vertices, stream, required)
  {
    var c := DrawsConsumed(vertices, stream, required, 0);
    if c == |stream| && |DrawnVertices(vertices, stream[..c])| < required {
      assert stream[..c] == stream;
      DrawnAllIndices(vertices, stream);
    }
  }

  /**
   * induction_step's result: the edges (source[k], destination[k]), in increasing k, whose
   * two endpoints are both in `nodes`.
   */
  function InducedEdges(source: seq<int>, destination: seq<int>, nodes: set<int>): (edges: seq<Edge>)
    requires |source| <= |destination|
    ensures |edges| <= |source|
  {
    if source == [] then []
    else
      var last := |source| - 1;
      InducedEdges(source[..last], destination, nodes)
        + (if source[last] in nodes && destination[last] in nodes
           then [Edge(source[last], destination[last])] else [])
  }

  /** An edge is kept exactly when it occurs at some index of the input and both its endpoints are sampled. */
  lemma {:induction false} InducedEdgesMembership(source: seq<int>, destination: seq<int>, nodes: set<int>, e: Edge)
    requires |source| <= |destination|
    ensures e in InducedEdges(source, destination, nodes)
        <==> (e.source in nodes && e.destination in nodes
              && exists k :: 0 <= k < |source| && e == Edge(source[k], destination[k]))
  {
    if source != [] {
      var last := |source| - 1;
      InducedEdgesMembership(source[..last], destination, nodes, e);
      if e.source in nodes && e.destination in nodes {
        if k :| 0 <= k < |source| && e == Edge(source[k], destination[k]) {
          if k < last {
            assert source[..last][k] == source[k];
          }
        }
      }
    }
  }

  /** Closure: both endpoints of every kept edge are sampled vertices. */
  lemma {:induction false} InducedEdgesClosed(source: seq<int>, destination: seq<int>, nodes: set<int>)
    requires |source| <= |destination|
    ensures forall e :: e in InducedEdges(source, destination, nodes) ==> e.source in nodes && e.destination in nodes
  {
    if source != [] {
      InducedEdgesClosed(source[..|source| - 1], destination, nodes);
    }
  }

  /** Order is preserved: the result for a prefix of the edge list is a prefix of the whole result. */
  lemma {:induction false} InducedEdgesPrefix(source: seq<int>, destination: seq<int>, nodes: set<int>, m: nat)
    requires |source| <= |destination| && m <= |source|
    ensures InducedEdges(source[..m], destination, nodes) <= InducedEdges(source, destination, nodes)
    decreases |source|
  {
    if m < |source| {
      var last := |source| - 1;
      assert source[..last][..m] == source[..m];
      InducedEdgesPrefix(source[..last], destination, nodes, m);
    } else {
      assert source[..m] == source;
    }
  }

  /** Identity: when every endpoint is sampled, the whole edge list is kept. */
  lemma {:induction false} InducedEdgesIdentity(source: seq<int>, destination: seq<int>, nodes: set<int>)
    requires |source| <= |destination|
    requires forall k :: 0 <= k < |source| ==> source[k] in nodes && destination[k] in nodes
    ensures InducedEdges(source, destination, nodes) == EdgeList(source, destination)
  {
    if source != [] {
      var last := |source| - 1;
      InducedEdgesIdentity(source[..last], destination, nodes);
      assert EdgeList(source, destination)
          == EdgeList(source[..last], destination) + [Edge(source[last], destination[last])];
    }
  }

  /**
   * The sampler: the vertex list of the original graph (read from the graph loader; its
   * length is SIZE_VERTICES) and the SAMPLING_FRACTION field, which callers overwrite.
   */
  class RandomNodeSampling {
    const verticesOriginalGraph: seq<int>
    var samplingFraction: nat

    constructor (verticesOriginalGraph: seq<int>, samplingFraction: nat)
      ensures this.verticesOriginalGraph == verticesOriginalGraph
      ensures this.samplingFraction == samplingFraction
    {
      this.verticesOriginalGraph := verticesOriginalGraph;
      this.samplingFraction := samplingFraction;
    }

    /**
     * node_selection_step: draw indices from `stream` (the random engine's output) and insert
     * the vertices they point at until the set holds calculate_node_sampled_size() vertices.
     * `complete` is false when the stream ran out first; the source would keep drawing.
     */
    method NodeSelectionStep(stream: seq<int>) returns (randomNodeVertices: set<int>, complete: bool)
      requires IndicesInRange(verticesOriginalGraph, stream)
      ensures randomNodeVertices
           == SelectedNodes(verticesOriginalGraph, stream,
                            CalculateNodeSampledSize(|verticesOriginalGraph|, samplingFraction))
      ensures complete <==> |randomNodeVertices| == CalculateNodeSampledSize(|verticesOriginalGraph|, samplingFraction)
      ensures complete == SelectionCompletes(verticesOriginalGraph, stream,
                                             CalculateNodeSampledSize(|verticesOriginalGraph|, samplingFraction))
      ensures forall v :: v in randomNodeVertices ==> v in verticesOriginalGraph
    {
      var required := CalculateNodeSampledSize(|verticesOriginalGraph|, samplingFraction);
      randomNodeVertices := {};
      var drawn := 0;
      assert stream[..0] == [];
      while |randomNodeVertices| < required && drawn < |stream|
        invariant drawn <= |stream|
        invariant randomNodeVertices == DrawnVertices(verticesOriginalGraph, stream[..drawn])
        invariant DrawsConsumed(verticesOriginalGraph, stream, required, drawn)
               == DrawsConsumed(verticesOriginalGraph, stream, required, 0)
        decreases |stream| - drawn
      {
        var randomVertexIndex := stream[drawn];
        randomNodeVertices := randomNodeVertices + {verticesOriginalGraph[randomVertexIndex]};
        DrawnGrowsByAtMostOne(verticesOriginalGraph, stream, drawn);
        DrawsConsumedStep(verticesOriginalGraph, stream, required, drawn);
        drawn := drawn + 1;
      }
      assert DrawsConsumed(verticesOriginalGraph, stream, required, drawn) == drawn;
      SelectedNodesSize(verticesOriginalGraph, stream, required);
      DrawnVerticesInGraph(verticesOriginalGraph, stream[..drawn]);
      complete := |randomNodeVertices| == required;
    }

    /** induction_step: keep, in order, the edges whose two endpoints are in `randomNodes`. */
    method InductionStep(sourceVertices: seq<int>, destinationVertices: seq<int>, randomNodes: set<int>)
      returns (edges: seq<Edge>)
      requires |sourceVertices| <= |destinationVertices|
      ensures edges == InducedEdges(sourceVertices, destinationVertices, randomNodes)
    {
      edges := [];
      var edgeIndex := 0;
      while edgeIndex < |sourceVertices|
        invariant edgeIndex <= |sourceVertices|
        invariant edges == InducedEdges(sourceVertices[..edgeIndex], destinationVertices, randomNodes)
      {
        assert sourceVertices[..edgeIndex + 1][..edgeIndex] == sourceVertices[..edgeIndex];
        if sourceVertices[edgeIndex] in randomNodes && destinationVertices[edgeIndex] in randomNodes {
          edges := edges + [Edge(sourceVertices[edgeIndex], destinationVertices[edgeIndex])];
        }
        edgeIndex := edgeIndex + 1;
      }
      assert sourceVertices[..edgeIndex] == sourceVertices;
    }
  }
}
