/** Shared value types of the graph tool. */
module Graphs {

  /** A directed edge between two vertex ids of one (sub-)graph. */
  datatype Edge = Edge(source: int, destination: int)

  /** The edges held by the parallel source/destination vectors of a COO edge list. */
  function EdgeList(source: seq<int>, destination: seq<int>): (edges: seq<Edge>)
    requires |source| <= |destination|
    ensures |edges| == |source|
    ensures forall k :: 0 <= k < |source| ==> edges[k] == Edge(source[k], destination[k])
  {
    seq(|source|, k requires 0 <= k < |source| => Edge(source[k], destination[k]))
  }
}
