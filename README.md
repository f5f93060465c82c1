# Graph shrinking and expanding: sampling, labelling and identifiers

This project models the sequential core of a graph scaling tool. The tool grows an input graph
by sampling it several times into labelled sub-graphs. It does three things that are modelled
here:

- **Random node sampling** (`RandomNodeSampling.cpp`, module `NodeSampling` in
  `node_sampling.dfy`).
  - The node selection step is a rejection loop. It draws random vertex indices and inserts the
    vertices they name into a set until the set holds `calculate_node_sampled_size()`
    vertices.
  - The induction step keeps, in order, the edges whose two endpoints were selected.
- **Expansion** (`Expanding.cpp`, modules `Expanding` and `GpuExpanding` in `expanding.dfy`).
  - The number of sub-graphs is `trunc(S / f)`, plus one when `fmod(S, f)` is positive. The last
    sub-graph is sampled with that residual fraction.
  - Sub-graph `i` gets the `i`-th two-letter label from a base-26 counter over `'a'..'z'`. The
    first letter changes fastest. Stepping past `"zz"` exits.
  - Both expansion loops are modelled: `expand_graph_random_node_sampling` (CPU) and
    `expand_graph` (CUDA), together with the kernel launch geometry (`get_thread_size`,
    `get_block_size`).
- **Identifier tracking** (`IdentifierTracker.cpp`, module `IdentifierTracking` in
  `identifier_tracker.dfy`). A counter starts at 51. Each call turns the counter into the
  identifier `'a' + idx mod 26` followed by `'a' + idx / 26`, then increments the counter.

Modelling choices:

- **Fixed-point numbers.** Sampling fractions and the scaling factor are non-negative integers
  in units of `1 / FractionUnit`, where `FractionUnit = 1_000_000` stands for 1.0.
  - `trunc(S / f)` becomes `S / f` and `fmod(S, f)` becomes `S % f`.
  - `int(SIZE_VERTICES * SAMPLING_FRACTION)` becomes `SIZE_VERTICES * f / FractionUnit`.
  - The fraction must be positive, because the source divides by it.
- **Randomness.** The random engine is an index stream: a finite `seq<int>` of indices in
  `[0, SIZE_VERTICES - 1]`. The expansion loops take `draws(i)`, the stream iteration `i` sees.
- **Vertex count.** `SIZE_VERTICES` is assumed equal to the length of the original graph's vertex
  list. The graph loader that sets both is not part of this model; the source indexes
  `vertices_original_graph` with indices up to `SIZE_VERTICES - 1`.
- **One-byte chars.** The identifier's second character is computed on a one-byte `char`, so
  it wraps modulo 256. The model writes this wrap-around out.

## Label limit

`increment_labels` (Expanding.cpp:119) also runs after the last sub-graph's label is assigned
(lines 116-117). A run of 676 sub-graphs therefore exits in its last iteration, although 676
labels exist: the call starts from `"zz"` and exits (lines 255-258). The model states this:

- `ExpandGraph` ends with `completed` exactly when `SampleCount(S, f) < LabelCount`.
- `ExpandGraphRandomNodeSampling` returns `LabelLimitReached` after filling 675 slots.

## Model

| member | source | states |
|---|---|---|
| NodeSampling.CalculateNodeSampledSize | GraphShrinkingExpanding/sampling/RandomNodeSampling.cpp:68-70 | The sampled size is at most SIZE_VERTICES when the fraction is at most 1. It equals SIZE_VERTICES at fraction 1. |
| NodeSampling.CalculateNodeSampledSizeIsFloor | GraphShrinkingExpanding/sampling/RandomNodeSampling.cpp:68-70 | The sampled size is the floor of SIZE_VERTICES × fraction. |
| NodeSampling.DrawnVertices | GraphShrinkingExpanding/sampling/RandomNodeSampling.cpp:43-47 | Inserting the vertex of each drawn index gives a set no larger than the number of draws. |
| NodeSampling.DrawnVerticesInGraph | GraphShrinkingExpanding/sampling/RandomNodeSampling.cpp:41-46 | Every inserted vertex is an element of the original graph's vertex list. |
| NodeSampling.DrawsConsumed | GraphShrinkingExpanding/sampling/RandomNodeSampling.cpp:43-47 | The loop stops at a prefix of the stream. That prefix is the whole stream, or the set drawn from it has reached the target. |
| NodeSampling.DrawsConsumedIsFirst | GraphShrinkingExpanding/sampling/RandomNodeSampling.cpp:43 | Every shorter prefix is still below the target, so the loop stops at the first prefix that reaches it. |
| NodeSampling.SelectedNodes | GraphShrinkingExpanding/sampling/RandomNodeSampling.cpp:43-49 | The set the selection returns holds only vertices of the original graph, and no more of them than indices were drawn. |
| NodeSampling.DrawnGrowsByAtMostOne | GraphShrinkingExpanding/sampling/RandomNodeSampling.cpp:45-46 | One more draw adds exactly the vertex at the drawn index, so the set grows by at most one. |
| NodeSampling.SelectedNodesSize | GraphShrinkingExpanding/sampling/RandomNodeSampling.cpp:43-49 | The returned set never exceeds the target or the number of draws. The selection completes exactly when the set's size equals the target. |
| NodeSampling.SelectionNeedsEnoughVertices | GraphShrinkingExpanding/sampling/RandomNodeSampling.cpp:43-47 | The loop can only reach its target if the graph has at least that many distinct vertices. |
| NodeSampling.DrawnContainsEveryDraw | GraphShrinkingExpanding/sampling/RandomNodeSampling.cpp:45-46 | The vertex of every drawn index is in the drawn set. |
| NodeSampling.DrawnAllIndices | GraphShrinkingExpanding/sampling/RandomNodeSampling.cpp:44-46 | A stream that draws every index yields exactly the graph's distinct vertices. |
| NodeSampling.SelectionCompletesOnFullSweep | GraphShrinkingExpanding/sampling/RandomNodeSampling.cpp:43-47 | If a stream draws every index and the target is at most the distinct-vertex count, the loop reaches its target. |
| NodeSampling.InducedEdges | GraphShrinkingExpanding/sampling/RandomNodeSampling.cpp:56-63 | The kept edges are no more than the input edges. |
| NodeSampling.InducedEdgesMembership | GraphShrinkingExpanding/sampling/RandomNodeSampling.cpp:56-63 | An edge is kept if and only if it is (source[k], destination[k]) for some k and both its endpoints are sampled. |
| NodeSampling.InducedEdgesClosed | GraphShrinkingExpanding/sampling/RandomNodeSampling.cpp:57-61 | Both endpoints of every kept edge are sampled vertices. |
| NodeSampling.InducedEdgesPrefix | GraphShrinkingExpanding/sampling/RandomNodeSampling.cpp:56-63 | Input order is kept: the result for a prefix of the edge list is a prefix of the full result. |
| NodeSampling.InducedEdgesIdentity | GraphShrinkingExpanding/sampling/RandomNodeSampling.cpp:56-63 | If every endpoint is sampled, the result is the whole edge list. |
| NodeSampling.RandomNodeSampling.constructor | GraphShrinkingExpanding/sampling/RandomNodeSampling.cpp:5-7 | A sampler holds the original vertex list and its sampling fraction. |
| NodeSampling.RandomNodeSampling.NodeSelectionStep | GraphShrinkingExpanding/sampling/RandomNodeSampling.cpp:33-50 | The rejection loop returns exactly the vertices drawn up to the stopping point, all of them from the vertex list. It reports completion exactly when the set's size equals the target. |
| NodeSampling.RandomNodeSampling.InductionStep | GraphShrinkingExpanding/sampling/RandomNodeSampling.cpp:53-66 | The filtering loop returns exactly InducedEdges of its inputs. Nothing else changes. |
| Expanding.LabelOf | GraphShrinkingExpanding/expanding/Expanding.cpp:94-95 | The label at each position below 676 has two letters in 'a'..'z' and decodes back to that position. |
| Expanding.LabelOfLabelIndex | GraphShrinkingExpanding/expanding/Expanding.cpp:254-267 | Decoding a label and then encoding the position gives the label back. |
| Expanding.LabelsDistinct | GraphShrinkingExpanding/expanding/Expanding.cpp:116-122 | Different positions get different labels. |
| Expanding.LastLabel | GraphShrinkingExpanding/expanding/Expanding.cpp:255-258 | The label "zz" belongs to position 675 and to no other position. |
| Expanding.IncrementLabels | GraphShrinkingExpanding/expanding/Expanding.cpp:254-267 | From "zz" the counter exits and leaves the labels unchanged. If the first letter is not 'z', it steps the first letter and keeps the second. Otherwise it resets the first letter to 'a' and steps the second. In every case that does not exit, the decoded position goes up by exactly one. |
| Expanding.IncrementedLabel | GraphShrinkingExpanding/expanding/Expanding.cpp:119 | Stepping the counter from the label at position i gives the label at position i + 1. |
| Expanding.Residual | GraphShrinkingExpanding/expanding/Expanding.cpp:81 | The residual is below the fraction. |
| Expanding.SampleCount | GraphShrinkingExpanding/expanding/Expanding.cpp:79-84 | The sample count is the truncated quotient S / f or one more, and it is one more exactly when the residual is positive. |
| Expanding.SampleCountIsCeiling | GraphShrinkingExpanding/expanding/Expanding.cpp:79-84 | The sample count is the ceiling of S / f. It is enough samples to cover S, one fewer would not be, and it is zero exactly when S is zero. |
| Expanding.FractionPlan | GraphShrinkingExpanding/expanding/Expanding.cpp:97-105 | There is one fraction per sample, each positive and at most the nominal fraction. |
| Expanding.FractionPlanShape | GraphShrinkingExpanding/expanding/Expanding.cpp:99-105 | Every sample but the last uses the nominal fraction. The last uses the residual exactly when the residual is positive. |
| Expanding.FractionPlanSum | GraphShrinkingExpanding/expanding/Expanding.cpp:97-105 | The fractions of all samples add up to the scaling factor. |
| Expanding.TwoAndAHalfTimesOne | GraphShrinkingExpanding/expanding/Expanding.cpp:79-84 | S = 2.5 with f = 1.0 gives three samples with fractions 1.0, 1.0 and 0.5. |
| Expanding.GetThreadSize | GraphShrinkingExpanding/expanding/Expanding.cpp:269-271 | Threads per block never exceed MAX_THREADS. Below that cap, there is one thread per vertex. |
| Expanding.GetBlockSize | GraphShrinkingExpanding/expanding/Expanding.cpp:272-274 | At least one block is launched. |
| Expanding.LaunchCoversVertices | GraphShrinkingExpanding/expanding/Expanding.cpp:269-274 | Blocks × threads is at least SIZE_VERTICES. |
| Expanding.VertexThread | GraphShrinkingExpanding/expanding/Expanding.cpp:269-274 | Every vertex v maps to a block and a thread inside the launch with block × threads + thread = v. |
| Expanding.SelectionsCompleteAt | GraphShrinkingExpanding/expanding/Expanding.cpp:99-107 | If the selections of the first n iterations completed, so did the selection of each of those iterations. |
| Expanding.ExpectedVersionsSlot | GraphShrinkingExpanding/expanding/Expanding.cpp:99-122 | Slot k of the first n expected sub-graphs is the sub-graph of iteration k. |
| Expanding.RunPrefixSlot | GraphShrinkingExpanding/expanding/Expanding.cpp:107-122 | In a run prefix, each slot k holds the edges induced by the vertices iteration k selected with fraction plan[k], and that selection reached its target. The slot carries the k-th label, and no two slots share a label. |
| Expanding.ExpansionIteration | GraphShrinkingExpanding/expanding/Expanding.cpp:100-122 | One loop iteration leaves the sampler on the planned fraction of iteration i and extends the run prefix by the sub-graph of iteration i. It hits the label limit exactly at iteration 675 and otherwise advances the labels to position i + 1. |
| Expanding.ExpandGraphRandomNodeSampling | GraphShrinkingExpanding/expanding/Expanding.cpp:73-126 | The list has one slot per planned sample. Every fully run iteration's slot holds its expected sub-graph. The status tells whether all samples were made, the label counter exited after 675 slots, or a selection below iteration 676 ran out of draws. The sampler ends on the planned fraction of the last iteration that ran. |
| GpuExpanding.EdgeBasedSampler.constructor | GraphShrinkingExpanding/expanding/Expanding.cpp:176 | A sampler holds the sampling fraction the loop sets. |
| GpuExpanding.ExpandGraph | GraphShrinkingExpanding/expanding/Expanding.cpp:141-232 | The list has one slot per planned sample. The run completes exactly when fewer than 676 samples are planned. Each filled slot k holds the device's edges for iteration k at fraction plan[k], labelled with the k-th label. The sampler ends on the fraction of the last iteration it ran. |
| IdentifierTracking.AddToChar | scaling/scale-up/IdentifierTracker.cpp:14-15 | Adding to a char stays within one byte, and below 256 it is plain addition. |
| IdentifierTracking.Identifier | scaling/scale-up/IdentifierTracker.cpp:11-24 | An identifier has two characters. The first is a letter that encodes the index modulo 26. |
| IdentifierTracking.DecodeIdentifierRoundTrip | scaling/scale-up/IdentifierTracker.cpp:14-15 | Below index 4134, where the second character has not wrapped, first + 26 × second decodes back to the index. |
| IdentifierTracking.IdentifiersDistinct | scaling/scale-up/IdentifierTracker.cpp:14-17 | Below index 4134, successive indices get pairwise distinct identifiers. |
| IdentifierTracking.IdentifiersRepeat | scaling/scale-up/IdentifierTracker.cpp:15 | The second character wraps modulo 256, so identifiers repeat every 6656 indices. |
| IdentifierTracking.IdentifierLetters | scaling/scale-up/IdentifierTracker.cpp:15 | The second character is a letter exactly when (index / 26) mod 256 is below 26. Within one period, that is exactly while the index is below 676. |
| IdentifierTracking.FirstIdentifier | scaling/scale-up/IdentifierTracker.cpp:8 | The identifier of index 51 is "zb". |
| IdentifierTracking.IdentifierIsExpansionLabel | scaling/scale-up/IdentifierTracker.cpp:14-15 | Below 676, the identifier of an index spells the expansion label of the same position. |
| IdentifierTracking.IdentifierTracker.constructor | scaling/scale-up/IdentifierTracker.cpp:7-9 | A fresh tracker starts at index 51. |
| IdentifierTracking.IdentifierTracker.GetNewIdentifier | scaling/scale-up/IdentifierTracker.cpp:11-24 | Returns the identifier of the index before the call and raises the index by exactly one. |
| IdentifierTracking.FirstIdentifierOfFreshTracker | scaling/scale-up/IdentifierTracker.cpp:7-24 | The first identifier a fresh tracker hands out is "zb". |

## Left out

- Command-line parsing (`collect_expanding_parameters`, `collect_sampling_parameters`): this is `argv` handling and printing only.
- File input and output, and format conversion: loading the edge list, converting to CSR, writing outputs, and `sample_graph`.
  - Edge lists are given directly as parallel `seq<int>` values.
- Topology linking and bridge selection after expansion: their implementations are not part of this model.
- The CUDA kernel, device memory management and the edge-based sampler in `expand_graph`: the kernel body is not available and runs concurrently.
  - The sampler and kernel together are the oracle `kernelEdges(i, fraction)`.
  - The launch geometry is modelled on its own and is not passed to that oracle.
  - MAX_THREADS is a parameter, because its value is not part of this model.
- Real randomness (`std::random_device`, `mt19937`): it is replaced by explicit index streams.
- NodeSampling.RandomNodeSampling.NodeSelectionStep: stops when its finite stream runs out and reports `complete == false`; the source keeps drawing forever when the target cannot be reached. `SelectionCompletesOnFullSweep` gives a condition under which it does stop.
- Expanding.ExpandGraphRandomNodeSampling: a selection that runs out of draws ends the run with `SelectionUnfinished`, for the same reason.
- Expanding.IncrementLabels: requires both labels to be in 'a'..'z'. These are the only values the loops ever pass.
- IEEE float rounding of `S / f`, `fmod` and `int(V * f)`: these are replaced by exact fixed-point arithmetic.
- 32-bit overflow of the sample count, of the loop index and of `currentGraphSampleIndex`: integers are unbounded.
- The `source_vertices` and `destination_vertices` arguments of `node_selection_step`: they are never read, so they are dropped.
- Allocation-size mistakes and leaks around the expansion loops: they do not affect the values computed.
