/**
 * Expansion: sample the input graph several times, each sample a labelled sub-graph, so that
 * the samples together reach the requested scaling factor. Scaling factor and sampling
 * fraction are fixed-point numbers in units of 1 / FractionUnit.
 */
module Expanding {
  import opened Graphs
  import opened NodeSampling

  // ---------------------------------------------------------------------------------------
  // Labels: a two-digit base-26 counter over 'a'..'z'; label1 is the fast-changing digit.
  // ---------------------------------------------------------------------------------------

  /** The number of distinct two-letter labels. */
  const LabelCount: nat := 26 * 26

  predicate IsLabelChar(c: char)
  {
    'a' <= c <= 'z'
  }

  /** The position of a label in generation order. */
  function LabelIndex(label1: char, label2: char): (index: nat)
    requires IsLabelChar(label1) && IsLabelChar(label2)
    ensures index < LabelCount
  {
    (label1 as int - 'a' as int) + 26 * (label2 as int - 'a' as int)
  }

  /** Two labels with the same position are the same label. */
  lemma LabelIndexInjective(a1: char, a2: char, b1: char, b2: char)
    requires IsLabelChar(a1) && IsLabelChar(a2) && IsLabelChar(b1) && IsLabelChar(b2)
    requires LabelIndex(a1, a2) == LabelIndex(b1, b2)
    ensures a1 == b1 && a2 == b2
  {
  }

  /** The label of the sub-graph generated at position `index`. */
  function LabelOf(index: nat): (letters: (char, char))
    requires index < LabelCount
    ensures IsLabelChar(letters.0) && IsLabelChar(letters.1)
    ensures LabelIndex(letters.0, letters.1) == index
  {
    (('a' as int + index % 26) as char, ('a' as int + index / 26) as char)
  }

  /** Decoding then encoding a label gives the label back. */
  lemma LabelOfLabelIndex(label1: char, label2: char)
    requires IsLabelChar(label1) && IsLabelChar(label2)
    ensures LabelOf(LabelIndex(label1, label2)) == (label1, label2)
  {
    var letters := LabelOf(LabelIndex(label1, label2));
    LabelIndexInjective(letters.0, letters.1, label1, label2);
  }

  /** Different positions get different labels. */
  lemma LabelsDistinct(i: nat, j: nat)
    requires i < LabelCount && j < LabelCount && i != j
    ensures LabelOf(i) != LabelOf(j)
  {
  }

  /** "zz" is the last label: it sits at position 675. */
  lemma LastLabel(index: nat)
    requires index < LabelCount
    ensures LabelOf(index) == ('z', 'z') <==> index == LabelCount - 1
  {
    if index == LabelCount - 1 {
      LabelOfLabelIndex('z', 'z');
    }
  }

  /**
   * increment_labels: advance the label counter held in two chars passed by pointer; the
   * new values are returned. From "zz" the program exits (`limitReached`) and the labels
   * stay as they were.
   */
  method IncrementLabels(label1: char, label2: char) returns (limitReached: bool, next1: char, next2: char)
    requires IsLabelChar(label1) && IsLabelChar(label2)
    ensures limitReached <==> label1 == 'z' && label2 == 'z'
    ensures limitReached ==> next1 == label1 && next2 == label2
    ensures !limitReached && label1 != 'z' ==> next1 as int == label1 as int + 1 && next2 == label2
    ensures !limitReached && label1 == 'z' ==> next1 == 'a' && next2 as int == label2 as int + 1
    ensures !limitReached ==>
      IsLabelChar(next1) && IsLabelChar(next2) && LabelIndex(next1, next2) == LabelIndex(label1, label2) + 1
  {
    if label1 == 'z' && label2 == 'z' {
      return true, label1, label2;
    }
    limitReached := false;
    if label1 == 'z' {
      next1 := 'a';
      next2 := (label2 as int + 1) as char;
    } else {
      next1 := (label1 as int + 1) as char;
      next2 := label2;
    }
  }

  /** Stepping the counter from the label at `index` gives the label at `index + 1`, or exits at "zz". */
  lemma IncrementedLabel(index: nat, next1: char, next2: char)
    requires index + 1 < LabelCount
    requires IsLabelChar(next1) && IsLabelChar(next2)
    requires LabelIndex(next1, next2) == LabelIndex(LabelOf(index).0, LabelOf(index).1) + 1
    ensures (next1, next2) == LabelOf(index + 1)
  {
    LabelOfLabelIndex(next1, next2);
  }

  // ---------------------------------------------------------------------------------------
  // Sample count and sampling fraction per sub-graph.
  // ---------------------------------------------------------------------------------------

  /** fmod(SCALING_FACTOR, SAMPLING_FRACTION) for non-negative operands. */
  function Residual(scalingFactor: nat, samplingFraction: nat): (residu: nat)
    requires samplingFraction > 0
    ensures residu < samplingFraction
  {
    scalingFactor % samplingFraction
  }

  /** amount_of_sampled_graphs: the truncated quotient, plus one when there is a remainder. */
  function SampleCount(scalingFactor: nat, samplingFraction: nat): (amount: nat)
    requires samplingFraction > 0
    ensures scalingFactor / samplingFraction <= amount <= scalingFactor / samplingFraction + 1
    ensures amount == scalingFactor / samplingFraction <==> Residual(scalingFactor, samplingFraction) == 0
  {
    var amount := scalingFactor / samplingFraction;
    if Residual(scalingFactor, samplingFraction) > 0 then amount + 1 else amount
  }

  /**
   * The sample count is the ceiling of scalingFactor / samplingFraction: enough samples to
   * reach the scaling factor, and one fewer would not be enough.
   */
  lemma SampleCountIsCeiling(scalingFactor: nat, samplingFraction: nat)
    requires samplingFraction > 0
    ensures var amount := SampleCount(scalingFactor, samplingFraction);
      scalingFactor <= amount * samplingFraction
      && (amount > 0 ==> (amount - 1) * samplingFraction < scalingFactor)
      && (amount == 0 <==> scalingFactor == 0)
  {
    var q, r := scalingFactor / samplingFraction, scalingFactor % samplingFraction;
    assert scalingFactor == q * samplingFraction + r;
    if r > 0 {
      assert (q + 1) * samplingFraction == q * samplingFraction + samplingFraction;
    } else if q > 0 {
      assert (q - 1) * samplingFraction == q * samplingFraction - samplingFraction;
    }
  }

  /** The sampling fraction used for each sub-graph, in generation order. */
  function FractionPlan(scalingFactor: nat, samplingFraction: nat): (plan: seq<nat>)
    requires samplingFraction > 0
    ensures |plan| == SampleCount(scalingFactor, samplingFraction)
    ensures forall i :: 0 <= i < |plan| ==> 0 < plan[i] <= samplingFraction
  {
    var amount := SampleCount(scalingFactor, samplingFraction);
    var residu := Residual(scalingFactor, samplingFraction);
    seq(amount, i requires 0 <= i < amount =>
      if i == amount - 1 && residu > 0 then residu else samplingFraction)
  }

  /**
   * Every sub-graph but the last uses the nominal fraction; the last one uses the residual
   * exactly when the residual is positive.
   */
  lemma FractionPlanShape(scalingFactor: nat, samplingFraction: nat)
    requires samplingFraction > 0
    ensures var plan := FractionPlan(scalingFactor, samplingFraction);
      (forall i :: 0 <= i < |plan| - 1 ==> plan[i] == samplingFraction)
      && (|plan| > 0 ==>
            (plan[|plan| - 1] == Residual(scalingFactor, samplingFraction)
             <==> Residual(scalingFactor, samplingFraction) > 0))
  {
  }

  function Sum(values: seq<nat>): nat
  {
    if values == [] then 0 else Sum(values[..|values| - 1]) + values[|values| - 1]
  }

  /** The fractions of all sub-graphs add up to the scaling factor. */
  lemma {:induction false} FractionPlanSum(scalingFactor: nat, samplingFraction: nat)
    requires samplingFraction > 0
    ensures Sum(FractionPlan(scalingFactor, samplingFraction)) == scalingFactor
  {
    var plan := FractionPlan(scalingFactor, samplingFraction);
    var q, r := scalingFactor / samplingFraction, scalingFactor % samplingFraction;
    assert scalingFactor == q * samplingFraction + r;
    SumOfNominal(plan, samplingFraction, q);
    if r > 0 {
      assert plan[..|plan| - 1] == plan[..q];
    } else {
      assert plan[..q] == plan;
    }
  }

  /** The first `k` entries of a plan whose entries before its last are nominal add up to k times the nominal fraction. */
  lemma {:induction false} SumOfNominal(plan: seq<nat>, samplingFraction: nat, k: nat)
    requires k <= |plan|
    requires forall i :: 0 <= i < k ==> plan[i] == samplingFraction
    ensures Sum(plan[..k]) == k * samplingFraction
  {
    if k > 0 {
      assert plan[..k][..k - 1] == plan[..k - 1];
      SumOfNominal(plan, samplingFraction, k - 1);
    }
  }

  /** Scaling factor 2.5 with fraction 1.0 gives three sub-graphs: 1.0, 1.0 and 0.5. */
  lemma TwoAndAHalfTimesOne()
    ensures SampleCount(5 * FractionUnit / 2, FractionUnit) == 3
    ensures FractionPlan(5 * FractionUnit / 2, FractionUnit) == [FractionUnit, FractionUnit, FractionUnit / 2]
  {
  }

  // ---------------------------------------------------------------------------------------
  // Kernel launch geometry.
  // ---------------------------------------------------------------------------------------

  /** get_thread_size: threads per block, capped at MAX_THREADS. */
  function GetThreadSize(sizeVertices: nat, maxThreads: nat): (threads: nat)
    requires maxThreads > 0
    ensures threads <= maxThreads
    ensures threads < maxThreads ==> threads == sizeVertices
  {
    if sizeVertices + 1 > maxThreads then maxThreads else sizeVertices
  }

  /** get_block_size: the number of blocks. */
  function GetBlockSize(sizeVertices: nat, maxThreads: nat): (blocks: nat)
    requires maxThreads > 0
    ensures blocks >= 1
  {
    if sizeVertices + 1 > maxThreads then sizeVertices / maxThreads + 1 else 1
  }

  /** The launch has at least one thread per vertex. */
  lemma LaunchCoversVertices(sizeVertices: nat, maxThreads: nat)
    requires maxThreads > 0
    ensures GetBlockSize(sizeVertices, maxThreads) * GetThreadSize(sizeVertices, maxThreads) >= sizeVertices
  {
    if sizeVertices + 1 > maxThreads {
      var q := sizeVertices / maxThreads;
      assert sizeVertices == q * maxThreads + sizeVertices % maxThreads;
      assert (q + 1) * maxThreads == q * maxThreads + maxThreads;
    }
  }

  /** Vertex `v` is handled by thread `thread` of block `block` of the launch. */
  lemma VertexThread(sizeVertices: nat, maxThreads: nat, v: nat) returns (block: nat, thread: nat)
    requires maxThreads > 0 && v < sizeVertices
    ensures block < GetBlockSize(sizeVertices, maxThreads)
    ensures thread < GetThreadSize(sizeVertices, maxThreads)
    ensures block * GetThreadSize(sizeVertices, maxThreads) + thread == v
  {
    var threads := GetThreadSize(sizeVertices, maxThreads);
    block, thread := v / threads, v % threads;
    if sizeVertices + 1 > maxThreads {
      assert v / maxThreads <= sizeVertices / maxThreads by {
        DivIsMonotonic(v, sizeVertices, maxThreads);
      }
    }
  }

  lemma DivIsMonotonic(a: nat, b: nat, d: nat)
    requires a <= b && d > 0
    ensures a / d <= b / d
  {
    var qa, qb := a / d, b / d;
    assert qa * d <= a;
    assert b < (qb + 1) * d;
    if qb + 1 <= qa {
      MulIsMonotonic(qb + 1, qa, d);
      assert false;
    }
  }

  lemma MulIsMonotonic(x: nat, y: nat, d: nat)
    requires x <= y
    ensures x * d <= y * d
  {
    assert y * d == x * d + (y - x) * d;
  }

  // ---------------------------------------------------------------------------------------
  // The expansion loops.
  // ---------------------------------------------------------------------------------------

  /** One stored sub-graph: its edges and its two label characters. */
  datatype SampledGraphVersion = SampledGraphVersion(edges: seq<Edge>, label1: char, label2: char)

  /** How an expansion run ends. */
  datatype ExpansionStatus =
    | Expanded                         // every slot of the list was filled
    | LabelLimitReached                // increment_labels exited after the label "zz"
    | SelectionUnfinished(iteration: nat)  // the index stream of that iteration ran out first

  /** Every index stream the random engine produces lies in [0, SIZE_VERTICES - 1]. */
  ghost predicate DrawsInRange(vertices: seq<int>, draws: nat -> seq<int>)
  {
    forall i: nat :: IndicesInRange(vertices, draws(i))
  }

  /** The vertex target of sub-graph `i`: calculate_node_sampled_size with that sub-graph's fraction. */
  function RequiredAt(vertices: seq<int>, plan: seq<nat>, i: nat): nat
    requires i < |plan|
  {
    CalculateNodeSampledSize(|vertices|, plan[i])
  }

  /** The node selection of each of the first `n` sub-graphs of `plan` reaches its target. */
  ghost predicate SelectionsComplete(vertices: seq<int>, plan: seq<nat>, draws: nat -> seq<int>, n: nat)
    requires n <= |plan| && DrawsInRange(vertices, draws)
  {
    n == 0
    || (SelectionsComplete(vertices, plan, draws, n - 1)
        && SelectionCompletes(vertices, draws(n - 1), RequiredAt(vertices, plan, n - 1)))
  }

  /** SelectionsComplete(n) holds of every sub-graph before `n`. */
  lemma {:induction false} SelectionsCompleteAt(vertices: seq<int>, plan: seq<nat>, draws: nat -> seq<int>, n: nat, k: nat)
    requires k < n <= |plan| && DrawsInRange(vertices, draws)
    requires SelectionsComplete(vertices, plan, draws, n)
    ensures SelectionCompletes(vertices, draws(k), RequiredAt(vertices, plan, k))
  {
    if k < n - 1 {
      SelectionsCompleteAt(vertices, plan, draws, n - 1, k);
    }
  }

  /** The sub-graph stored at slot `i`: the induced edges of its selection and the i-th label. */
  ghost function ExpectedVersion(vertices: seq<int>, sourceVertices: seq<int>, destinationVertices: seq<int>,
                                 plan: seq<nat>, draws: nat -> seq<int>, i: nat): SampledGraphVersion
    requires i < |plan| && i < LabelCount
    requires |sourceVertices| <= |destinationVertices| && DrawsInRange(vertices, draws)
  {
    var nodes := SelectedNodes(vertices, draws(i), RequiredAt(vertices, plan, i));
    SampledGraphVersion(InducedEdges(sourceVertices, destinationVertices, nodes), LabelOf(i).0, LabelOf(i).1)
  }

  /** The contents of the first `n` slots of a run. */
  ghost function ExpectedVersions(vertices: seq<int>, sourceVertices: seq<int>, destinationVertices: seq<int>,
                                  plan: seq<nat>, draws: nat -> seq<int>, n: nat): (versions: seq<SampledGraphVersion>)
    requires n <= |plan| && n <= LabelCount
    requires |sourceVertices| <= |destinationVertices| && DrawsInRange(vertices, draws)
    ensures |versions| == n
  {
    if n == 0 then []
    else ExpectedVersions(vertices, sourceVertices, destinationVertices, plan, draws, n - 1)
         + [ExpectedVersion(vertices, sourceVertices, destinationVertices, plan, draws, n - 1)]
  }

  /** Slot `k` of ExpectedVersions(n) is ExpectedVersion(k). */
  lemma {:induction false} ExpectedVersionsSlot(vertices: seq<int>, sourceVertices: seq<int>, destinationVertices: seq<int>,
                                                plan: seq<nat>, draws: nat -> seq<int>, n: nat, k: nat)
    requires k < n && n <= |plan| && n <= LabelCount
    requires |sourceVertices| <= |destinationVertices| && DrawsInRange(vertices, draws)
    ensures ExpectedVersions(vertices, sourceVertices, destinationVertices, plan, draws, n)[k]
            == ExpectedVersion(vertices, sourceVertices, destinationVertices, plan, draws, k)
  {
    if k < n - 1 {
      ExpectedVersionsSlot(vertices, sourceVertices, destinationVertices, plan, draws, n - 1, k);
    }
  }

  /**
   * The first `n` iterations of a run each selected their full vertex target and stored
   * `versions`, the sub-graphs ExpectedVersions describes.
   */
  ghost predicate RunPrefix(vertices: seq<int>, sourceVertices: seq<int>, destinationVertices: seq<int>,
                            plan: seq<nat>, draws: nat -> seq<int>, n: nat, versions: seq<SampledGraphVersion>)
  {
    && n <= |plan| && n <= LabelCount
    && |sourceVertices| <= |destinationVertices| && DrawsInRange(vertices, draws)
    && SelectionsComplete(vertices, plan, draws, n)
    && versions == ExpectedVersions(vertices, sourceVertices, destinationVertices, plan, draws, n)
  }

  /**
   * What a run prefix says slot by slot: slot `k` holds the edges induced by the vertices
   * iteration k selected with its fraction `plan[k]`, that selection reached its target,
   * the slot carries the k-th label, and no two slots carry the same label.
   */
  lemma RunPrefixSlot(vertices: seq<int>, sourceVertices: seq<int>, destinationVertices: seq<int>,
                      plan: seq<nat>, draws: nat -> seq<int>, n: nat, versions: seq<SampledGraphVersion>, k: nat, j: nat)
    requires RunPrefix(vertices, sourceVertices, destinationVertices, plan, draws, n, versions)
    requires k < n && j < n
    ensures |versions| == n
    ensures SelectionCompletes(vertices, draws(k), CalculateNodeSampledSize(|vertices|, plan[k]))
    ensures versions[k].edges
            == InducedEdges(sourceVertices, destinationVertices,
                            SelectedNodes(vertices, draws(k), CalculateNodeSampledSize(|vertices|, plan[k])))
    ensures (versions[k].label1, versions[k].label2) == LabelOf(k)
    ensures k != j ==> (versions[k].label1, versions[k].label2) != (versions[j].label1, versions[j].label2)
  {
    SelectionsCompleteAt(vertices, plan, draws, n, k);
    ExpectedVersionsSlot(vertices, sourceVertices, destinationVertices, plan, draws, n, k);
    ExpectedVersionsSlot(vertices, sourceVertices, destinationVertices, plan, draws, n, j);
    if k != j {
      LabelsDistinct(k, j);
    }
  }

  /**
   * Iteration `i` of the expansion loop: switch the sampler to the residual fraction on the
   * last iteration, select nodes, induce the edges between them, label the sample and step
   * the label counter. `complete` is false when the index stream ran out before the
   * selection reached its target; `limitReached` is true when the counter exits.
   */
  method ExpansionIteration(randomNodeSampler: RandomNodeSampling, scalingFactor: nat, samplingFraction: nat,
                            ghost plan: seq<nat>, sourceVertices: seq<int>, destinationVertices: seq<int>,
                            draws: nat -> seq<int>, i: nat, ghost stored: seq<SampledGraphVersion>,
                            label1: char, label2: char)
    returns (complete: bool, limitReached: bool, sampledGraphVersion: SampledGraphVersion, next1: char, next2: char)
    requires samplingFraction > 0 && plan == FractionPlan(scalingFactor, samplingFraction)
    requires i < |plan| && i < LabelCount
    requires RunPrefix(randomNodeSampler.verticesOriginalGraph, sourceVertices, destinationVertices, plan, draws, i, stored)
    requires (label1, label2) == LabelOf(i)
    requires randomNodeSampler.samplingFraction == samplingFraction
    modifies randomNodeSampler
    ensures randomNodeSampler.samplingFraction == plan[i]
    ensures complete == SelectionCompletes(randomNodeSampler.verticesOriginalGraph, draws(i),
                                           RequiredAt(randomNodeSampler.verticesOriginalGraph, plan, i))
    ensures complete ==>
      RunPrefix(randomNodeSampler.verticesOriginalGraph, sourceVertices, destinationVertices, plan, draws, i + 1,
                stored + [sampledGraphVersion])
    ensures complete ==> (limitReached <==> i == LabelCount - 1)
    ensures complete && !limitReached ==> i + 1 < LabelCount && (next1, next2) == LabelOf(i + 1)
  {
    var amountOfSampledGraphs := SampleCount(scalingFactor, samplingFraction);
    var residu := Residual(scalingFactor, samplingFraction);
    FractionPlanShape(scalingFactor, samplingFraction);
    if i == amountOfSampledGraphs - 1 {
      if residu > 0 {
        randomNodeSampler.samplingFraction := residu;
      }
    }
    var randomNodes;
    randomNodes, complete := randomNodeSampler.NodeSelectionStep(draws(i));
    var edges := randomNodeSampler.InductionStep(sourceVertices, destinationVertices, randomNodes);
    sampledGraphVersion := SampledGraphVersion(edges, label1, label2);
    limitReached, next1, next2 := IncrementLabels(label1, label2);
    LastLabel(i);
    if !limitReached {
      IncrementedLabel(i, next1, next2);
    }
  }

  /**
   * expand_graph_random_node_sampling without the file I/O and the topology: plan the
   * samples, then for each slot set the sampler's fraction (the residual for the last one),
   * select nodes, induce edges, attach the current label and step the label counter.
   * `draws(i)` is the index stream the random engine yields during iteration i. The slots
   * of every iteration that ran to its end hold ExpectedVersions; the status says why the
   * run stopped.
   */
  method ExpandGraphRandomNodeSampling(randomNodeSampler: RandomNodeSampling,
                                       scalingFactor: nat, samplingFraction: nat,
                                       sourceVertices: seq<int>, destinationVertices: seq<int>,
                                       draws: nat -> seq<int>)
    returns (status: ExpansionStatus, sampledGraphVersionList: array<SampledGraphVersion>)
    requires samplingFraction > 0
    requires |sourceVertices| <= |destinationVertices|
    requires DrawsInRange(randomNodeSampler.verticesOriginalGraph, draws)
    modifies randomNodeSampler
    ensures fresh(sampledGraphVersionList)
    ensures sampledGraphVersionList.Length == SampleCount(scalingFactor, samplingFraction)
    ensures var plan, vertices := FractionPlan(scalingFactor, samplingFraction), randomNodeSampler.verticesOriginalGraph;
      match status
      case Expanded =>
        && |plan| < LabelCount
        && RunPrefix(vertices, sourceVertices, destinationVertices, plan, draws, |plan|, sampledGraphVersionList[..])
      case LabelLimitReached =>
        && LabelCount <= |plan|
        && RunPrefix(vertices, sourceVertices, destinationVertices, plan, draws, LabelCount - 1,
                     sampledGraphVersionList[..LabelCount - 1])
        && SelectionCompletes(vertices, draws(LabelCount - 1), RequiredAt(vertices, plan, LabelCount - 1))
      case SelectionUnfinished(iteration) =>
        && iteration < |plan| && iteration < LabelCount
        && RunPrefix(vertices, sourceVertices, destinationVertices, plan, draws, iteration,
                     sampledGraphVersionList[..iteration])
        && !SelectionCompletes(vertices, draws(iteration), RequiredAt(vertices, plan, iteration))
    ensures var plan := FractionPlan(scalingFactor, samplingFraction);
      randomNodeSampler.samplingFraction
        == match status
           case Expanded => if |plan| == 0 then samplingFraction else plan[|plan| - 1]
           case LabelLimitReached => plan[LabelCount - 1]
           case SelectionUnfinished(iteration) => plan[iteration]
  {
    var amountOfSampledGraphs := SampleCount(scalingFactor, samplingFraction);
    ghost var plan := FractionPlan(scalingFactor, samplingFraction);
    ghost var vertices := randomNodeSampler.verticesOriginalGraph;
    sampledGraphVersionList := new SampledGraphVersion[amountOfSampledGraphs];
    var currentLabel1, currentLabel2 := 'a', 'a';
    randomNodeSampler.samplingFraction := samplingFraction;

    var i := 0;
    while i < amountOfSampledGraphs
      invariant 0 <= i <= amountOfSampledGraphs && i < LabelCount
      invariant (currentLabel1, currentLabel2) == LabelOf(i)
      invariant i < amountOfSampledGraphs ==> randomNodeSampler.samplingFraction == samplingFraction
      invariant i == amountOfSampledGraphs ==>
        randomNodeSampler.samplingFraction == if i == 0 then samplingFraction else plan[i - 1]
      invariant RunPrefix(vertices, sourceVertices, destinationVertices, plan, draws, i, sampledGraphVersionList[..i])
    {
      ghost var stored := sampledGraphVersionList[..i];
      var complete, limitReached, sampledGraphVersion;
      complete, limitReached, sampledGraphVersion, currentLabel1, currentLabel2 :=
        ExpansionIteration(randomNodeSampler, scalingFactor, samplingFraction, plan, sourceVertices, destinationVertices,
                           draws, i, stored, currentLabel1, currentLabel2);
      if !complete {
        return SelectionUnfinished(i), sampledGraphVersionList;
      }
      if limitReached {
        return LabelLimitReached, sampledGraphVersionList;
      }
      sampledGraphVersionList[i] := sampledGraphVersion;
      assert sampledGraphVersionList[..i + 1] == stored + [sampledGraphVersion];
      i := i + 1;
    }
    status := Expanded;
  }
}

/**
 * The CUDA expansion path (expand_graph). Each iteration asks the edge-based sampler for a
 * vertex sample at the sampler's current fraction and runs the induction kernel on the
 * device; both are outside this model, so their combined result is the oracle
 * `kernelEdges(i, fraction)`: the edges copied back from the device in iteration i when
 * the sampler held `fraction`. What is modelled is the loop around them: the fraction
 * schedule, the labels and the slot each sub-graph is stored in.
 */
module GpuExpanding {
  import opened Graphs
  import opened Expanding

  /** The sampler of the CUDA path, reduced to the field the expansion loop writes. */
  class EdgeBasedSampler {
    var samplingFraction: nat

    constructor (samplingFraction: nat)
      ensures this.samplingFraction == samplingFraction
    {
      this.samplingFraction := samplingFraction;
    }
  }

  /**
   * expand_graph without device memory management, I/O and topology. `completed` is false
   * when increment_labels exits, which happens in iteration 675 when 676 or more samples
   * are planned; the slots filled before that hold their sub-graphs.
   */
  method ExpandGraph(sampler: EdgeBasedSampler, scalingFactor: nat, samplingFraction: nat,
                     kernelEdges: (nat, nat) -> seq<Edge>)
    returns (completed: bool, sampledGraphVersionList: array<SampledGraphVersion>)
    requires samplingFraction > 0
    modifies sampler
    ensures fresh(sampledGraphVersionList)
    ensures sampledGraphVersionList.Length == SampleCount(scalingFactor, samplingFraction)
    ensures completed <==> SampleCount(scalingFactor, samplingFraction) < LabelCount
    ensures var plan := FractionPlan(scalingFactor, samplingFraction);
      var filled := if completed then |plan| else LabelCount - 1;
      forall k :: 0 <= k < filled ==>
        sampledGraphVersionList[k] == SampledGraphVersion(kernelEdges(k, plan[k]), LabelOf(k).0, LabelOf(k).1)
    ensures var plan := FractionPlan(scalingFactor, samplingFraction);
      var last := if completed then |plan| - 1 else LabelCount - 1;
      sampler.samplingFraction == if |plan| == 0 then samplingFraction else plan[last]
  {
    var amountOfSampledGraphs := SampleCount(scalingFactor, samplingFraction);
    var residu := Residual(scalingFactor, samplingFraction);
    ghost var plan := FractionPlan(scalingFactor, samplingFraction);
    FractionPlanShape(scalingFactor, samplingFraction);
    sampledGraphVersionList := new SampledGraphVersion[amountOfSampledGraphs];
    var currentLabel1, currentLabel2 := 'a', 'a';
    sampler.samplingFraction := samplingFraction;

    var i := 0;
    while i < amountOfSampledGraphs
      invariant 0 <= i <= amountOfSampledGraphs && i < LabelCount
      invariant (currentLabel1, currentLabel2) == LabelOf(i)
      invariant sampler.samplingFraction == if i < amountOfSampledGraphs || i == 0 then samplingFraction else plan[i - 1]
      invariant forall k :: 0 <= k < i ==>
        sampledGraphVersionList[k] == SampledGraphVersion(kernelEdges(k, plan[k]), LabelOf(k).0, LabelOf(k).1)
    {
      if i == amountOfSampledGraphs - 1 {
        if residu > 0 {
          sampler.samplingFraction := residu;
        }
      }
      var edges := kernelEdges(i, sampler.samplingFraction);
      var sampledGraphVersion := SampledGraphVersion(edges, currentLabel1, currentLabel2);
      var limitReached;
      limitReached, currentLabel1, currentLabel2 := IncrementLabels(currentLabel1, currentLabel2);
      LastLabel(i);
      if limitReached {
        return false, sampledGraphVersionList;
      }
      IncrementedLabel(i, currentLabel1, currentLabel2);
      sampledGraphVersionList[i] := sampledGraphVersion;
      i := i + 1;
    }
    completed := true;
  }
}
