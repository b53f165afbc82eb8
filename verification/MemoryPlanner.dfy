/** What a memory plan promises about the graph it was made for. */
module MemoryPlanSpec {
  import opened Sequences
  import opened Wrappers
  import opened Graphs
  import opened LiveRanges
  import opened BufferReuseSpec
  import opened BestFitSpec
  import opened ArenaLayouts

  /** The range of one value: where it is live, and how many bytes it needs when it is planned. */
  ghost predicate RangeMatches(nodes: seq<Node>, order: seq<NodeId>, v: Value, options: PlanOptions, r: LiveRange)
    requires AllBelow(order, |nodes|)
  {
    && r.value == v.id && r.dtype == v.dtype && r.device == v.device && r.kind == v.kind
    && FootprintOf(v, options) != Overflow
    && (r.eligible <==> FootprintOf(v, options).Sized?)
    && (r.eligible ==> r.bytes == FootprintOf(v, options).bytes)
    && r.alignedBytes == AlignUp(r.bytes, options.alignment)
    && r.firstNode <= r.lastNode
    && (forall idx: nat :: idx < |order| && Touches(nodes, order, idx, v.id) ==> idx <= r.lastNode)
    && (v.kind == Output ==> |order| - 1 <= r.lastNode)
    && (forall idx: nat :: idx < |order| && Defines(nodes, order, idx, v.id) ==>
          LastDefinition(nodes, order, v.id, r.firstNode))
    && ((forall idx: nat :: idx < |order| ==> !Defines(nodes, order, idx, v.id)) ==> r.firstNode == 0)
    && (v.kind != Output && r.lastNode != r.firstNode ==>
          r.lastNode < |order| && Touches(nodes, order, r.lastNode, v.id))
  }

  ghost predicate LastDefinition(nodes: seq<Node>, order: seq<NodeId>, v: ValueId, first: nat)
    requires AllBelow(order, |nodes|)
  {
    first < |order| && Defines(nodes, order, first, v) &&
    forall idx: nat :: first < idx < |order| ==> !Defines(nodes, order, idx, v)
  }

  ghost predicate RangesMatch(nodes: seq<Node>, order: seq<NodeId>, values: seq<Value>, options: PlanOptions,
                              ranges: seq<LiveRange>)
    requires AllBelow(order, |nodes|)
  {
    |ranges| == |values| && forall i :: 0 <= i < |values| ==> RangeMatches(nodes, order, values[i], options, ranges[i])
  }

  ghost predicate EligiblePlaced(ranges: seq<LiveRange>, buffers: seq<Buffer>) {
    forall i :: 0 <= i < |ranges| ==>
      if ranges[i].eligible then Placed(ranges[i], buffers) else ranges[i].bufferId == None
  }

  ghost predicate SameBuffer(a: LiveRange, b: LiveRange) {
    a.bufferId.Some? && a.bufferId == b.bufferId
  }

  /** Two ranges in one buffer are never live at the same node. */
  ghost predicate NeverShared(ranges: seq<LiveRange>) {
    forall i, j :: 0 <= i < |ranges| && 0 <= j < |ranges| && i != j && SameBuffer(ranges[i], ranges[j]) ==>
      Apart(ranges[i], ranges[j])
  }

  ghost predicate GoodStorage(plan: MemoryPlan) {
    && plan.alignment > 0
    && EligiblePlaced(plan.ranges, plan.buffers) && NeverShared(plan.ranges)
    && ValuesRecorded(plan.ranges, plan.buffers)
    && AlignedSizes(plan.buffers, plan.alignment) && LaidOut(plan.buffers)
  }

  ghost predicate GoodTotals(plan: MemoryPlan) {
    && plan.plannedBytes == TotalBytes(plan.buffers)
    && plan.naiveBytes == SumAligned(plan.ranges)
    && plan.plannedBytes <= plan.naiveBytes
    && plan.eligibleCount == EligibleCount(plan.ranges)
    && plan.eligibleCount + plan.skippedCount == |plan.ranges|
    && Tight(plan.ranges, plan.buffers)
    && AllCreated(plan.ranges, plan.buffers)
  }

  /** Every buffer was opened for an eligible range of its pool, with that range's aligned size. */
  ghost predicate AllCreated(ranges: seq<LiveRange>, buffers: seq<Buffer>) {
    forall b :: 0 <= b < |buffers| ==> Created(ranges, buffers[b])
  }

  ghost predicate GoodPlan(nodes: seq<Node>, order: seq<NodeId>, values: seq<Value>, options: PlanOptions,
                           plan: MemoryPlan)
    requires AllBelow(order, |nodes|)
  {
    && plan.alignment == options.alignment
    && RangesMatch(nodes, order, values, options, plan.ranges)
    && GoodStorage(plan) && GoodTotals(plan) && BestFitPlan(plan.ranges, plan.buffers)
  }
}

/** The memory planner as a whole (src/runtime/memory_planner.cpp, MemoryPlanner::plan). */
module MemoryPlanners {
  import opened Sequences
  import opened Wrappers
  import opened Graphs
  import opened LiveRanges
  import opened BufferReuseSpec
  import opened BestFitSpec
  import opened BufferReuse
  import opened BestFits
  import opened ArenaLayouts
  import opened MemoryPlanSpec

  lemma RangeOfMatches(nodes: seq<Node>, order: seq<NodeId>, v: Value, first: nat, last: nat, produced: bool,
                       options: PlanOptions)
    requires AllBelow(order, |nodes|) && FootprintOf(v, options) != Overflow
    requires Liveness(nodes, order, |order|, v.id, first, last, produced)
    ensures RangeMatches(nodes, order, v, options,
                         RangeOf(v, first, last, produced, if |order| == 0 then 0 else |order| - 1, options))
  {
  }

  lemma AssignmentKeepsRanges(nodes: seq<Node>, order: seq<NodeId>, values: seq<Value>, options: PlanOptions,
                              base: seq<LiveRange>, ranges: seq<LiveRange>)
    requires AllBelow(order, |nodes|) && RangesMatch(nodes, order, values, options, base)
    requires SameButBuffers(ranges, base)
    ensures RangesMatch(nodes, order, values, options, ranges)
  {
    forall i | 0 <= i < |values| ensures RangeMatches(nodes, order, values[i], options, ranges[i]) {
      assert RangeMatches(nodes, order, values[i], options, base[i]);
      assert ranges[i] == base[i].(bufferId := ranges[i].bufferId);
    }
  }

  lemma {:induction false} SumsIgnoreBuffers(ranges: seq<LiveRange>, base: seq<LiveRange>)
    requires SameButBuffers(ranges, base)
    ensures SumAligned(ranges) == SumAligned(base) && EligibleCount(ranges) == EligibleCount(base)
  {
    if base != [] {
      var n := |base| - 1;
      assert ranges[n] == base[n].(bufferId := ranges[n].bufferId);
      SumsIgnoreBuffers(ranges[..n], base[..n]);
    }
  }

  lemma LiveSetIgnoresBuffers(ranges: seq<LiveRange>, base: seq<LiveRange>, pool: Pool, t: nat)
    requires SameButBuffers(ranges, base)
    ensures LiveSet(ranges, pool, t) == LiveSet(base, pool, t)
  {
    forall i: nat | i < |base| ensures ranges[i] == base[i].(bufferId := ranges[i].bufferId) {
    }
  }

  lemma TightCarries(ranges: seq<LiveRange>, base: seq<LiveRange>, buffers: seq<Buffer>, laidOut: seq<Buffer>)
    requires SameButBuffers(ranges, base) && SameButArena(laidOut, buffers) && Tight(base, buffers)
    ensures Tight(ranges, laidOut)
  {
    forall pool | Uniform(ranges, pool) ensures Needed(ranges, laidOut, pool) {
      assert Uniform(base, pool) by {
        forall i | 0 <= i < |base| ensures ranges[i] == base[i].(bufferId := ranges[i].bufferId) {
        }
      }
      PoolBuffersSame(buffers, laidOut, pool);
      if PoolBuffers(buffers, pool) != {} {
        var t: nat :| |LiveSet(base, pool, t)| >= |PoolBuffers(buffers, pool)|;
        LiveSetIgnoresBuffers(ranges, base, pool, t);
      }
    }
  }

  lemma PoolBuffersSame(buffers: seq<Buffer>, laidOut: seq<Buffer>, pool: Pool)
    requires SameButArena(laidOut, buffers)
    ensures PoolBuffers(laidOut, pool) == PoolBuffers(buffers, pool)
  {
    forall b: nat | b < |buffers| ensures BufferPool(laidOut[b]) == BufferPool(buffers[b]) {
      assert laidOut[b] == buffers[b].(arenaIndex := laidOut[b].arenaIndex, offset := laidOut[b].offset);
    }
  }

  lemma CreatedCarries(ranges: seq<LiveRange>, base: seq<LiveRange>, buffers: seq<Buffer>, laidOut: seq<Buffer>)
    requires SameButBuffers(ranges, base) && SameButArena(laidOut, buffers) && AllCreated(base, buffers)
    ensures AllCreated(ranges, laidOut)
  {
    forall b | 0 <= b < |buffers| ensures Created(ranges, laidOut[b]) {
      assert laidOut[b] == buffers[b].(arenaIndex := laidOut[b].arenaIndex, offset := laidOut[b].offset);
      assert Created(base, buffers[b]);
      var i :| 0 <= i < |base| && base[i].eligible && RangePool(base[i]) == BufferPool(buffers[b]) &&
               base[i].alignedBytes == buffers[b].bytes;
      assert ranges[i] == base[i].(bufferId := ranges[i].bufferId);
    }
  }

  lemma CreatedIsAligned(base: seq<LiveRange>, buffers: seq<Buffer>, alignment: nat)
    requires alignment > 0
    requires forall i :: 0 <= i < |base| ==> base[i].alignedBytes == AlignUp(base[i].bytes, alignment)
    requires forall b :: 0 <= b < |buffers| ==> Created(base, buffers[b])
    ensures AlignedSizes(buffers, alignment)
  {
    forall b | 0 <= b < |buffers| ensures buffers[b].bytes % alignment == 0 {
      assert Created(base, buffers[b]);
      var i :| 0 <= i < |base| && base[i].eligible && base[i].alignedBytes == buffers[b].bytes;
      assert base[i].alignedBytes == AlignUp(base[i].bytes, alignment);
    }
  }

  lemma LayoutKeepsPlacement(ranges: seq<LiveRange>, buffers: seq<Buffer>, laidOut: seq<Buffer>, sorted: seq<nat>,
                             base: seq<LiveRange>)
    requires Assignment(base, sorted, ranges, buffers) && SameButArena(laidOut, buffers)
    requires forall i: nat :: i < |base| && base[i].eligible ==> i in sorted
    requires forall k :: 0 <= k < |sorted| ==> sorted[k] < |base| && base[sorted[k]].eligible
    ensures EligiblePlaced(ranges, laidOut) && NeverShared(ranges) && ValuesRecorded(ranges, laidOut)
  {
    forall b | 0 <= b < |buffers|
      ensures laidOut[b] == buffers[b].(arenaIndex := laidOut[b].arenaIndex, offset := laidOut[b].offset)
    {
    }
    forall i | 0 <= i < |ranges|
      ensures if ranges[i].eligible then Placed(ranges[i], laidOut) else ranges[i].bufferId == None
    {
      assert ranges[i] == base[i].(bufferId := ranges[i].bufferId);
      if i in sorted {
        assert Placed(ranges[i], buffers);
      }
    }
    forall i, j | 0 <= i < |ranges| && 0 <= j < |ranges| && i != j && SameBuffer(ranges[i], ranges[j])
      ensures Apart(ranges[i], ranges[j])
    {
      assert i in sorted && j in sorted;
    }
  }

  lemma {:induction false} TotalIgnoresLayout(buffers: seq<Buffer>, laidOut: seq<Buffer>)
    requires SameButArena(laidOut, buffers)
    ensures TotalBytes(laidOut) == TotalBytes(buffers)
  {
    forall b | 0 <= b < |buffers| ensures buffers[b].bytes == laidOut[b].bytes {
      assert laidOut[b] == buffers[b].(arenaIndex := laidOut[b].arenaIndex, offset := laidOut[b].offset);
    }
    SameTotal(buffers, laidOut);
  }

  /** MemoryPlanner::plan. */
  method Plan(graph: Graph, options: PlanOptions) returns (r: Result<MemoryPlan, ErrorCode>)
    requires graph.Valid()
    ensures r.Ok? <==> options.alignment > 0 && SortedOrder(graph.nodes, |graph.values|).Ok? &&
                       !AnyOverflow(graph.values, options)
    ensures options.alignment == 0 ==> r == Err(InvalidArgument)
    ensures options.alignment > 0 && SortedOrder(graph.nodes, |graph.values|).Err? ==>
              r == Err(SortedOrder(graph.nodes, |graph.values|).error)
    ensures options.alignment > 0 && SortedOrder(graph.nodes, |graph.values|).Ok? &&
            AnyOverflow(graph.values, options) ==>
              r == Err(OutOfRange)
    ensures r.Ok? ==>
              AllBelow(SortedOrder(graph.nodes, |graph.values|).value, |graph.nodes|) &&
              GoodPlan(graph.nodes, SortedOrder(graph.nodes, |graph.values|).value, graph.values, options, r.value)
  {
    if options.alignment == 0 {
      return Err(InvalidArgument);
    }
    var st := graph.Validate();
    if st != Success {
      return Err(st.code);
    }
    var sorted := graph.TopologicalSort();
    if sorted.Err? {
      return Err(sorted.error);
    }
    var order := sorted.value;
    var nodes, values := graph.nodes, graph.values;
    SortCorrect(nodes, |values|);
    var graphEnd := if |order| == 0 then 0 else |order| - 1;
    var first, last, produced := ComputeLiveness(nodes, order, |values|);
    var computed := ComputeRanges(values, first, last, produced, graphEnd, options);
    if computed.Err? {
      return Err(computed.error);
    }
    var (base, eligible, skipped, naive) := computed.value;
    assert RangesMatch(nodes, order, values, options, base) by {
      forall i | 0 <= i < |values| ensures RangeMatches(nodes, order, values[i], options, base[i]) {
        RangeOfMatches(nodes, order, values[i], first[i], last[i], produced[i], options);
      }
    }
    var plan := Finish(base, options.alignment, eligible, skipped, naive);
    AssignmentKeepsRanges(nodes, order, values, options, base, plan.ranges);
    return Ok(plan);
  }

  method PlannedBytes(buffers: seq<Buffer>) returns (planned: nat)
    ensures planned == TotalBytes(buffers)
  {
    planned := 0;
    for b := 0 to |buffers|
      invariant planned == TotalBytes(buffers[..b])
    {
      assert buffers[..b + 1][..b] == buffers[..b];
      planned := planned + buffers[b].bytes;
    }
    assert buffers[..|buffers|] == buffers;
  }

  ghost predicate FinishInput(base: seq<LiveRange>, alignment: nat)
    requires alignment > 0
  {
    forall i :: 0 <= i < |base| ==>
      base[i].alignedBytes == AlignUp(base[i].bytes, alignment) && base[i].firstNode <= base[i].lastNode &&
      base[i].bufferId == None
  }

  /** The rest of the planner: greedy reuse, planned bytes and arena layout. */
  method Finish(base: seq<LiveRange>, alignment: nat, eligible: nat, skipped: nat, naive: nat)
    returns (plan: MemoryPlan)
    requires alignment > 0 && FinishInput(base, alignment)
    requires naive == SumAligned(base) && eligible == EligibleCount(base) && eligible + skipped == |base|
    ensures SameButBuffers(plan.ranges, base) && plan.alignment == alignment
    ensures GoodStorage(plan) && GoodTotals(plan) && BestFitPlan(plan.ranges, plan.buffers)
  {
    var sorted := EligibleInOrder(base);
    var ranges, buffers := AssignBuffers(base, sorted);
    var planned := PlannedBytes(buffers);
    CreatedIsAligned(base, buffers, alignment);
    var laidOut := LayOut(buffers, alignment);
    plan := MemoryPlan(ranges, laidOut, alignment, eligible, skipped, naive, planned);
    FinishGood(base, sorted, buffers, plan);
    FinishBestFit(base, sorted, buffers, plan);
  }

  lemma FinishBestFit(base: seq<LiveRange>, sorted: seq<nat>, buffers: seq<Buffer>, plan: MemoryPlan)
    requires SameButBuffers(plan.ranges, base) && SameButArena(plan.buffers, buffers)
    requires Indices(base, sorted) && AllBelow(sorted, |base|) && SortedRanges(base, sorted)
    requires forall i: nat :: i < |base| && base[i].eligible ==> i in sorted
    requires BestFit(plan.ranges, buffers, sorted)
    ensures BestFitPlan(plan.ranges, plan.buffers)
  {
    forall b | 0 <= b < |buffers|
      ensures plan.buffers[b].bytes == buffers[b].bytes && BufferPool(plan.buffers[b]) == BufferPool(buffers[b])
    {
      assert plan.buffers[b] ==
             buffers[b].(arenaIndex := plan.buffers[b].arenaIndex, offset := plan.buffers[b].offset);
    }
    PlacingOrderKept(base, plan.ranges, sorted);
    BestFitCarries(plan.ranges, buffers, plan.buffers, sorted);
  }

  lemma FinishGood(base: seq<LiveRange>, sorted: seq<nat>, buffers: seq<Buffer>, plan: MemoryPlan)
    requires plan.alignment > 0 && AlignedSizes(buffers, plan.alignment)
    requires Assignment(base, sorted, plan.ranges, buffers) && SameButArena(plan.buffers, buffers)
    requires LaidOut(plan.buffers)
    requires Indices(base, sorted) && AllBelow(sorted, |base|)
    requires forall i: nat :: i < |base| && base[i].eligible ==> i in sorted
    requires TotalBytes(buffers) <= SumOver(base, sorted) == SumAligned(base)
    requires plan.plannedBytes == TotalBytes(buffers) && plan.naiveBytes == SumAligned(base)
    requires plan.eligibleCount == EligibleCount(base) && plan.eligibleCount + plan.skippedCount == |base|
    ensures GoodStorage(plan) && GoodTotals(plan)
  {
    FinishStorage(base, sorted, plan.ranges, buffers, plan.buffers, plan.alignment);
    FinishTotals(base, sorted, plan.ranges, buffers, plan.buffers);
  }

  lemma FinishStorage(base: seq<LiveRange>, sorted: seq<nat>, ranges: seq<LiveRange>, buffers: seq<Buffer>,
                      laidOut: seq<Buffer>, alignment: nat)
    requires alignment > 0 && AlignedSizes(buffers, alignment)
    requires Assignment(base, sorted, ranges, buffers) && SameButArena(laidOut, buffers)
    requires forall i: nat :: i < |base| && base[i].eligible ==> i in sorted
    requires forall k :: 0 <= k < |sorted| ==> sorted[k] < |base| && base[sorted[k]].eligible
    ensures EligiblePlaced(ranges, laidOut) && NeverShared(ranges) && ValuesRecorded(ranges, laidOut)
    ensures AlignedSizes(laidOut, alignment)
  {
    LayoutKeepsPlacement(ranges, buffers, laidOut, sorted, base);
    forall b | 0 <= b < |laidOut| ensures laidOut[b].bytes % alignment == 0 {
      assert laidOut[b] == buffers[b].(arenaIndex := laidOut[b].arenaIndex, offset := laidOut[b].offset);
    }
  }

  lemma FinishTotals(base: seq<LiveRange>, sorted: seq<nat>, ranges: seq<LiveRange>, buffers: seq<Buffer>,
                     laidOut: seq<Buffer>)
    requires Assignment(base, sorted, ranges, buffers) && SameButArena(laidOut, buffers)
    ensures TotalBytes(laidOut) == TotalBytes(buffers)
    ensures SumAligned(ranges) == SumAligned(base) && EligibleCount(ranges) == EligibleCount(base)
    ensures Tight(ranges, laidOut) && AllCreated(ranges, laidOut)
  {
    CreatedCarries(ranges, base, buffers, laidOut);
    TotalIgnoresLayout(buffers, laidOut);
    SumsIgnoreBuffers(ranges, base);
    TightCarries(ranges, base, buffers, laidOut);
  }
}
