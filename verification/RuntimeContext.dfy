/** What a context prepared from a memory plan must look like. */
module ContextSpec {
  import opened Wrappers
  import opened Graphs
  import opened LiveRanges
  import opened BufferReuseSpec
  import opened ArenaLayouts
  import opened MemoryPlanSpec
  import opened Bytes
  import opened TensorMemory

  type Bindings = map<ValueId, Tensor>

  ghost predicate AllInside(blocks: seq<Block>, bindings: Bindings) {
    forall v :: v in bindings ==> Inside(blocks, bindings[v])
  }

  /** No two tensors share a byte. */
  ghost predicate Separate(bindings: Bindings) {
    forall u, v :: u in bindings && v in bindings && u != v ==> !Overlap(bindings[u], bindings[v])
  }

  /** Values whose storage the plan provides. */
  ghost predicate Planned(ranges: seq<LiveRange>, before: Bindings, v: ValueId) {
    v < |ranges| && ranges[v].eligible && v !in before
  }

  /** Two tensors share bytes only when both are planned and never live at the same node. */
  ghost predicate SharedOnlyApart(ranges: seq<LiveRange>, before: Bindings, bindings: Bindings) {
    forall u, v :: u in bindings && v in bindings && u != v && Overlap(bindings[u], bindings[v]) ==>
      Planned(ranges, before, u) && Planned(ranges, before, v) && Apart(ranges[u], ranges[v])
  }

  /** The tensor of a planned value: in its arena's block, at its buffer's offset past the aligned base. */
  ghost predicate PlannedTensor(plan: MemoryPlan, blocks: seq<Block>, arena: nat, v: ValueId, t: Tensor)
    requires plan.alignment > 0 && v < |plan.ranges| && Placed(plan.ranges[v], plan.buffers)
  {
    var b := plan.buffers[plan.ranges[v].bufferId.value];
    && b.arenaIndex.Some? && t.block == arena + b.arenaIndex.value && t.block < |blocks|
    && t.offset == AlignPointer(blocks[t.block].address, plan.alignment) + b.offset
    && t.size == plan.ranges[v].bytes
  }

  ghost predicate PlannedTensors(plan: MemoryPlan, blocks: seq<Block>, arena: nat, before: Bindings, bindings: Bindings,
                                 n: nat)
    requires plan.alignment > 0 && EligiblePlaced(plan.ranges, plan.buffers) && n <= |plan.ranges|
  {
    forall v :: 0 <= v < n && Planned(plan.ranges, before, v) ==>
      v in bindings && PlannedTensor(plan, blocks, arena, v, bindings[v])
  }

  /** Arena blocks are big enough for their buffers and the skipped bytes. */
  ghost predicate ArenaBlocks(plan: MemoryPlan, blocks: seq<Block>, arena: nat, count: nat)
  {
    arena + count <= |blocks| &&
    forall a :: 0 <= a < count ==> |blocks[arena + a].data| == ArenaTotal(plan.buffers, a) + plan.alignment
  }

  /** A value the fallback can give a CPU tensor of its own. */
  predicate Allocatable(v: Value) {
    v.device.kind != CUDA && NBytes(v).Ok?
  }

  predicate NeedsStorage(v: Value) {
    v.kind != Input && v.kind != Constant
  }

  /** After the arena phase has looked at the first v ranges. */
  ghost predicate ArenaPhase(plan: MemoryPlan, blocks: seq<Block>, arena: nat, before: Bindings, bindings: Bindings,
                             v: nat)
    requires plan.alignment > 0 && EligiblePlaced(plan.ranges, plan.buffers) && v <= |plan.ranges|
  {
    && PlannedTensors(plan, blocks, arena, before, bindings, v)
    && (forall u :: u in bindings && !(u < v && Planned(plan.ranges, before, u)) ==> bindings[u].block < arena)
    && (forall u: nat :: u in bindings <==> u in before || (u < v && Planned(plan.ranges, before, u)))
  }

  predicate NeedsOwn(values: seq<Value>, ranges: seq<LiveRange>, before: Bindings, v: ValueId)
    requires v < |values|
  {
    NeedsStorage(values[v]) && v !in before && !(v < |ranges| && ranges[v].eligible)
  }

  /** After the fallback has looked at the first v values. */
  ghost predicate RestPhase(values: seq<Value>, plan: MemoryPlan, before: Bindings, bindings: Bindings, v: nat)
    requires v <= |values|
  {
    && (forall u: nat :: u in bindings <==> u in before || Planned(plan.ranges, before, u) ||
                                            (u < v && NeedsStorage(values[u])))
    && (forall u :: 0 <= u < v && NeedsOwn(values, plan.ranges, before, u) ==> Allocatable(values[u]))
  }

  ghost predicate NoCudaValues(values: seq<Value>, options: PlanOptions) {
    forall v :: 0 <= v < |values| && FootprintOf(values[v], options).Sized? ==> values[v].device.kind != CUDA
  }

  ghost predicate UnplannedAllocatable(values: seq<Value>, options: PlanOptions, before: Bindings) {
    forall v :: 0 <= v < |values| && NeedsStorage(values[v]) && v !in before &&
                !FootprintOf(values[v], options).Sized? ==>
      Allocatable(values[v])
  }

  /** What planned allocation asks of the graph itself: nothing to be placed on a CUDA device, and a known size for
      every value that is neither bound nor planned. */
  ghost predicate ValuesAllocatable(values: seq<Value>, options: PlanOptions, before: Bindings) {
    NoCudaValues(values, options) && UnplannedAllocatable(values, options, before)
  }

  ghost predicate NoCudaBuffers(plan: MemoryPlan) {
    forall b :: 0 <= b < |plan.buffers| ==> plan.buffers[b].device.kind != CUDA
  }

  ghost predicate ArenasWithinSizes(plan: MemoryPlan) {
    forall b :: 0 <= b < |plan.buffers| && plan.buffers[b].arenaIndex.Some? ==>
      ArenaTotal(plan.buffers, plan.buffers[b].arenaIndex.value) + plan.alignment <= SIZE_LIMIT
  }

  ghost predicate OwnAllocatable(values: seq<Value>, ranges: seq<LiveRange>, before: Bindings) {
    forall v :: 0 <= v < |values| && NeedsOwn(values, ranges, before, v) ==> Allocatable(values[v])
  }

  /** What planned allocation needs: no CUDA arena, arenas within size_t, and a CPU tensor for every other value. */
  ghost predicate CanAllocate(values: seq<Value>, plan: MemoryPlan, before: Bindings) {
    NoCudaBuffers(plan) && ArenasWithinSizes(plan) && OwnAllocatable(values, plan.ranges, before)
  }

  predicate AlignedTensor(blocks: seq<Block>, t: Tensor, alignment: nat)
    requires alignment > 0
  {
    t.block < |blocks| && (blocks[t.block].address + t.offset) % alignment == 0
  }

  ghost predicate PlannedAligned(plan: MemoryPlan, before: Bindings, blocks: seq<Block>, bindings: Bindings)
    requires plan.alignment > 0
  {
    forall v :: v in bindings && Planned(plan.ranges, before, v) ==> AlignedTensor(blocks, bindings[v], plan.alignment)
  }

  ghost predicate NewSized(values: seq<Value>, before: Bindings, bindings: Bindings) {
    forall v :: v in bindings && v !in before ==>
      v < |values| && NeedsStorage(values[v]) && NBytes(values[v]) == Ok(bindings[v].size)
  }

  /** Tensors the fallback allocated start zero-filled. */
  ghost predicate OwnedZeroed(ranges: seq<LiveRange>, before: Bindings, blocks: seq<Block>, bindings: Bindings)
    requires AllInside(blocks, bindings)
  {
    forall v :: v in bindings && v !in before && !Planned(ranges, before, v) ==>
      AllZero(Contents(blocks, bindings[v]))
  }

  predicate AllZero(bytes: seq<Byte>) {
    forall k :: 0 <= k < |bytes| ==> bytes[k] == 0
  }

  ghost predicate Includes(before: Bindings, bindings: Bindings) {
    forall v :: v in before ==> v in bindings && bindings[v] == before[v]
  }

  /** Everything the three phases of allocation keep between them. */
  ghost predicate Progress(values: seq<Value>, plan: MemoryPlan, before: Bindings, blocks: seq<Block>,
                           bindings: Bindings)
    requires plan.alignment > 0
  {
    && AllInside(blocks, bindings)
    && SharedOnlyApart(plan.ranges, before, bindings)
    && Includes(before, bindings)
    && NewSized(values, before, bindings)
    && PlannedAligned(plan, before, blocks, bindings)
    && OwnedZeroed(plan.ranges, before, blocks, bindings)
  }

  /** A context ready to run: tensors lie in storage, share bytes only when never live together, and planned
      tensors are aligned; every value that needs storage has a tensor of its size. */
  ghost predicate Prepared(values: seq<Value>, plan: MemoryPlan, before: Bindings, blocks: seq<Block>,
                           bindings: Bindings)
    requires plan.alignment > 0
  {
    Progress(values, plan, before, blocks, bindings) &&
    forall v :: 0 <= v < |values| && NeedsStorage(values[v]) ==> v in bindings
  }

  ghost predicate RangesFit(values: seq<Value>, ranges: seq<LiveRange>) {
    |ranges| == |values| &&
    forall v :: 0 <= v < |values| ==>
      values[v].id == v && ranges[v].value == v && ranges[v].bytes <= ranges[v].alignedBytes &&
      (ranges[v].eligible ==> NeedsStorage(values[v]) && NBytes(values[v]) == Ok(ranges[v].bytes))
  }
}

/** Tensor allocation for a graph (src/runtime/runtime_context.cpp), in a build without CUDA. */
module RuntimeContexts {
  import opened Sequences
  import opened Wrappers
  import opened Graphs
  import opened LiveRanges
  import opened BufferReuseSpec
  import opened ArenaLayouts
  import opened MemoryPlanSpec
  import opened PlanTheorems
  import opened Bytes
  import opened TensorMemory
  import opened ContextSpec

  lemma {:induction false} TotalCoversBuffer(buffers: seq<Buffer>, a: nat, b: nat)
    requires b < |buffers| && buffers[b].arenaIndex == Some(a)
    ensures buffers[b].offset + buffers[b].bytes <= ArenaTotal(buffers, a)
  {
    var n := |buffers| - 1;
    if b < n {
      TotalCoversBuffer(buffers[..n], a, b);
    }
  }

  /** Planned tensors lie inside their blocks and start at multiples of the alignment. */
  lemma PlannedInside(plan: MemoryPlan, blocks: seq<Block>, arena: nat, count: nat, v: ValueId, t: Tensor)
    requires GoodStorage(plan) && DenseArenas(plan.buffers, count) && ArenaBlocks(plan, blocks, arena, count)
    requires v < |plan.ranges| && plan.ranges[v].eligible && plan.ranges[v].bytes <= plan.ranges[v].alignedBytes
    requires Placed(plan.ranges[v], plan.buffers) && PlannedTensor(plan, blocks, arena, v, t)
    ensures Inside(blocks, t)
    ensures AlignedTensor(blocks, t, plan.alignment)
  {
    var id := plan.ranges[v].bufferId.value;
    var b := plan.buffers[id];
    TotalCoversBuffer(plan.buffers, b.arenaIndex.value, id);
    OffsetsAligned(plan, id);
    var base := blocks[t.block].address + AlignPointer(blocks[t.block].address, plan.alignment);
    Arithmetic.SumOfMultiples(base, b.offset, plan.alignment);
  }

  /** Planned tensors of values that are live together share no byte. */
  lemma PlannedSeparate(plan: MemoryPlan, blocks: seq<Block>, arena: nat, u: ValueId, v: ValueId, t: Tensor, s: Tensor)
    requires GoodStorage(plan) && u < |plan.ranges| && v < |plan.ranges| && u != v
    requires plan.ranges[u].eligible && plan.ranges[u].bytes <= plan.ranges[u].alignedBytes
    requires plan.ranges[v].eligible && plan.ranges[v].bytes <= plan.ranges[v].alignedBytes
    requires Placed(plan.ranges[u], plan.buffers) && PlannedTensor(plan, blocks, arena, u, t)
    requires Placed(plan.ranges[v], plan.buffers) && PlannedTensor(plan, blocks, arena, v, s)
    ensures Overlap(t, s) ==> Apart(plan.ranges[u], plan.ranges[v])
  {
    if !Apart(plan.ranges[u], plan.ranges[v]) && t.block == s.block {
      LiveTogetherDisjoint(plan, u, v);
    }
  }

  lemma PlanRangesFit(nodes: seq<Node>, order: seq<NodeId>, values: seq<Value>, options: PlanOptions,
                      ranges: seq<LiveRange>)
    requires AllBelow(order, |nodes|) && RangesMatch(nodes, order, values, options, ranges)
    requires forall i :: 0 <= i < |values| ==> values[i].id == i
    ensures RangesFit(values, ranges)
  {
    forall v | 0 <= v < |values|
      ensures values[v].id == v && ranges[v].value == v && ranges[v].bytes <= ranges[v].alignedBytes &&
              (ranges[v].eligible ==> NeedsStorage(values[v]) && NBytes(values[v]) == Ok(ranges[v].bytes))
    {
      assert RangeMatches(nodes, order, values[v], options, ranges[v]);
    }
  }

  lemma AppendBlock(values: seq<Value>, plan: MemoryPlan, before: Bindings, blocks: seq<Block>, bindings: Bindings,
                    b: Block)
    requires plan.alignment > 0 && Progress(values, plan, before, blocks, bindings)
    ensures Progress(values, plan, before, blocks + [b], bindings)
  {
    forall v | v in bindings
      ensures Inside(blocks + [b], bindings[v]) && Contents(blocks + [b], bindings[v]) == Contents(blocks, bindings[v])
      ensures (blocks + [b])[bindings[v].block].address == blocks[bindings[v].block].address
    {
      assert (blocks + [b])[bindings[v].block] == blocks[bindings[v].block];
    }
  }

  /** A tensor in a new block meets no other. */
  lemma NewBlockApart(ranges: seq<LiveRange>, before: Bindings, blocks: seq<Block>, bindings: Bindings, v: ValueId,
                      t: Tensor)
    requires AllInside(blocks, bindings) && SharedOnlyApart(ranges, before, bindings) && t.block == |blocks|
    ensures SharedOnlyApart(ranges, before, bindings[v := t])
  {
    forall u | u in bindings && u != v ensures !Overlap(bindings[u], t) && !Overlap(t, bindings[u]) {
    }
  }

  /** The fallback gives a value a block of its own. */
  lemma AppendOwned(values: seq<Value>, plan: MemoryPlan, before: Bindings, blocks: seq<Block>, bindings: Bindings,
                    b: Block, v: ValueId)
    requires plan.alignment > 0 && Progress(values, plan, before, blocks, bindings)
    requires v < |values| && v !in bindings && !Planned(plan.ranges, before, v) && NBytes(values[v]) == Ok(|b.data|)
    requires NeedsStorage(values[v]) && AllZero(b.data)
    ensures Progress(values, plan, before, blocks + [b], bindings[v := Tensor(|blocks|, 0, |b.data|)])
  {
    var t := Tensor(|blocks|, 0, |b.data|);
    AppendBlock(values, plan, before, blocks, bindings, b);
    NewBlockApart(plan.ranges, before, blocks, bindings, v, t);
    assert Inside(blocks + [b], t) && Contents(blocks + [b], t) == b.data;
  }

  lemma AddTensor(ranges: seq<LiveRange>, before: Bindings, bindings: Bindings, v: ValueId, t: Tensor)
    requires SharedOnlyApart(ranges, before, bindings) && v !in bindings && Planned(ranges, before, v)
    requires forall u :: u in bindings && Overlap(bindings[u], t) ==>
               Planned(ranges, before, u) && Apart(ranges[u], ranges[v])
    ensures SharedOnlyApart(ranges, before, bindings[v := t])
  {
  }

  /** A planned tensor that only meets planned tensors of other times can be bound. */
  lemma BindKeeps(values: seq<Value>, plan: MemoryPlan, before: Bindings, blocks: seq<Block>, bindings: Bindings,
                  v: ValueId, t: Tensor)
    requires plan.alignment > 0 && Progress(values, plan, before, blocks, bindings)
    requires v < |values| && v !in bindings && Planned(plan.ranges, before, v)
    requires Inside(blocks, t) && AlignedTensor(blocks, t, plan.alignment)
    requires NeedsStorage(values[v]) && NBytes(values[v]) == Ok(t.size)
    requires forall u :: u in bindings && Overlap(bindings[u], t) ==>
               Planned(plan.ranges, before, u) && Apart(plan.ranges[u], plan.ranges[v])
    ensures Progress(values, plan, before, blocks, bindings[v := t])
  {
    AddTensor(plan.ranges, before, bindings, v, t);
  }

  /** Arena tensors bound so far meet the next one only when the two values live at different times. */
  lemma MeetsOnlyApart(plan: MemoryPlan, before: Bindings, blocks: seq<Block>, bindings: Bindings, arena: nat,
                       v: ValueId, t: Tensor, u: ValueId)
    requires v < |plan.ranges| && Planned(plan.ranges, before, v) && GoodStorage(plan)
    requires forall w :: 0 <= w < |plan.ranges| ==> plan.ranges[w].bytes <= plan.ranges[w].alignedBytes
    requires u in bindings && Overlap(bindings[u], t)
    requires !(u < v && Planned(plan.ranges, before, u)) ==> bindings[u].block < arena
    requires PlannedTensors(plan, blocks, arena, before, bindings, v)
    requires Placed(plan.ranges[v], plan.buffers) && PlannedTensor(plan, blocks, arena, v, t)
    ensures Planned(plan.ranges, before, u) && Apart(plan.ranges[u], plan.ranges[v])
  {
    PlannedSeparate(plan, blocks, arena, u, v, bindings[u], t);
  }

  /** Binding a planned value to its place in the arena. */
  lemma BindPlanned(values: seq<Value>, plan: MemoryPlan, before: Bindings, blocks: seq<Block>, bindings: Bindings,
                    arena: nat, count: nat, v: ValueId, t: Tensor)
    requires v < |values| && v !in bindings && Planned(plan.ranges, before, v)
    requires GoodStorage(plan) && RangesFit(values, plan.ranges) && Progress(values, plan, before, blocks, bindings)
    requires DenseArenas(plan.buffers, count) && ArenaBlocks(plan, blocks, arena, count)
    requires forall u :: u in bindings && !(u < v && Planned(plan.ranges, before, u)) ==> bindings[u].block < arena
    requires PlannedTensors(plan, blocks, arena, before, bindings, v)
    requires Placed(plan.ranges[v], plan.buffers) && PlannedTensor(plan, blocks, arena, v, t)
    ensures Progress(values, plan, before, blocks, bindings[v := t])
  {
    PlannedInside(plan, blocks, arena, count, v, t);
    forall u | u in bindings && Overlap(bindings[u], t)
      ensures Planned(plan.ranges, before, u) && Apart(plan.ranges[u], plan.ranges[v])
    {
      MeetsOnlyApart(plan, before, blocks, bindings, arena, v, t, u);
    }
    BindKeeps(values, plan, before, blocks, bindings, v, t);
  }

  /** The device of an arena is that of its first buffer. */
  function FirstDevice(buffers: seq<Buffer>, a: nat): Option<Device> {
    if buffers == [] then None
    else if buffers[0].arenaIndex == Some(a) then Some(buffers[0].device)
    else FirstDevice(buffers[1..], a)
  }

  lemma {:induction false} FirstDeviceIs(buffers: seq<Buffer>, a: nat)
    requires exists b :: 0 <= b < |buffers| && buffers[b].arenaIndex == Some(a)
    ensures FirstDevice(buffers, a).Some?
    ensures exists b :: 0 <= b < |buffers| && buffers[b].arenaIndex == Some(a) &&
                        Some(buffers[b].device) == FirstDevice(buffers, a)
  {
    var b :| 0 <= b < |buffers| && buffers[b].arenaIndex == Some(a);
    if buffers[0].arenaIndex != Some(a) {
      assert buffers[1..][b - 1] == buffers[b];
      FirstDeviceIs(buffers[1..], a);
      var c :| 0 <= c < |buffers[1..]| && buffers[1..][c].arenaIndex == Some(a) &&
               Some(buffers[1..][c].device) == FirstDevice(buffers[1..], a);
      assert buffers[c + 1] == buffers[1..][c];
    }
  }

  ghost predicate ArenaFits(plan: MemoryPlan, a: nat) {
    FirstDevice(plan.buffers, a).Some? && FirstDevice(plan.buffers, a).value.kind != CUDA &&
    ArenaTotal(plan.buffers, a) + plan.alignment <= SIZE_LIMIT
  }

  ghost predicate ArenasFit(plan: MemoryPlan, count: nat) {
    forall a :: 0 <= a < count ==> ArenaFits(plan, a)
  }

  /** Checking one buffer per arena is enough, because an arena is a pool. */
  lemma ArenasFitIffBuffersDo(plan: MemoryPlan, count: nat)
    requires GoodStorage(plan) && DenseArenas(plan.buffers, count)
    ensures ArenasFit(plan, count) <==>
              forall b :: 0 <= b < |plan.buffers| ==>
                plan.buffers[b].device.kind != CUDA &&
                ArenaTotal(plan.buffers, plan.buffers[b].arenaIndex.value) + plan.alignment <= SIZE_LIMIT
  {
    if ArenasFit(plan, count) {
      forall b | 0 <= b < |plan.buffers|
        ensures plan.buffers[b].device.kind != CUDA &&
                ArenaTotal(plan.buffers, plan.buffers[b].arenaIndex.value) + plan.alignment <= SIZE_LIMIT
      {
        var a := plan.buffers[b].arenaIndex.value;
        assert ArenaFits(plan, a);
        FirstDeviceIs(plan.buffers, a);
      }
    } else {
      var a :| 0 <= a < count && !ArenaFits(plan, a);
      assert ArenaUsed(plan.buffers, a);
      FirstDeviceIs(plan.buffers, a);
    }
  }

  /** In terms of the graph: planned allocation succeeds exactly when nothing planned is on a CUDA device, everything
      else that needs storage has a size, and each arena stays within size_t, which it does when all planned values
      together do. */
  lemma AllocationNeeds(nodes: seq<Node>, order: seq<NodeId>, values: seq<Value>, options: PlanOptions,
                        plan: MemoryPlan, before: Bindings)
    requires AllBelow(order, |nodes|) && GoodPlan(nodes, order, values, options, plan)
    ensures CanAllocate(values, plan, before) <==> ValuesAllocatable(values, options, before) && ArenasWithinSizes(plan)
    ensures plan.naiveBytes + plan.alignment <= SIZE_LIMIT ==> ArenasWithinSizes(plan)
  {
    OwnOnes(nodes, order, values, options, plan, before);
    BufferDevices(nodes, order, values, options, plan);
    if plan.naiveBytes + plan.alignment <= SIZE_LIMIT {
      NaiveCoversArenas(plan);
    }
  }

  lemma EligibleAre(nodes: seq<Node>, order: seq<NodeId>, values: seq<Value>, options: PlanOptions, plan: MemoryPlan)
    requires AllBelow(order, |nodes|) && GoodPlan(nodes, order, values, options, plan)
    ensures |plan.ranges| == |values|
    ensures forall v: nat :: v < |values| ==> (plan.ranges[v].eligible <==> FootprintOf(values[v], options).Sized?)
  {
    forall v: nat | v < |values| ensures plan.ranges[v].eligible <==> FootprintOf(values[v], options).Sized? {
      assert RangeMatches(nodes, order, values[v], options, plan.ranges[v]);
    }
  }

  /** The values that get a tensor of their own are those that are neither bound nor planned. */
  lemma OwnOnes(nodes: seq<Node>, order: seq<NodeId>, values: seq<Value>, options: PlanOptions, plan: MemoryPlan,
                before: Bindings)
    requires AllBelow(order, |nodes|) && GoodPlan(nodes, order, values, options, plan)
    ensures OwnAllocatable(values, plan.ranges, before) <==> UnplannedAllocatable(values, options, before)
  {
    EligibleAre(nodes, order, values, options, plan);
    forall v: nat | v < |values|
      ensures NeedsOwn(values, plan.ranges, before, v) <==>
              NeedsStorage(values[v]) && v !in before && !FootprintOf(values[v], options).Sized?
    {
    }
  }

  lemma NaiveCoversArenas(plan: MemoryPlan)
    requires GoodStorage(plan) && GoodTotals(plan) && plan.naiveBytes + plan.alignment <= SIZE_LIMIT
    ensures ArenasWithinSizes(plan)
  {
    var count :| DenseArenas(plan.buffers, count);
    ArenaTotals(plan, count);
    forall b | 0 <= b < |plan.buffers| && plan.buffers[b].arenaIndex.Some?
      ensures ArenaTotal(plan.buffers, plan.buffers[b].arenaIndex.value) <= plan.naiveBytes
    {
      ArenaInSum(plan.buffers, plan.buffers[b].arenaIndex.value, count);
    }
  }

  /** A buffer is on a CUDA device exactly when a planned value is. */
  lemma BufferDevices(nodes: seq<Node>, order: seq<NodeId>, values: seq<Value>, options: PlanOptions, plan: MemoryPlan)
    requires AllBelow(order, |nodes|) && GoodPlan(nodes, order, values, options, plan)
    ensures NoCudaBuffers(plan) <==> NoCudaValues(values, options)
  {
    if NoCudaBuffers(plan) {
      forall v: nat | v < |values| && FootprintOf(values[v], options).Sized? ensures values[v].device.kind != CUDA {
        ValueHasBuffer(nodes, order, values, options, plan, v);
      }
    }
    if NoCudaValues(values, options) {
      forall b: nat | b < |plan.buffers| ensures plan.buffers[b].device.kind != CUDA {
        var v := BufferHasValue(nodes, order, values, options, plan, b);
      }
    }
  }

  lemma ValueHasBuffer(nodes: seq<Node>, order: seq<NodeId>, values: seq<Value>, options: PlanOptions, plan: MemoryPlan,
                       v: nat)
    requires AllBelow(order, |nodes|) && GoodPlan(nodes, order, values, options, plan)
    requires v < |values| && FootprintOf(values[v], options).Sized?
    ensures exists b :: 0 <= b < |plan.buffers| && plan.buffers[b].device == values[v].device
  {
    assert RangeMatches(nodes, order, values[v], options, plan.ranges[v]);
    assert Placed(plan.ranges[v], plan.buffers);
    assert plan.buffers[plan.ranges[v].bufferId.value].device == values[v].device;
  }

  lemma BufferHasValue(nodes: seq<Node>, order: seq<NodeId>, values: seq<Value>, options: PlanOptions, plan: MemoryPlan,
                       b: nat)
    returns (v: nat)
    requires AllBelow(order, |nodes|) && GoodPlan(nodes, order, values, options, plan) && b < |plan.buffers|
    ensures v < |values| && FootprintOf(values[v], options).Sized? && values[v].device == plan.buffers[b].device
  {
    assert Created(plan.ranges, plan.buffers[b]);
    v :| 0 <= v < |plan.ranges| && plan.ranges[v].eligible && RangePool(plan.ranges[v]) == BufferPool(plan.buffers[b]);
    assert RangeMatches(nodes, order, values[v], options, plan.ranges[v]);
  }

  lemma NextArenaPhase(plan: MemoryPlan, blocks: seq<Block>, arena: nat, before: Bindings, bindings: Bindings, v: nat,
                       t: Tensor)
    requires v < |plan.ranges| && GoodStorage(plan) && Placed(plan.ranges[v], plan.buffers)
    requires ArenaPhase(plan, blocks, arena, before, bindings, v) && Planned(plan.ranges, before, v)
    requires PlannedTensor(plan, blocks, arena, v, t)
    ensures ArenaPhase(plan, blocks, arena, before, bindings[v := t], v + 1)
  {
  }

  /** The value gets a tensor of its own exactly when it needs one and has none. */
  lemma RestNext(values: seq<Value>, plan: MemoryPlan, before: Bindings, bindings: Bindings, bindings': Bindings,
                 v: nat)
    requires v < |values| && RestPhase(values, plan, before, bindings, v)
    requires if NeedsStorage(values[v]) && v !in bindings then
               v in bindings' && bindings' == bindings[v := bindings'[v]]
             else bindings' == bindings
    requires NeedsOwn(values, plan.ranges, before, v) ==> Allocatable(values[v])
    ensures RestPhase(values, plan, before, bindings', v + 1)
  {
    forall u: nat
      ensures u in bindings' <==> u in before || Planned(plan.ranges, before, u) ||
                                  (u < v + 1 && NeedsStorage(values[u]))
    {
      assert u in bindings <==> u in before || Planned(plan.ranges, before, u) || (u < v && NeedsStorage(values[u]));
    }
  }

  class RuntimeContext {
    var blocks: seq<Block>
    var bindings: Bindings
    const allocator: nat -> nat

    /** The allocator decides the address of each block. */
    constructor (allocator: nat -> nat)
      ensures blocks == [] && bindings == map[] && this.allocator == allocator
    {
      this.allocator := allocator;
      blocks, bindings := [], map[];
    }

    method AllocateBlock(size: nat) returns (block: nat)
      modifies this`blocks
      ensures block == |old(blocks)| && |blocks| == block + 1 && blocks[..block] == old(blocks)
      ensures |blocks[block].data| == size && blocks[block].address == allocator(block)
      ensures forall k :: 0 <= k < size ==> blocks[block].data[k] == 0
    {
      block := |blocks|;
      blocks := blocks + [Block(allocator(block), seq(size, i => 0))];
    }

    /** bind: a tensor the caller owns, with its contents, becomes the value's tensor. */
    method Bind(id: ValueId, data: seq<Byte>)
      requires AllInside(blocks, bindings) && Separate(bindings)
      modifies this
      ensures AllInside(blocks, bindings) && Separate(bindings)
      ensures |blocks| == |old(blocks)| + 1 && blocks[..|old(blocks)|] == old(blocks)
      ensures bindings == old(bindings)[id := Tensor(|old(blocks)|, 0, |data|)]
      ensures Contents(blocks, bindings[id]) == data
    {
      blocks := blocks + [Block(allocator(|blocks|), data)];
      bindings := bindings[id := Tensor(|blocks| - 1, 0, |data|)];
    }

    method ArenaSize(buffers: seq<Buffer>, a: nat) returns (total: nat)
      ensures total == ArenaTotal(buffers, a)
    {
      total := 0;
      for b := 0 to |buffers|
        invariant total == ArenaTotal(buffers[..b], a)
      {
        assert buffers[..b + 1][..b] == buffers[..b];
        if buffers[b].arenaIndex == Some(a) && buffers[b].offset + buffers[b].bytes > total {
          total := buffers[b].offset + buffers[b].bytes;
        }
      }
      assert buffers[..|buffers|] == buffers;
    }

    /** One block per arena, with room to align its base. */
    method AllocateArenas(plan: MemoryPlan, count: nat) returns (status: Status)
      requires plan.alignment > 0 && DenseArenas(plan.buffers, count)
      modifies this`blocks
      ensures status == Success <==> ArenasFit(plan, count)
      ensures |old(blocks)| <= |blocks| && blocks[..|old(blocks)|] == old(blocks)
      ensures status == Success ==> ArenaBlocks(plan, blocks, |old(blocks)|, count) && |blocks| == |old(blocks)| + count
    {
      ghost var arena := |blocks|;
      for a := 0 to count
        invariant ArenasFit(plan, a)
        invariant |blocks| == arena + a && blocks[..arena] == old(blocks)
        invariant ArenaBlocks(plan, blocks, arena, a)
      {
        assert ArenaUsed(plan.buffers, a);
        FirstDeviceIs(plan.buffers, a);
        var total := ArenaSize(plan.buffers, a);
        if total + plan.alignment > SIZE_LIMIT {
          assert !ArenaFits(plan, a);
          return Failure(OutOfRange);
        }
        if FirstDevice(plan.buffers, a).value.kind == CUDA {
          assert !ArenaFits(plan, a);
          return Failure(Unsupported);
        }
        var _ := AllocateBlock(total + plan.alignment);
      }
      return Success;
    }

    /** One range: a planned value that has no tensor yet gets its place in the arena. */
    method BindRange(values: seq<Value>, plan: MemoryPlan, arena: nat, count: nat, ghost before: Bindings, v: nat)
      requires v < |plan.ranges| && GoodStorage(plan) && RangesFit(values, plan.ranges)
      requires Progress(values, plan, before, blocks, bindings) && ArenaPhase(plan, blocks, arena, before, bindings, v)
      requires DenseArenas(plan.buffers, count) && ArenaBlocks(plan, blocks, arena, count)
      modifies this`bindings
      ensures Progress(values, plan, before, blocks, bindings)
      ensures ArenaPhase(plan, blocks, arena, before, bindings, v + 1)
    {
      var range := plan.ranges[v];
      if range.eligible && range.value !in bindings {
        assert Placed(range, plan.buffers);
        var buffer := plan.buffers[range.bufferId.value];
        var block := arena + buffer.arenaIndex.value;
        var base := AlignPointer(blocks[block].address, plan.alignment);
        // bind_cpu_data accepts the pointer: the rest of the arena is large enough for the tensor.
        TotalCoversBuffer(plan.buffers, buffer.arenaIndex.value, range.bufferId.value);
        assert range.bytes <= ArenaTotal(plan.buffers, buffer.arenaIndex.value) - buffer.offset;
        var tensor := Tensor(block, base + buffer.offset, range.bytes);
        BindPlanned(values, plan, before, blocks, bindings, arena, count, v, tensor);
        NextArenaPhase(plan, blocks, arena, before, bindings, v, tensor);
        bindings := bindings[v := tensor];
      }
    }

    method BindRanges(values: seq<Value>, plan: MemoryPlan, arena: nat, count: nat)
      requires GoodStorage(plan) && RangesFit(values, plan.ranges)
      requires Progress(values, plan, bindings, blocks, bindings)
      requires DenseArenas(plan.buffers, count) && ArenaBlocks(plan, blocks, arena, count)
      requires forall u :: u in bindings ==> bindings[u].block < arena
      modifies this`bindings
      ensures Progress(values, plan, old(bindings), blocks, bindings)
      ensures RestPhase(values, plan, old(bindings), bindings, 0)
    {
      ghost var before := bindings;
      for v := 0 to |plan.ranges|
        invariant Progress(values, plan, before, blocks, bindings)
        invariant ArenaPhase(plan, blocks, arena, before, bindings, v)
      {
        BindRange(values, plan, arena, count, before, v);
      }
    }

    /** One value: without a planned or bound tensor it gets one of its own. */
    method AllocateOwn(values: seq<Value>, plan: MemoryPlan, ghost before: Bindings, v: nat) returns (status: Status)
      requires v < |values| && plan.alignment > 0 && Progress(values, plan, before, blocks, bindings)
      requires RestPhase(values, plan, before, bindings, v)
      modifies this
      ensures status == Success <==> (NeedsOwn(values, plan.ranges, before, v) ==> Allocatable(values[v]))
      ensures status == Success ==> Progress(values, plan, before, blocks, bindings) &&
                                    RestPhase(values, plan, before, bindings, v + 1)
      ensures |old(blocks)| <= |blocks| && blocks[..|old(blocks)|] == old(blocks)
    {
      if NeedsStorage(values[v]) && v !in bindings {
        if !Allocatable(values[v]) {
          return Failure(if NBytes(values[v]).Err? then NBytes(values[v]).error else Unsupported);
        }
        ghost var bound := bindings;
        BindOwn(values, plan, before, v);
        RestNext(values, plan, before, bound, bindings, v);
        return Success;
      }
      RestNext(values, plan, before, bindings, bindings, v);
      return Success;
    }

    /** A zero-filled block of its own for one value. */
    method BindOwn(values: seq<Value>, plan: MemoryPlan, ghost before: Bindings, v: nat)
      requires v < |values| && plan.alignment > 0 && Progress(values, plan, before, blocks, bindings)
      requires NeedsStorage(values[v]) && v !in bindings && NBytes(values[v]).Ok? && !Planned(plan.ranges, before, v)
      modifies this
      ensures Progress(values, plan, before, blocks, bindings)
      ensures v in bindings && bindings == old(bindings)[v := bindings[v]]
      ensures |old(blocks)| <= |blocks| && blocks[..|old(blocks)|] == old(blocks)
    {
      ghost var blocks0 := blocks;
      var size := NBytes(values[v]).value;
      var block := AllocateBlock(size);
      AppendOwned(values, plan, before, blocks0, bindings, blocks[block], v);
      assert blocks == blocks0 + [blocks[block]];
      bindings := bindings[v := Tensor(block, 0, size)];
    }

    /** Values without a planned tensor get one of their own. */
    method AllocateRest(values: seq<Value>, plan: MemoryPlan, ghost before: Bindings) returns (status: Status)
      requires plan.alignment > 0 && Progress(values, plan, before, blocks, bindings)
      requires RestPhase(values, plan, before, bindings, 0)
      modifies this
      ensures status == Success <==> forall v :: 0 <= v < |values| && NeedsOwn(values, plan.ranges, before, v) ==>
                                       Allocatable(values[v])
      ensures status == Success ==> Prepared(values, plan, before, blocks, bindings)
      ensures |old(blocks)| <= |blocks| && blocks[..|old(blocks)|] == old(blocks)
    {
      ghost var n := |blocks|;
      for v := 0 to |values|
        invariant Progress(values, plan, before, blocks, bindings)
        invariant RestPhase(values, plan, before, bindings, v)
        invariant n <= |blocks| && blocks[..n] == old(blocks)
      {
        ghost var blocks0 := blocks;
        var st := AllocateOwn(values, plan, before, v);
        assert blocks[..n] == blocks[..|blocks0|][..n];
        if st != Success {
          return st;
        }
      }
      return Success;
    }

    /** allocate_intermediates_with_plan. */
    method AllocateWithPlan(values: seq<Value>, plan: MemoryPlan) returns (status: Status)
      requires GoodStorage(plan) && RangesFit(values, plan.ranges)
      requires AllInside(blocks, bindings) && Separate(bindings)
      requires forall v :: v in bindings ==> v < |values|
      modifies this
      ensures status == Success <==> CanAllocate(values, plan, old(bindings))
      ensures status == Success ==> Prepared(values, plan, old(bindings), blocks, bindings)
      ensures |old(blocks)| <= |blocks| && blocks[..|old(blocks)|] == old(blocks)
    {
      ghost var before, blocks0 := bindings, blocks;
      var count := ArenaCount(plan.buffers);
      ArenasFitIffBuffersDo(plan, count);
      status := AllocateArenas(plan, count);
      if status != Success {
        return;
      }
      assert Progress(values, plan, before, blocks, bindings);
      BindRanges(values, plan, |blocks| - count, count);
      status := AllocateRest(values, plan, before);
    }
  }

  /** One more than the largest arena index, or none. */
  method ArenaCount(buffers: seq<Buffer>) returns (count: nat)
    requires LaidOut(buffers)
    ensures DenseArenas(buffers, count)
  {
    count := 0;
    ghost var all: nat :| DenseArenas(buffers, all);
    for b := 0 to |buffers|
      invariant count <= all
      invariant forall c :: 0 <= c < b ==> buffers[c].arenaIndex.value < count
      invariant count == 0 || exists c :: 0 <= c < b && buffers[c].arenaIndex == Some(count - 1)
    {
      if buffers[b].arenaIndex.value + 1 > count {
        count := buffers[b].arenaIndex.value + 1;
      }
    }
    assert all > 0 ==> ArenaUsed(buffers, all - 1);
  }
}
