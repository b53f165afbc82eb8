/**
  The meaning of running a graph: every value has a private tensor and every compute node reads its
  inputs and writes its outputs. Kernels are arbitrary functions that may also fail.
*/
module ExecutionSpec {
  import opened Sequences
  import opened Wrappers
  import opened Graphs
  import opened LiveRanges
  import opened MemoryPlanSpec
  import opened Bytes
  import opened TensorMemory
  import opened ContextSpec

  /** A kernel computes the contents of a node's outputs from those of its inputs, or reports an error. */
  type Kernel = (Node, seq<seq<Byte>>) -> Option<seq<seq<Byte>>>

  type Env = map<ValueId, seq<Byte>>

  /** Input, Constant and Output nodes do nothing at run time. */
  predicate Computes(op: OpType) {
    op != OpInput && op != OpConstant && op != OpOutput
  }

  predicate AllBound(vs: seq<ValueId>, keys: set<ValueId>) {
    forall k :: 0 <= k < |vs| ==> vs[k] in keys
  }

  function Gather(env: Env, inputs: seq<ValueId>): (r: seq<seq<Byte>>)
    requires AllBound(inputs, env.Keys)
    ensures |r| == |inputs| && forall k :: 0 <= k < |inputs| ==> r[k] == env[inputs[k]]
  {
    seq(|inputs|, k requires 0 <= k < |inputs| => env[inputs[k]])
  }

  function Scatter(env: Env, outputs: seq<ValueId>, contents: seq<seq<Byte>>): Env
    requires |outputs| == |contents|
  {
    if outputs == [] then env
    else
      var n := |outputs| - 1;
      Scatter(env, outputs[..n], contents[..n])[outputs[n] := contents[n]]
  }

  /** The environment and the input contents every compute node has read so far. */
  datatype RunState = RunState(env: Env, trace: seq<seq<seq<Byte>>>)

  ghost function PrivateStep(kernel: Kernel, nd: Node, s: RunState): Option<RunState> {
    if !Computes(nd.op) then Some(s)
    else if !AllBound(nd.inputs, s.env.Keys) || !AllBound(nd.outputs, s.env.Keys) then None
    else
      var ins := Gather(s.env, nd.inputs);
      match kernel(nd, ins)
      case None => None
      case Some(outs) =>
        if |outs| != |nd.outputs| then None
        else Some(RunState(Scatter(s.env, nd.outputs, outs), s.trace + [ins]))
  }

  /** The first k sorted nodes on private tensors. */
  ghost function PrivateRun(kernel: Kernel, nodes: seq<Node>, order: seq<NodeId>, k: nat, env: Env): Option<RunState>
    requires AllBelow(order, |nodes|) && k <= |order|
  {
    if k == 0 then Some(RunState(env, []))
    else
      match PrivateRun(kernel, nodes, order, k - 1, env)
      case None => None
      case Some(s) => PrivateStep(kernel, nodes[order[k - 1]], s)
  }

  // ---------------------------------------------------------------- the same on shared bytes

  /** The storage and the input contents every compute node has read from it so far. */
  datatype SharedState = SharedState(blocks: seq<Block>, trace: seq<seq<seq<Byte>>>)

  /** What the input tensors hold. */
  ghost function ReadAll(blocks: seq<Block>, bindings: Bindings, inputs: seq<ValueId>): (r: seq<seq<Byte>>)
    requires AllInside(blocks, bindings) && AllBound(inputs, bindings.Keys)
    ensures |r| == |inputs| && forall k :: 0 <= k < |inputs| ==> r[k] == Contents(blocks, bindings[inputs[k]])
  {
    seq(|inputs|, k requires 0 <= k < |inputs| => Contents(blocks, bindings[inputs[k]]))
  }

  /** The outputs written one after another, each to the bytes of its tensor. */
  ghost function WriteAll(blocks: seq<Block>, bindings: Bindings, outputs: seq<ValueId>,
                          contents: seq<seq<Byte>>): seq<Block>
    requires |outputs| == |contents|
  {
    if outputs == [] then blocks
    else
      var n := |outputs| - 1;
      WriteOne(WriteAll(blocks, bindings, outputs[..n], contents[..n]), bindings, outputs[n], contents[n])
  }

  ghost function WriteOne(blocks: seq<Block>, bindings: Bindings, u: ValueId, bytes: seq<Byte>): seq<Block> {
    if u in bindings && Inside(blocks, bindings[u]) && |bytes| == bindings[u].size then
      Write(blocks, bindings[u], bytes)
    else blocks
  }

  ghost function SharedStep(kernel: Kernel, nd: Node, bindings: Bindings, s: SharedState): Option<SharedState> {
    if !Computes(nd.op) then Some(s)
    else if !AllBound(nd.inputs, bindings.Keys) || !AllBound(nd.outputs, bindings.Keys) ||
            !AllInside(s.blocks, bindings) then None
    else
      var ins := ReadAll(s.blocks, bindings, nd.inputs);
      match kernel(nd, ins)
      case None => None
      case Some(outs) =>
        if |outs| != |nd.outputs| then None
        else Some(SharedState(WriteAll(s.blocks, bindings, nd.outputs, outs), s.trace + [ins]))
  }

  /** The first k sorted nodes on the bytes that the bindings point at. */
  ghost function SharedRun(kernel: Kernel, nodes: seq<Node>, order: seq<NodeId>, k: nat, bindings: Bindings,
                           blocks: seq<Block>):
    Option<SharedState>
    requires AllBelow(order, |nodes|) && k <= |order|
  {
    if k == 0 then Some(SharedState(blocks, []))
    else
      match SharedRun(kernel, nodes, order, k - 1, bindings, blocks)
      case None => None
      case Some(s) => SharedStep(kernel, nodes[order[k - 1]], bindings, s)
  }

  /** The graph sorts, and its nodes run on private tensors in that order. */
  ghost predicate RunsPrivately(nodes: seq<Node>, valueCount: nat, kernel: Kernel, env: Env) {
    var sorted := SortedOrder(nodes, valueCount);
    sorted.Ok? && AllBelow(sorted.value, |nodes|) && PrivateRun(kernel, nodes, sorted.value, |sorted.value|, env).Some?
  }

  // ---------------------------------------------------------------- what the graph must satisfy

  ghost predicate SingleProducer(nodes: seq<Node>) {
    forall i, j, v :: 0 <= i < |nodes| && 0 <= j < |nodes| && v in nodes[i].outputs && v in nodes[j].outputs ==> i == j
  }

  /** Some compute node produces v. */
  ghost predicate Computed(nodes: seq<Node>, v: ValueId) {
    v in Producers(nodes) && Producers(nodes)[v] < |nodes| && Computes(nodes[Producers(nodes)[v]].op)
  }

  /** A compute node reads only values that some compute node produces, besides inputs, constants and bound values. */
  ghost predicate ReadsAreComputed(nodes: seq<Node>, values: seq<Value>, before: Bindings) {
    forall i, k :: 0 <= i < |nodes| && Computes(nodes[i].op) && 0 <= k < |nodes[i].inputs| ==>
      var v := nodes[i].inputs[k];
      v < |values| && (!NeedsStorage(values[v]) || v in before || Computed(nodes, v))
  }

  function Zeros(n: nat): seq<Byte> {
    seq(n, i => 0)
  }

  /** Kernels fill their output tensors exactly. */
  ghost predicate KernelFits(kernel: Kernel, nodes: seq<Node>, bindings: Bindings) {
    forall i, ins :: 0 <= i < |nodes| && kernel(nodes[i], ins).Some? ==>
      OutputsFit(nodes[i].outputs, kernel(nodes[i], ins).value, bindings)
  }

  ghost predicate OutputsFit(outputs: seq<ValueId>, contents: seq<seq<Byte>>, bindings: Bindings) {
    |contents| == |outputs| &&
    forall k :: 0 <= k < |outputs| && outputs[k] in bindings ==> |contents[k]| == bindings[outputs[k]].size
  }

  /** The same, in terms of private tensors. */
  ghost predicate KernelFitsEnv(kernel: Kernel, nodes: seq<Node>, env: Env) {
    forall i, ins :: 0 <= i < |nodes| && kernel(nodes[i], ins).Some? ==>
      ContentsFit(nodes[i].outputs, kernel(nodes[i], ins).value, env)
  }

  ghost predicate ContentsFit(outputs: seq<ValueId>, contents: seq<seq<Byte>>, env: Env) {
    |contents| == |outputs| &&
    forall k :: 0 <= k < |outputs| && outputs[k] in env ==> |contents[k]| == |env[outputs[k]]|
  }

  /** The private environment: bound values with their contents, every other value that needs storage zero-filled. */
  ghost predicate PrivateTensors(values: seq<Value>, blocks: seq<Block>, bindings: Bindings, env: Env)
    requires AllInside(blocks, bindings)
  {
    && (forall v :: v in bindings ==> v in env && env[v] == Contents(blocks, bindings[v]))
    && (forall v :: v in env <==> v in bindings || (0 <= v < |values| && NeedsStorage(values[v])))
    && (forall v :: v in env && v !in bindings && NBytes(values[v]).Ok? ==> env[v] == Zeros(NBytes(values[v]).value))
  }

  /** When the planner makes a plan. */
  ghost predicate Plannable(nodes: seq<Node>, values: seq<Value>, options: PlanOptions) {
    SortedOrder(nodes, |values|).Ok? && options.alignment > 0 && !AnyOverflow(values, options)
  }

  ghost predicate PlannedBy(nodes: seq<Node>, values: seq<Value>, options: PlanOptions, plan: MemoryPlan) {
    && SortedOrder(nodes, |values|).Ok? && AllBelow(SortedOrder(nodes, |values|).value, |nodes|)
    && GoodPlan(nodes, SortedOrder(nodes, |values|).value, values, options, plan)
  }

  /** What a caller of a planned run must provide. */
  ghost predicate RunInput(nodes: seq<Node>, values: seq<Value>, blocks: seq<Block>, bindings: Bindings, kernel: Kernel,
                           env: Env) {
    && (forall i :: 0 <= i < |values| ==> values[i].id == i)
    && AllInside(blocks, bindings) && Separate(bindings)
    && (forall v :: v in bindings ==> v < |values|)
    && SingleProducer(nodes) && ReadsAreComputed(nodes, values, bindings)
    && (forall v :: 0 <= v < |values| && values[v].kind == Output && v !in bindings ==> Computed(nodes, v))
    && PrivateTensors(values, blocks, bindings, env)
    && KernelFitsEnv(kernel, nodes, env)
  }

  /** What a successful planned run leaves in every Output value. */
  ghost predicate OutputsPrivate(values: seq<Value>, blocks: seq<Block>, bindings: Bindings, env: Env) {
    forall v :: 0 <= v < |values| && values[v].kind == Output ==>
      v in bindings && Inside(blocks, bindings[v]) && v in env && Contents(blocks, bindings[v]) == env[v]
  }

  /** Both runs failed, or both went well, read the same contents, and agree on every value that is still needed. */
  ghost predicate RunsAgree(s: Setup, k: nat, p: Option<RunState>, q: Option<SharedState>) {
    && (p.Some? <==> q.Some?)
    && (p.Some? ==> p.value.trace == q.value.trace && Simulates(s, k, q.value.blocks, p.value.env))
  }

  ghost predicate StepAgrees(s: Setup, kernel: Kernel, k: nat, p: RunState, q: SharedState)
    requires AllBelow(s.order, |s.nodes|) && k < |s.order|
  {
    var nd := s.nodes[s.order[k]];
    RunsAgree(s, k + 1, PrivateStep(kernel, nd, p), SharedStep(kernel, nd, s.bindings, q))
  }

  /** Every step takes agreeing runs to agreeing runs. */
  ghost predicate StepsAgree(s: Setup, kernel: Kernel)
    requires AllBelow(s.order, |s.nodes|)
  {
    forall k: nat, p: RunState, q: SharedState :: k < |s.order| && RunsAgree(s, k, Some(p), Some(q)) ==>
      StepAgrees(s, kernel, k, p, q)
  }

  /** A run from blocks to blocks' on the bound bytes: every compute node read from them what it reads on private
      tensors, and every Output value ends with its private contents. */
  ghost predicate RanAsPrivate(kernel: Kernel, nodes: seq<Node>, order: seq<NodeId>, values: seq<Value>,
                               blocks: seq<Block>, blocks': seq<Block>, bindings: Bindings, env: Env)
  {
    && AllBelow(order, |nodes|)
    && var p, q := PrivateRun(kernel, nodes, order, |order|, env),
                   SharedRun(kernel, nodes, order, |order|, bindings, blocks);
       && p.Some? && q.Some? && q.value.blocks == blocks'
       && q.value.trace == p.value.trace && OutputsPrivate(values, blocks', bindings, p.value.env)
  }

  // ---------------------------------------------------------------- the simulation

  /** The parts of a planned run that stay fixed. */
  datatype Setup = Setup(nodes: seq<Node>, order: seq<NodeId>, values: seq<Value>, options: PlanOptions,
                         ranges: seq<LiveRange>, before: Bindings, bindings: Bindings)

  ghost predicate SetupGood(s: Setup) {
    && Permutation(s.order, |s.nodes|) && ProducersFirst(s.nodes, s.order)
    && SingleProducer(s.nodes) && ReadsAreComputed(s.nodes, s.values, s.before)
    && (forall i :: 0 <= i < |s.values| ==> s.values[i].id == i)
    && RangesMatch(s.nodes, s.order, s.values, s.options, s.ranges)
    && SharedOnlyApart(s.ranges, s.before, s.bindings)
  }

  /** Value v's tensor holds its private contents before step k. */
  ghost predicate Current(s: Setup, k: nat, v: ValueId) {
    Planned(s.ranges, s.before, v) ==>
      Computed(s.nodes, v) && s.ranges[v].firstNode < k <= s.ranges[v].lastNode + 1
  }

  ghost predicate SizesAgree(bindings: Bindings, env: Env) {
    env.Keys == bindings.Keys && forall v :: v in bindings ==> |env[v]| == bindings[v].size
  }

  ghost predicate ContentsAgree(s: Setup, k: nat, blocks: seq<Block>, env: Env)
    requires AllInside(blocks, s.bindings) && env.Keys == s.bindings.Keys
  {
    forall v :: v in s.bindings && Current(s, k, v) ==> Contents(blocks, s.bindings[v]) == env[v]
  }

  /** In the middle of step k, after the first j outputs have been written. */
  ghost predicate WritingAgree(s: Setup, k: nat, j: nat, blocks: seq<Block>, env: Env)
    requires AllInside(blocks, s.bindings) && env.Keys == s.bindings.Keys
    requires k < |s.order| && AllBelow(s.order, |s.nodes|) && j <= |s.nodes[s.order[k]].outputs|
  {
    var outputs := s.nodes[s.order[k]].outputs;
    forall v :: v in s.bindings && Current(s, k + 1, v) && (v in outputs[..j] || v !in outputs) ==>
      Contents(blocks, s.bindings[v]) == env[v]
  }

  /** In the middle of step k the storage and the private environment agree. */
  ghost predicate MidStep(s: Setup, k: nat, j: nat, blocks: seq<Block>, env: Env)
    requires k < |s.order| && AllBelow(s.order, |s.nodes|) && j <= |s.nodes[s.order[k]].outputs|
  {
    AllInside(blocks, s.bindings) && SizesAgree(s.bindings, env) && WritingAgree(s, k, j, blocks, env)
  }

  /** A prepared context and a private environment that starts with the same readable contents. */
  ghost predicate Started(s: Setup, blocks: seq<Block>, env: Env) {
    && SetupGood(s) && AllInside(blocks, s.bindings) && SizesAgree(s.bindings, env)
    && ContentsAgree(s, 0, blocks, env)
    && (forall u :: 0 <= u < |s.ranges| && s.ranges[u].eligible ==> u < |s.values| && NeedsStorage(s.values[u]))
  }

  ghost predicate Simulates(s: Setup, k: nat, blocks: seq<Block>, env: Env) {
    AllInside(blocks, s.bindings) && SizesAgree(s.bindings, env) && ContentsAgree(s, k, blocks, env)
  }
}

/** CpuExecutor (src/runtime/executor.cpp) on a context prepared from a memory plan. */
module Executors {
  import opened Sequences
  import opened Wrappers
  import opened Graphs
  import opened LiveRanges
  import opened MemoryPlanSpec
  import opened MemoryPlanners
  import opened Bytes
  import opened TensorMemory
  import opened ContextSpec
  import opened RuntimeContexts
  import opened ExecutionSpec

  /** A computed planned value starts its life at its producer. */
  lemma StartsAtProducer(s: Setup, v: ValueId)
    requires SetupGood(s) && v < |s.ranges| && v < |s.values| && Computed(s.nodes, v)
    ensures s.ranges[v].firstNode < |s.order| && s.order[s.ranges[v].firstNode] == Producers(s.nodes)[v]
  {
    var p := Producers(s.nodes)[v];
    ProducersAreLast(s.nodes, v);
    Pigeonhole(s.order, |s.nodes|);
    var idx := IndexOf(s.order, p);
    assert Defines(s.nodes, s.order, idx, v);
    assert RangeMatches(s.nodes, s.order, s.values[v], s.options, s.ranges[v]);
    assert LastDefinition(s.nodes, s.order, v, s.ranges[v].firstNode);
  }

  lemma SamePosition(order: seq<nat>, i: nat, j: nat)
    requires NoDuplicates(order) && i < |order| && j < |order| && order[i] == order[j]
    ensures i == j
  {
  }

  /** An input of a compute node is current when the node runs. */
  lemma ReadIsCurrent(s: Setup, k: nat, v: ValueId)
    requires SetupGood(s) && k < |s.order| && Computes(s.nodes[s.order[k]].op) && v in s.nodes[s.order[k]].inputs
    requires forall u :: 0 <= u < |s.ranges| && s.ranges[u].eligible ==> u < |s.values| && NeedsStorage(s.values[u])
    ensures Current(s, k, v)
  {
    if Planned(s.ranges, s.before, v) {
      var c := s.order[k];
      var m := IndexOf(s.nodes[c].inputs, v);
      assert Computed(s.nodes, v);
      StartsAtProducer(s, v);
      var p := Producers(s.nodes)[v];
      assert Feeds(s.nodes, p, c);
      assert p in s.order[..k];
      var j := IndexOf(s.order[..k], p);
      SamePosition(s.order, j, s.ranges[v].firstNode);
      assert Touches(s.nodes, s.order, k, v);
      assert RangeMatches(s.nodes, s.order, s.values[v], s.options, s.ranges[v]);
    }
  }

  /** An output of a compute node is live exactly from the step that writes it. */
  lemma WriteStarts(s: Setup, k: nat, u: ValueId)
    requires SetupGood(s) && k < |s.order| && Computes(s.nodes[s.order[k]].op) && u in s.nodes[s.order[k]].outputs
    requires u < |s.ranges| && u < |s.values|
    ensures Computed(s.nodes, u) && s.ranges[u].firstNode == k <= s.ranges[u].lastNode
  {
    ProducersAreLast(s.nodes, u);
    assert Producers(s.nodes)[u] == s.order[k];
    StartsAtProducer(s, u);
    SamePosition(s.order, k, s.ranges[u].firstNode);
    assert Touches(s.nodes, s.order, k, u);
    assert RangeMatches(s.nodes, s.order, s.values[u], s.options, s.ranges[u]);
  }

  /** What a step writes shares no byte with any other value that is current afterwards. */
  lemma WritesClash(s: Setup, k: nat, u: ValueId, v: ValueId)
    requires SetupGood(s) && k < |s.order| && Computes(s.nodes[s.order[k]].op) && u in s.nodes[s.order[k]].outputs
    requires u in s.bindings && v in s.bindings && u != v && Current(s, k + 1, v)
    requires forall w :: 0 <= w < |s.ranges| && s.ranges[w].eligible ==> w < |s.values|
    ensures !Overlap(s.bindings[u], s.bindings[v])
  {
    if Overlap(s.bindings[u], s.bindings[v]) {
      WriteStarts(s, k, u);
    }
  }

  /** A value current after step k that the step does not write was current before it. */
  lemma CurrentBefore(s: Setup, k: nat, v: ValueId)
    requires SetupGood(s) && k < |s.order| && Current(s, k + 1, v) && v !in s.nodes[s.order[k]].outputs
    requires forall w :: 0 <= w < |s.ranges| && s.ranges[w].eligible ==> w < |s.values|
    ensures Current(s, k, v)
  {
    if Planned(s.ranges, s.before, v) && s.ranges[v].firstNode == k {
      StartsAtProducer(s, v);
      ProducersAreLast(s.nodes, v);
    }
  }

  /** A step that does not compute writes nothing that could become current. */
  lemma CurrentBeforeSkip(s: Setup, k: nat, v: ValueId)
    requires SetupGood(s) && k < |s.order| && Current(s, k + 1, v) && !Computes(s.nodes[s.order[k]].op)
    requires forall w :: 0 <= w < |s.ranges| && s.ranges[w].eligible ==> w < |s.values|
    ensures Current(s, k, v)
  {
    if Planned(s.ranges, s.before, v) && s.ranges[v].firstNode == k {
      StartsAtProducer(s, v);
    }
  }

  // ---------------------------------------------------------------- one node

  /** Writing output j of step k keeps the agreement. */
  lemma WriteOneAgrees(s: Setup, k: nat, j: nat, blocks: seq<Block>, env: Env, bytes: seq<Byte>)
    requires SetupGood(s) && k < |s.order| && Computes(s.nodes[s.order[k]].op) && j < |s.nodes[s.order[k]].outputs|
    requires forall w :: 0 <= w < |s.ranges| && s.ranges[w].eligible ==> w < |s.values|
    requires AllInside(blocks, s.bindings) && SizesAgree(s.bindings, env)
    requires s.nodes[s.order[k]].outputs[j] in s.bindings && |bytes| == s.bindings[s.nodes[s.order[k]].outputs[j]].size
    requires WritingAgree(s, k, j, blocks, env)
    ensures var u := s.nodes[s.order[k]].outputs[j];
            && AllInside(Write(blocks, s.bindings[u], bytes), s.bindings)
            && WritingAgree(s, k, j + 1, Write(blocks, s.bindings[u], bytes), env[u := bytes])
  {
    var outputs := s.nodes[s.order[k]].outputs;
    var u := outputs[j];
    var blocks' := Write(blocks, s.bindings[u], bytes);
    WriteReadsBack(blocks, s.bindings[u], bytes);
    NextSlice(outputs, j);
    forall v | v in s.bindings && Current(s, k + 1, v) && (v in outputs[..j + 1] || v !in outputs)
      ensures Contents(blocks', s.bindings[v]) == env[u := bytes][v]
    {
      if v != u {
        WriteSparesOther(s, k, u, v, blocks, bytes);
      }
    }
  }

  /** Writing an output of a node leaves every other value that is current afterwards alone. */
  lemma WriteSparesOther(s: Setup, k: nat, u: ValueId, v: ValueId, blocks: seq<Block>, bytes: seq<Byte>)
    requires SetupGood(s) && k < |s.order| && Computes(s.nodes[s.order[k]].op) && u in s.nodes[s.order[k]].outputs
    requires forall w :: 0 <= w < |s.ranges| && s.ranges[w].eligible ==> w < |s.values|
    requires AllInside(blocks, s.bindings) && u in s.bindings && |bytes| == s.bindings[u].size
    requires v in s.bindings && v != u && Current(s, k + 1, v)
    ensures Inside(Write(blocks, s.bindings[u], bytes), s.bindings[v])
    ensures Contents(Write(blocks, s.bindings[u], bytes), s.bindings[v]) == Contents(blocks, s.bindings[v])
  {
    WritesClash(s, k, u, v);
    WriteLeavesAlone(blocks, s.bindings[u], bytes, s.bindings[v]);
  }

  lemma StartWriting(s: Setup, k: nat, blocks: seq<Block>, env: Env)
    requires SetupGood(s) && k < |s.order| && Simulates(s, k, blocks, env)
    requires forall w :: 0 <= w < |s.ranges| && s.ranges[w].eligible ==> w < |s.values|
    ensures WritingAgree(s, k, 0, blocks, env)
  {
    forall v | v in s.bindings && Current(s, k + 1, v) && v !in s.nodes[s.order[k]].outputs
      ensures Contents(blocks, s.bindings[v]) == env[v]
    {
      CurrentBefore(s, k, v);
    }
  }

  lemma SkipAgrees(s: Setup, k: nat, blocks: seq<Block>, env: Env)
    requires SetupGood(s) && k < |s.order| && Simulates(s, k, blocks, env) && !Computes(s.nodes[s.order[k]].op)
    requires forall w :: 0 <= w < |s.ranges| && s.ranges[w].eligible ==> w < |s.values|
    ensures Simulates(s, k + 1, blocks, env)
  {
    forall v | v in s.bindings && Current(s, k + 1, v) ensures Contents(blocks, s.bindings[v]) == env[v] {
      CurrentBeforeSkip(s, k, v);
    }
  }

  /** The kernel's reads: the input tensors hold the private contents. */
  method ReadInputs(inputs: seq<ValueId>, blocks: seq<Block>, bindings: Bindings) returns (ins: seq<seq<Byte>>)
    requires AllInside(blocks, bindings) && AllBound(inputs, bindings.Keys)
    ensures |ins| == |inputs| && forall i :: 0 <= i < |inputs| ==> ins[i] == Contents(blocks, bindings[inputs[i]])
  {
    ins := [];
    for i := 0 to |inputs|
      invariant |ins| == i && forall m :: 0 <= m < i ==> ins[m] == Contents(blocks, bindings[inputs[m]])
    {
      ins := ins + [Contents(blocks, bindings[inputs[i]])];
    }
  }

  lemma ReadsAgree(s: Setup, k: nat, blocks: seq<Block>, env: Env, ins: seq<seq<Byte>>)
    requires SetupGood(s) && k < |s.order| && Simulates(s, k, blocks, env) && Computes(s.nodes[s.order[k]].op)
    requires forall u :: 0 <= u < |s.ranges| && s.ranges[u].eligible ==> u < |s.values| && NeedsStorage(s.values[u])
    requires AllBound(s.nodes[s.order[k]].inputs, env.Keys)
    requires |ins| == |s.nodes[s.order[k]].inputs|
    requires forall i :: 0 <= i < |ins| ==> ins[i] == Contents(blocks, s.bindings[s.nodes[s.order[k]].inputs[i]])
    ensures ins == Gather(env, s.nodes[s.order[k]].inputs)
  {
    var inputs := s.nodes[s.order[k]].inputs;
    forall i | 0 <= i < |inputs| ensures ins[i] == env[inputs[i]] {
      ReadIsCurrent(s, k, inputs[i]);
    }
  }

  lemma SizesKept(bindings: Bindings, env: Env, u: ValueId, bytes: seq<Byte>)
    requires SizesAgree(bindings, env) && u in bindings && |bytes| == bindings[u].size
    ensures SizesAgree(bindings, env[u := bytes])
  {
  }

  /** Writing the outputs one after another keeps whatever every single write keeps. */
  lemma {:induction false} WritesKeep(p: (nat, seq<Block>, Env) -> bool, blocks: seq<Block>, bindings: Bindings,
                                      env: Env, outputs: seq<ValueId>, contents: seq<seq<Byte>>, j: nat)
    requires j <= |outputs| == |contents| && p(0, blocks, env)
    requires forall i: nat, b: seq<Block>, e: Env :: i < |outputs| && p(i, b, e) ==>
               p(i + 1, WriteOne(b, bindings, outputs[i], contents[i]), e[outputs[i] := contents[i]])
    ensures p(j, WriteAll(blocks, bindings, outputs[..j], contents[..j]), Scatter(env, outputs[..j], contents[..j]))
  {
    if j > 0 {
      WritesKeep(p, blocks, bindings, env, outputs, contents, j - 1);
      WriteOneMore(blocks, bindings, env, outputs, contents, j - 1);
    }
  }

  lemma WriteOneMore(blocks: seq<Block>, bindings: Bindings, env: Env, outputs: seq<ValueId>, contents: seq<seq<Byte>>,
                     j: nat)
    requires j < |outputs| == |contents|
    ensures WriteAll(blocks, bindings, outputs[..j + 1], contents[..j + 1]) ==
            WriteOne(WriteAll(blocks, bindings, outputs[..j], contents[..j]), bindings, outputs[j], contents[j])
    ensures Scatter(env, outputs[..j + 1], contents[..j + 1]) ==
            Scatter(env, outputs[..j], contents[..j])[outputs[j] := contents[j]]
  {
    NextSlice(outputs, j);
    NextSlice(contents, j);
  }

  lemma OneMoreAgrees(s: Setup, k: nat, j: nat, blocks: seq<Block>, env: Env, bytes: seq<Byte>)
    requires SetupGood(s) && k < |s.order| && Computes(s.nodes[s.order[k]].op) && j < |s.nodes[s.order[k]].outputs|
    requires forall w :: 0 <= w < |s.ranges| && s.ranges[w].eligible ==> w < |s.values|
    requires MidStep(s, k, j, blocks, env)
    requires s.nodes[s.order[k]].outputs[j] in s.bindings && |bytes| == s.bindings[s.nodes[s.order[k]].outputs[j]].size
    ensures var u := s.nodes[s.order[k]].outputs[j];
            MidStep(s, k, j + 1, WriteOne(blocks, s.bindings, u, bytes), env[u := bytes])
  {
    WriteOneAgrees(s, k, j, blocks, env, bytes);
    SizesKept(s.bindings, env, s.nodes[s.order[k]].outputs[j], bytes);
  }

  lemma OutputsWritten(s: Setup, k: nat, blocks: seq<Block>, env: Env, contents: seq<seq<Byte>>)
    requires SetupGood(s) && k < |s.order| && Computes(s.nodes[s.order[k]].op)
    requires forall w :: 0 <= w < |s.ranges| && s.ranges[w].eligible ==> w < |s.values|
    requires AllBound(s.nodes[s.order[k]].outputs, s.bindings.Keys)
    requires OutputsFit(s.nodes[s.order[k]].outputs, contents, s.bindings)
    requires MidStep(s, k, 0, blocks, env)
    ensures var outputs := s.nodes[s.order[k]].outputs;
            MidStep(s, k, |outputs|, WriteAll(blocks, s.bindings, outputs, contents), Scatter(env, outputs, contents))
  {
    var outputs := s.nodes[s.order[k]].outputs;
    var p := (j: nat, now: seq<Block>, e: Env) => j <= |outputs| && MidStep(s, k, j, now, e);
    forall j: nat, now: seq<Block>, e: Env | j < |outputs| && p(j, now, e)
      ensures p(j + 1, WriteOne(now, s.bindings, outputs[j], contents[j]), e[outputs[j] := contents[j]])
    {
      OneMoreAgrees(s, k, j, now, e, contents[j]);
    }
    WritesKeep(p, blocks, s.bindings, env, outputs, contents, |outputs|);
    WholeSlices(outputs);
    WholeSlices(contents);
  }

  lemma StepEnds(s: Setup, k: nat, blocks: seq<Block>, env: Env)
    requires k < |s.order| && AllBelow(s.order, |s.nodes|)
    requires MidStep(s, k, |s.nodes[s.order[k]].outputs|, blocks, env)
    ensures Simulates(s, k + 1, blocks, env)
  {
    WholeSlices(s.nodes[s.order[k]].outputs);
  }

  /** After all outputs everything current agrees. */
  lemma WritesAgree(s: Setup, k: nat, blocks: seq<Block>, env: Env, contents: seq<seq<Byte>>)
    requires SetupGood(s) && k < |s.order| && Computes(s.nodes[s.order[k]].op)
    requires forall w :: 0 <= w < |s.ranges| && s.ranges[w].eligible ==> w < |s.values|
    requires AllBound(s.nodes[s.order[k]].outputs, s.bindings.Keys)
    requires OutputsFit(s.nodes[s.order[k]].outputs, contents, s.bindings)
    requires Simulates(s, k, blocks, env)
    ensures var outputs := s.nodes[s.order[k]].outputs;
            Simulates(s, k + 1, WriteAll(blocks, s.bindings, outputs, contents), Scatter(env, outputs, contents))
  {
    var outputs := s.nodes[s.order[k]].outputs;
    StartWriting(s, k, blocks, env);
    OutputsWritten(s, k, blocks, env, contents);
    StepEnds(s, k, WriteAll(blocks, s.bindings, outputs, contents), Scatter(env, outputs, contents));
  }

  /** One node: on shared bytes it reads what it reads on private tensors, fails in the same case, and leaves the same
      contents in every value that is still needed. */
  lemma StepSimulates(s: Setup, k: nat, kernel: Kernel, p: RunState, q: SharedState)
    requires k < |s.order| && SetupGood(s)
    requires forall u :: 0 <= u < |s.ranges| && s.ranges[u].eligible ==> u < |s.values| && NeedsStorage(s.values[u])
    requires KernelFits(kernel, s.nodes, s.bindings) && RunsAgree(s, k, Some(p), Some(q))
    ensures StepAgrees(s, kernel, k, p, q)
  {
    var nd := s.nodes[s.order[k]];
    if !Computes(nd.op) {
      SkipAgrees(s, k, q.blocks, p.env);
    } else if AllBound(nd.inputs, s.bindings.Keys) && AllBound(nd.outputs, s.bindings.Keys) {
      var ins := ReadAll(q.blocks, s.bindings, nd.inputs);
      ReadsAgree(s, k, q.blocks, p.env, ins);
      if kernel(nd, ins).Some? {
        assert OutputsFit(nd.outputs, kernel(nd, ins).value, s.bindings);
        WritesAgree(s, k, q.blocks, p.env, kernel(nd, ins).value);
      }
    }
  }

  lemma {:induction false} StepsMakeRun(s: Setup, kernel: Kernel, blocks: seq<Block>, env: Env, k: nat)
    requires AllBelow(s.order, |s.nodes|) && k <= |s.order| && StepsAgree(s, kernel)
    requires RunsAgree(s, 0, Some(RunState(env, [])), Some(SharedState(blocks, [])))
    ensures RunsAgree(s, k, PrivateRun(kernel, s.nodes, s.order, k, env),
                      SharedRun(kernel, s.nodes, s.order, k, s.bindings, blocks))
  {
    if k > 0 {
      StepsMakeRun(s, kernel, blocks, env, k - 1);
      var p := PrivateRun(kernel, s.nodes, s.order, k - 1, env);
      var q := SharedRun(kernel, s.nodes, s.order, k - 1, s.bindings, blocks);
      if p.Some? && q.Some? {
        assert RunsAgree(s, k - 1, Some(p.value), Some(q.value));
      }
    }
  }

  /** Main lemma of the simulation: the run on shared bytes and the run on private tensors succeed together, every node
      reads the same contents in both, and all values that are still needed agree. */
  lemma RunSimulates(s: Setup, kernel: Kernel, blocks: seq<Block>, env: Env, k: nat)
    requires Started(s, blocks, env) && KernelFits(kernel, s.nodes, s.bindings) && k <= |s.order|
    ensures RunsAgree(s, k, PrivateRun(kernel, s.nodes, s.order, k, env),
                      SharedRun(kernel, s.nodes, s.order, k, s.bindings, blocks))
  {
    forall j: nat, p: RunState, q: SharedState | j < |s.order| && RunsAgree(s, j, Some(p), Some(q))
      ensures StepAgrees(s, kernel, j, p, q)
    {
      StepSimulates(s, j, kernel, p, q);
    }
    StepsMakeRun(s, kernel, blocks, env, k);
  }

  // ---------------------------------------------------------------- running a node

  /** The outputs written to their tensors. */
  method WriteOutputs(outputs: seq<ValueId>, contents: seq<seq<Byte>>, blocks: seq<Block>, bindings: Bindings)
    returns (blocks': seq<Block>)
    requires AllInside(blocks, bindings) && AllBound(outputs, bindings.Keys) && OutputsFit(outputs, contents, bindings)
    ensures blocks' == WriteAll(blocks, bindings, outputs, contents) && AllInside(blocks', bindings)
  {
    blocks' := blocks;
    for j := 0 to |outputs|
      invariant AllInside(blocks', bindings) && blocks' == WriteAll(blocks, bindings, outputs[..j], contents[..j])
    {
      NextSlice(outputs, j);
      NextSlice(contents, j);
      blocks' := Write(blocks', bindings[outputs[j]], contents[j]);
    }
    WholeSlices(outputs);
    WholeSlices(contents);
  }

  /** One sorted node: look up its tensors, run the kernel on what they hold, write its outputs. */
  method RunNode(kernel: Kernel, nd: Node, blocks: seq<Block>, bindings: Bindings, ghost trace: seq<seq<seq<Byte>>>)
    returns (done: Option<seq<Block>>)
    requires AllInside(blocks, bindings)
    requires forall ins :: kernel(nd, ins).Some? ==> OutputsFit(nd.outputs, kernel(nd, ins).value, bindings)
    ensures var after := SharedStep(kernel, nd, bindings, SharedState(blocks, trace));
            && (done.Some? <==> after.Some?)
            && (done.Some? ==> done.value == after.value.blocks && AllInside(done.value, bindings))
  {
    if !Computes(nd.op) {
      return Some(blocks);
    }
    if !AllBound(nd.inputs, bindings.Keys) || !AllBound(nd.outputs, bindings.Keys) {
      return None;
    }
    var ins := ReadInputs(nd.inputs, blocks, bindings);
    assert ins == ReadAll(blocks, bindings, nd.inputs);
    var result := kernel(nd, ins);
    if result == None {
      return None;
    }
    var blocks' := WriteOutputs(nd.outputs, result.value, blocks, bindings);
    return Some(blocks');
  }

  // ---------------------------------------------------------------- the executor

  ghost predicate Runnable(nodes: seq<Node>, supported: set<OpType>, registered: set<OpType>) {
    forall i :: 0 <= i < |nodes| && Computes(nodes[i].op) ==> nodes[i].op in supported && nodes[i].op in registered
  }

  class CpuExecutor {
    var graph: Graph?
    var order: seq<NodeId>
    const supported: set<OpType>
    const registered: set<OpType>

    constructor (supported: set<OpType>, registered: set<OpType>)
      ensures graph == null && this.supported == supported && this.registered == registered
    {
      graph, order := null, [];
      this.supported, this.registered := supported, registered;
    }

    /** compile: keep the graph and its sorted order when every compute node has a kernel. */
    method Compile(g: Graph) returns (status: Status)
      modifies this
      ensures status == Success <==> SortedOrder(g.nodes, |g.values|).Ok? && Runnable(g.nodes, supported, registered)
      ensures status == Success ==> graph == g && order == SortedOrder(g.nodes, |g.values|).value
      ensures status != Success ==> graph == old(graph) && order == old(order)
    {
      var st := g.Validate();
      if st != Success {
        return st;
      }
      var sorted := g.TopologicalSort();
      if sorted.Err? {
        return Failure(sorted.error);
      }
      SortCorrect(g.nodes, |g.values|);
      Pigeonhole(sorted.value, |g.nodes|);
      for k := 0 to |sorted.value|
        invariant forall j :: 0 <= j < k && Computes(g.nodes[sorted.value[j]].op) ==>
                    g.nodes[sorted.value[j]].op in supported && g.nodes[sorted.value[j]].op in registered
      {
        var op := g.nodes[sorted.value[k]].op;
        if Computes(op) {
          if op !in supported {
            return Failure(Unsupported);
          }
          if op !in registered {
            return Failure(NotImplemented);
          }
        }
      }
      forall i: nat | i < |g.nodes| && Computes(g.nodes[i].op)
        ensures g.nodes[i].op in supported && g.nodes[i].op in registered
      {
        var j := IndexOf(sorted.value, i);
      }
      graph, order := g, sorted.value;
      return Success;
    }

    /** run: the sorted nodes one after another on the tensors bound in the context. The status that the context reports
        for advancing its KV cache at the end is a parameter. */
    method Run(ctx: RuntimeContext, kernel: Kernel, advanced: Status) returns (status: Status)
      requires graph != null ==> AllBelow(order, |graph.nodes|) && KernelFits(kernel, graph.nodes, ctx.bindings)
      requires AllInside(ctx.blocks, ctx.bindings)
      modifies ctx`blocks
      ensures graph == null ==> status == Failure(RuntimeError) && ctx.blocks == old(ctx.blocks)
      ensures graph != null ==>
                var after := SharedRun(kernel, graph.nodes, order, |order|, ctx.bindings, old(ctx.blocks));
                && (status == Success <==> after.Some? && advanced == Success)
                && (after.Some? ==> ctx.blocks == after.value.blocks)
    {
      if graph == null {
        return Failure(RuntimeError);
      }
      for k := 0 to |order|
        invariant AllInside(ctx.blocks, ctx.bindings)
        invariant var now := SharedRun(kernel, graph.nodes, order, k, ctx.bindings, old(ctx.blocks));
                  now.Some? && now.value.blocks == ctx.blocks
      {
        var nd := graph.nodes[order[k]];
        ghost var trace := SharedRun(kernel, graph.nodes, order, k, ctx.bindings, old(ctx.blocks)).value.trace;
        NextOnBytes(kernel, graph.nodes, order, k, ctx.bindings, old(ctx.blocks), ctx.blocks, trace);
        var done := RunNode(kernel, nd, ctx.blocks, ctx.bindings, trace);
        if done == None {
          FailureStays(kernel, graph.nodes, order, k + 1, ctx.bindings, old(ctx.blocks));
          return Failure(RuntimeError);
        }
        ctx.blocks := done.value;
      }
      return if advanced == Success then Success else Failure(RuntimeError);
    }
  }

  lemma NextOnBytes(kernel: Kernel, nodes: seq<Node>, order: seq<NodeId>, k: nat, bindings: Bindings,
                    blocks: seq<Block>, now: seq<Block>, trace: seq<seq<seq<Byte>>>)
    requires AllBelow(order, |nodes|) && k < |order|
    requires SharedRun(kernel, nodes, order, k, bindings, blocks) == Some(SharedState(now, trace))
    ensures SharedRun(kernel, nodes, order, k + 1, bindings, blocks) ==
            SharedStep(kernel, nodes[order[k]], bindings, SharedState(now, trace))
  {
  }

  lemma {:induction false} FailureStays(kernel: Kernel, nodes: seq<Node>, order: seq<NodeId>, k: nat,
                                        bindings: Bindings, blocks: seq<Block>)
    requires AllBelow(order, |nodes|) && k <= |order| && SharedRun(kernel, nodes, order, k, bindings, blocks) == None
    ensures SharedRun(kernel, nodes, order, |order|, bindings, blocks) == None
    decreases |order| - k
  {
    if k < |order| {
      FailureStays(kernel, nodes, order, k + 1, bindings, blocks);
    }
  }

  // ---------------------------------------------------------------- planned execution preserves meaning

  /** An Output value, planned or not, still holds its contents after the last node. */
  lemma OutputIsCurrent(s: Setup, v: ValueId)
    requires SetupGood(s) && v < |s.values| && s.values[v].kind == Output
    requires Planned(s.ranges, s.before, v) ==> Computed(s.nodes, v)
    ensures Current(s, |s.order|, v)
  {
    if Planned(s.ranges, s.before, v) {
      StartsAtProducer(s, v);
      assert RangeMatches(s.nodes, s.order, s.values[v], s.options, s.ranges[v]);
    }
  }

  /** allocate_intermediates_planned: plan and allocate in one call. */
  method AllocatePlanned(g: Graph, options: PlanOptions, ctx: RuntimeContext)
    returns (r: Result<MemoryPlan, ErrorCode>, ghost plan: MemoryPlan)
    requires g.Valid() && AllInside(ctx.blocks, ctx.bindings) && Separate(ctx.bindings)
    requires forall v :: v in ctx.bindings ==> v < |g.values|
    modifies ctx
    ensures Plannable(g.nodes, g.values, options) ==> PlannedBy(g.nodes, g.values, options, plan)
    ensures r.Ok? <==> Plannable(g.nodes, g.values, options) && CanAllocate(g.values, plan, old(ctx.bindings))
    ensures r.Ok? ==> r.value == plan
    ensures r.Ok? ==>
              && PlannedBy(g.nodes, g.values, options, r.value)
              && Prepared(g.values, r.value, old(ctx.bindings), ctx.blocks, ctx.bindings)
              && RangesFit(g.values, r.value.ranges)
              && |old(ctx.blocks)| <= |ctx.blocks| && ctx.blocks[..|old(ctx.blocks)|] == old(ctx.blocks)
  {
    plan := MemoryPlan([], [], 0, 0, 0, 0, 0);
    r := Plan(g, options);
    if r.Err? {
      return;
    }
    plan := r.value;
    PlanRangesFit(g.nodes, SortedOrder(g.nodes, |g.values|).value, g.values, options, r.value.ranges);
    var st := ctx.AllocateWithPlan(g.values, r.value);
    if st != Success {
      r := Err(st.code);
    }
  }

  lemma KeptContents(blocks: seq<Block>, blocks': seq<Block>, t: Tensor)
    requires Inside(blocks, t) && |blocks| <= |blocks'| && blocks'[..|blocks|] == blocks
    ensures Inside(blocks', t) && Contents(blocks', t) == Contents(blocks, t)
  {
    assert blocks'[t.block] == blocks'[..|blocks|][t.block];
  }

  lemma KernelFitsBindings(kernel: Kernel, nodes: seq<Node>, bindings: Bindings, env: Env)
    requires SizesAgree(bindings, env) && KernelFitsEnv(kernel, nodes, env)
    ensures KernelFits(kernel, nodes, bindings)
  {
    forall i, ins | 0 <= i < |nodes| && kernel(nodes[i], ins).Some?
      ensures OutputsFit(nodes[i].outputs, kernel(nodes[i], ins).value, bindings)
    {
      assert ContentsFit(nodes[i].outputs, kernel(nodes[i], ins).value, env);
    }
  }

  /** A tensor that was bound before still holds what it held. */
  lemma StartBound(values: seq<Value>, before: Bindings, bindings: Bindings, blocks0: seq<Block>, blocks: seq<Block>,
                   env: Env, v: ValueId)
    requires AllInside(blocks0, before) && |blocks0| <= |blocks| && blocks[..|blocks0|] == blocks0
    requires PrivateTensors(values, blocks0, before, env) && Includes(before, bindings) && v in before
    ensures v in env && v in bindings && Inside(blocks, bindings[v]) && Contents(blocks, bindings[v]) == env[v]
    ensures |env[v]| == bindings[v].size
  {
    KeptContents(blocks0, blocks, before[v]);
  }

  /** A new tensor has the size of its private one. */
  lemma StartNew(values: seq<Value>, before: Bindings, bindings: Bindings, blocks0: seq<Block>, env: Env, v: ValueId)
    requires AllInside(blocks0, before) && PrivateTensors(values, blocks0, before, env)
    requires NewSized(values, before, bindings)
    requires v in bindings && v !in before
    ensures v in env && |env[v]| == bindings[v].size && env[v] == Zeros(bindings[v].size)
  {
    assert NBytes(values[v]) == Ok(bindings[v].size);
  }

  lemma StartOwned(ranges: seq<LiveRange>, before: Bindings, bindings: Bindings, blocks: seq<Block>, v: ValueId)
    requires AllInside(blocks, bindings) && OwnedZeroed(ranges, before, blocks, bindings)
    requires v in bindings && v !in before && !Planned(ranges, before, v)
    ensures Contents(blocks, bindings[v]) == Zeros(bindings[v].size)
  {
    assert AllZero(Contents(blocks, bindings[v]));
  }

  lemma StartKeys(values: seq<Value>, plan: MemoryPlan, before: Bindings, bindings: Bindings, blocks0: seq<Block>,
                  blocks: seq<Block>, env: Env)
    requires plan.alignment > 0 && Prepared(values, plan, before, blocks, bindings)
    requires AllInside(blocks0, before) && PrivateTensors(values, blocks0, before, env)
    ensures env.Keys == bindings.Keys
  {
  }

  /** Nothing planned is current before the first node; all other tensors hold their private contents. */
  lemma StartPlanned(s: Setup, plan: MemoryPlan, blocks0: seq<Block>, blocks: seq<Block>, env: Env)
    requires SetupGood(s) && plan.alignment > 0 && s.ranges == plan.ranges && RangesFit(s.values, s.ranges)
    requires AllInside(blocks0, s.before) && |blocks0| <= |blocks| && blocks[..|blocks0|] == blocks0
    requires Prepared(s.values, plan, s.before, blocks, s.bindings)
    requires PrivateTensors(s.values, blocks0, s.before, env)
    ensures Started(s, blocks, env)
  {
    StartKeys(s.values, plan, s.before, s.bindings, blocks0, blocks, env);
    forall v | v in s.bindings
      ensures |env[v]| == s.bindings[v].size
      ensures Current(s, 0, v) ==> Contents(blocks, s.bindings[v]) == env[v]
    {
      if v in s.before {
        StartBound(s.values, s.before, s.bindings, blocks0, blocks, env, v);
      } else {
        StartNew(s.values, s.before, s.bindings, blocks0, env, v);
        if Current(s, 0, v) {
          StartOwned(s.ranges, s.before, s.bindings, blocks, v);
        }
      }
    }
  }

  /** Compilation and planned allocation: afterwards the executor and the context fit the plan. */
  method PrepareRun(g: Graph, options: PlanOptions, ctx: RuntimeContext, executor: CpuExecutor, kernel: Kernel,
                    ghost env: Env)
    returns (status: Status, ghost s: Setup, ghost plan: MemoryPlan)
    requires g.Valid() && RunInput(g.nodes, g.values, ctx.blocks, ctx.bindings, kernel, env)
    modifies ctx, executor
    ensures Plannable(g.nodes, g.values, options) && Runnable(g.nodes, executor.supported, executor.registered) ==>
              PlannedBy(g.nodes, g.values, options, plan)
    ensures status == Success <==>
              && Plannable(g.nodes, g.values, options) && Runnable(g.nodes, executor.supported, executor.registered)
              && CanAllocate(g.values, plan, old(ctx.bindings))
    ensures status == Success ==>
              && executor.graph == g
              && s.nodes == g.nodes && s.values == g.values && s.order == executor.order && s.bindings == ctx.bindings
              && s.before == old(ctx.bindings)
              && SortedOrder(g.nodes, |g.values|) == Ok(s.order)
              && Started(s, ctx.blocks, env) && KernelFits(kernel, s.nodes, s.bindings)
              && plan.alignment > 0 && Prepared(g.values, plan, old(ctx.bindings), ctx.blocks, ctx.bindings)
              && (forall v :: 0 <= v < |s.values| && NeedsStorage(s.values[v]) ==> v in s.bindings)
  {
    ghost var before, blocks0 := ctx.bindings, ctx.blocks;
    s := Setup(g.nodes, [], g.values, options, [], before, before);
    plan := MemoryPlan([], [], 0, 0, 0, 0, 0);
    status := executor.Compile(g);
    if status != Success {
      return;
    }
    var prepared;
    prepared, plan := AllocatePlanned(g, options, ctx);
    if prepared.Err? {
      status := Failure(prepared.error);
      return;
    }
    s := Setup(g.nodes, executor.order, g.values, options, prepared.value.ranges, before, ctx.bindings);
    SortCorrect(g.nodes, |g.values|);
    StartPlanned(s, prepared.value, blocks0, ctx.blocks, env);
    KernelFitsBindings(kernel, g.nodes, ctx.bindings, env);
  }

  lemma OutputsEndPrivate(s: Setup, blocks: seq<Block>, env: Env)
    requires SetupGood(s) && Simulates(s, |s.order|, blocks, env)
    requires forall v :: 0 <= v < |s.values| && NeedsStorage(s.values[v]) ==> v in s.bindings
    requires forall v :: 0 <= v < |s.values| && s.values[v].kind == Output && v !in s.before ==> Computed(s.nodes, v)
    ensures OutputsPrivate(s.values, blocks, s.bindings, env)
  {
    forall v | 0 <= v < |s.values| && s.values[v].kind == Output
      ensures v in s.bindings && Inside(blocks, s.bindings[v]) && v in env && Contents(blocks, s.bindings[v]) == env[v]
    {
      OutputIsCurrent(s, v);
    }
  }

  /** What a run on shared bytes amounts to: every node read what it reads on private tensors, and all Output values
      agree. */
  lemma SharedIsPrivate(s: Setup, kernel: Kernel, blocks: seq<Block>, env: Env)
    requires Started(s, blocks, env) && KernelFits(kernel, s.nodes, s.bindings)
    requires forall v :: 0 <= v < |s.values| && NeedsStorage(s.values[v]) ==> v in s.bindings
    requires forall v :: 0 <= v < |s.values| && s.values[v].kind == Output && v !in s.before ==> Computed(s.nodes, v)
    ensures var n := |s.order|;
            var p, q := PrivateRun(kernel, s.nodes, s.order, n, env),
                        SharedRun(kernel, s.nodes, s.order, n, s.bindings, blocks);
            && (p.Some? <==> q.Some?)
            && (p.Some? ==> p.value.trace == q.value.trace &&
                            OutputsPrivate(s.values, q.value.blocks, s.bindings, p.value.env))
  {
    RunSimulates(s, kernel, blocks, env, |s.order|);
    var p := PrivateRun(kernel, s.nodes, s.order, |s.order|, env);
    if p.Some? {
      var q := SharedRun(kernel, s.nodes, s.order, |s.order|, s.bindings, blocks).value;
      OutputsEndPrivate(s, q.blocks, p.value.env);
    }
  }

  lemma InSortedOrder(s: Setup, kernel: Kernel, env: Env)
    requires SortedOrder(s.nodes, |s.values|) == Ok(s.order) && AllBelow(s.order, |s.nodes|)
    ensures RunsPrivately(s.nodes, |s.values|, kernel, env) <==>
              PrivateRun(kernel, s.nodes, s.order, |s.order|, env).Some?
  {
  }

  /** A prepared executor runs on a prepared context. */
  method RunPrepared(ctx: RuntimeContext, executor: CpuExecutor, kernel: Kernel, advanced: Status, ghost s: Setup,
                     ghost env: Env)
    returns (status: Status)
    requires executor.graph != null && s.nodes == executor.graph.nodes && s.order == executor.order
    requires s.bindings == ctx.bindings
    requires SortedOrder(s.nodes, |s.values|) == Ok(s.order)
    requires Started(s, ctx.blocks, env) && KernelFits(kernel, s.nodes, s.bindings)
    requires forall v :: 0 <= v < |s.values| && NeedsStorage(s.values[v]) ==> v in s.bindings
    requires forall v :: 0 <= v < |s.values| && s.values[v].kind == Output && v !in s.before ==> Computed(s.nodes, v)
    modifies ctx`blocks
    ensures status == Success <==> RunsPrivately(s.nodes, |s.values|, kernel, env) && advanced == Success
    ensures status == Success ==>
              RanAsPrivate(kernel, s.nodes, s.order, s.values, old(ctx.blocks), ctx.blocks, ctx.bindings, env)
  {
    SharedIsPrivate(s, kernel, ctx.blocks, env);
    InSortedOrder(s, kernel, env);
    status := executor.Run(ctx, kernel, advanced);
  }

  /** Main result on the planner: compiling, planning and running a graph on shared arena bytes reads the same inputs at
      every node and leaves the same Output values as private tensors do. It succeeds exactly when the graph sorts,
      every compute node has a kernel, a plan exists and can be allocated, the private run succeeds, and the KV cache
      advances. */
  method RunPlanned(g: Graph, options: PlanOptions, ctx: RuntimeContext, executor: CpuExecutor, kernel: Kernel,
                    advanced: Status, ghost env: Env)
    returns (status: Status, ghost plan: MemoryPlan, ghost prepared: seq<Block>)
    requires g.Valid() && RunInput(g.nodes, g.values, ctx.blocks, ctx.bindings, kernel, env)
    modifies ctx, executor
    ensures Plannable(g.nodes, g.values, options) && Runnable(g.nodes, executor.supported, executor.registered) ==>
              PlannedBy(g.nodes, g.values, options, plan)
    ensures status == Success <==>
              && Plannable(g.nodes, g.values, options) && Runnable(g.nodes, executor.supported, executor.registered)
              && CanAllocate(g.values, plan, old(ctx.bindings))
              && RunsPrivately(g.nodes, |g.values|, kernel, env) && advanced == Success
    ensures status == Success ==>
              && plan.alignment > 0 && Prepared(g.values, plan, old(ctx.bindings), prepared, ctx.bindings)
              && RanAsPrivate(kernel, g.nodes, SortedOrder(g.nodes, |g.values|).value, g.values, prepared, ctx.blocks,
                              ctx.bindings, env)
  {
    ghost var s;
    status, s, plan := PrepareRun(g, options, ctx, executor, kernel, env);
    prepared := ctx.blocks;
    if status == Success {
      status := RunPrepared(ctx, executor, kernel, advanced, s, env);
    }
  }
}
