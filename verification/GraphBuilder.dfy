/** What graphs made by GraphBuilder look like, and why they always run. */
module BuiltGraphs {
  import opened Graphs
  import opened ContextSpec
  import opened ExecutionSpec

  /** A builder node computes one new value from values that existed before it. */
  ghost predicate BuiltNode(nd: Node, valueCount: nat) {
    && Computes(nd.op) && |nd.outputs| == 1 && nd.outputs[0] < valueCount
    && forall k :: 0 <= k < |nd.inputs| ==> nd.inputs[k] < nd.outputs[0]
  }

  ghost predicate Built(nodes: seq<Node>, valueCount: nat) {
    && (forall i :: 0 <= i < |nodes| ==> BuiltNode(nodes[i], valueCount))
    && (forall i, j :: 0 <= i < j < |nodes| ==> nodes[i].outputs[0] < nodes[j].outputs[0])
  }

  /** Along a walk the produced values grow. */
  lemma {:induction false} WalkGrows(nodes: seq<Node>, valueCount: nat, w: seq<nat>, k: nat)
    requires Built(nodes, valueCount) && Walk(nodes, w) && 0 < k < |w|
    ensures w[0] < |nodes| && w[k] < |nodes| && nodes[w[0]].outputs[0] < nodes[w[k]].outputs[0]
  {
    assert Feeds(nodes, w[k - 1], w[k - 1 + 1]);
    var m :| 0 <= m < |nodes[w[k]].inputs| && nodes[w[k]].inputs[m] in Producers(nodes) &&
             Producers(nodes)[nodes[w[k]].inputs[m]] == w[k - 1];
    ProducersAreLast(nodes, nodes[w[k]].inputs[m]);
    assert BuiltNode(nodes[w[k]], valueCount) && BuiltNode(nodes[w[k - 1]], valueCount);
    if k > 1 {
      WalkGrows(nodes, valueCount, w, k - 1);
    }
  }

  lemma BuiltIsAcyclic(nodes: seq<Node>, valueCount: nat)
    requires Built(nodes, valueCount)
    ensures Acyclic(nodes)
  {
    forall w | Walk(nodes, w) ensures w[0] != w[|w| - 1] {
      WalkGrows(nodes, valueCount, w, |w| - 1);
    }
  }

  lemma BuiltIsValid(nodes: seq<Node>, valueCount: nat)
    requires Built(nodes, valueCount)
    ensures ValidNodes(nodes, valueCount)
  {
    forall i | 0 <= i < |nodes| ensures ValidNode(nodes[i], valueCount) {
      assert BuiltNode(nodes[i], valueCount);
    }
  }

  /** A graph built from ids already returned always sorts. */
  lemma BuiltSorts(nodes: seq<Node>, valueCount: nat)
    requires Built(nodes, valueCount)
    ensures SortedOrder(nodes, valueCount).Ok?
  {
    BuiltIsValid(nodes, valueCount);
    BuiltIsAcyclic(nodes, valueCount);
    SortCorrect(nodes, valueCount);
  }

  lemma BuiltIsSingleProducer(nodes: seq<Node>, valueCount: nat)
    requires Built(nodes, valueCount)
    ensures SingleProducer(nodes)
  {
    forall i, j, v | 0 <= i < |nodes| && 0 <= j < |nodes| && v in nodes[i].outputs && v in nodes[j].outputs
      ensures i == j {
      assert BuiltNode(nodes[i], valueCount) && BuiltNode(nodes[j], valueCount);
    }
  }

  /** Once every value that no node produces is bound, a built graph meets the demands of planned execution. */
  lemma BuiltIsRunnable(nodes: seq<Node>, values: seq<Value>, bindings: Bindings)
    requires Built(nodes, |values|)
    requires forall v :: 0 <= v < |values| && v !in Producers(nodes) ==> v in bindings
    ensures SingleProducer(nodes) && ReadsAreComputed(nodes, values, bindings)
    ensures forall v :: 0 <= v < |values| && values[v].kind == Output && v !in bindings ==> Computed(nodes, v)
  {
    BuiltIsSingleProducer(nodes, |values|);
    forall v | 0 <= v < |values| && v !in bindings ensures Computed(nodes, v) {
      ProducersAreLast(nodes, v);
      assert BuiltNode(nodes[Producers(nodes)[v]], |values|);
    }
    forall i, k | 0 <= i < |nodes| && Computes(nodes[i].op) && 0 <= k < |nodes[i].inputs|
      ensures var v := nodes[i].inputs[k];
              v < |values| && (!NeedsStorage(values[v]) || v in bindings || Computed(nodes, v))
    {
      assert BuiltNode(nodes[i], |values|);
    }
  }

  /** Appending a builder node whose inputs exist. */
  lemma AppendBuilt(nodes: seq<Node>, valueCount: nat, nd: Node)
    requires Built(nodes, valueCount) && Computes(nd.op) && nd.outputs == [valueCount]
    requires forall k :: 0 <= k < |nd.inputs| ==> nd.inputs[k] < valueCount
    ensures Built(nodes + [nd], valueCount + 1)
  {
    var nodes' := nodes + [nd];
    forall i | 0 <= i < |nodes'| ensures BuiltNode(nodes'[i], valueCount + 1) {
      if i < |nodes| {
        assert BuiltNode(nodes[i], valueCount);
      }
    }
    forall i, j | 0 <= i < j < |nodes'| ensures nodes'[i].outputs[0] < nodes'[j].outputs[0] {
      assert BuiltNode(nodes[i], valueCount);
    }
  }

  /** Appending a builder node sorts exactly when all its inputs are ids already returned: its own output as an
      input closes a cycle, and a later id does not exist yet. */
  lemma AppendSortsIff(nodes: seq<Node>, valueCount: nat, nd: Node)
    requires Built(nodes, valueCount) && Computes(nd.op) && nd.outputs == [valueCount]
    ensures SortedOrder(nodes + [nd], valueCount + 1).Ok? <==>
              forall k :: 0 <= k < |nd.inputs| ==> nd.inputs[k] < valueCount
  {
    var nodes', n := nodes + [nd], |nodes|;
    if forall k :: 0 <= k < |nd.inputs| ==> nd.inputs[k] < valueCount {
      AppendBuilt(nodes, valueCount, nd);
      BuiltSorts(nodes', valueCount + 1);
    } else {
      SortCorrect(nodes', valueCount + 1);
      var k :| 0 <= k < |nd.inputs| && nd.inputs[k] >= valueCount;
      if nd.inputs[k] == valueCount {
        assert nodes'[n] == nd && valueCount in nodes'[n].outputs;
        ProducersAreLast(nodes', valueCount);
        assert Producers(nodes')[valueCount] == n;
        assert Feeds(nodes', n, n);
        var w := [n, n];
        assert Walk(nodes', w) && w[0] == w[|w| - 1];
        assert !Acyclic(nodes');
      } else {
        assert !ValidNode(nodes'[n], valueCount + 1);
        assert !ValidNodes(nodes', valueCount + 1);
      }
    }
  }
}

/** src/graph/graph_builder.cpp: each method appends one value and, for operators, one node. */
module GraphBuilders {
  import opened Wrappers
  import opened Graphs
  import opened ExecutionSpec
  import opened BuiltGraphs

  /** The values that the inputs name. */
  function ValuesAt(values: seq<Value>, inputs: seq<ValueId>): (looked: seq<Value>)
    requires forall k :: 0 <= k < |inputs| ==> inputs[k] < |values|
    ensures |looked| == |inputs| && forall k :: 0 <= k < |inputs| ==> looked[k] == values[inputs[k]]
  {
    seq(|inputs|, k requires 0 <= k < |inputs| => values[inputs[k]])
  }

  class GraphBuilder {
    const graph: Graph

    constructor (graph: Graph)
      ensures this.graph == graph
    {
      this.graph := graph;
    }

    /** input() and constant(). */
    method Leaf(shape: seq<int>, dtype: DType, device: Device, kind: ValueKind) returns (id: ValueId)
      requires graph.Valid() && (kind == Input || kind == Constant)
      modifies graph
      ensures graph.Valid() && id == |old(graph.values)| && graph.nodes == old(graph.nodes)
      ensures graph.values == old(graph.values) + [Value(id, shape, dtype, device, kind)]
      ensures old(Built(graph.nodes, |graph.values|)) ==> Built(graph.nodes, |graph.values|)
    {
      id := graph.AddValue(shape, dtype, device, kind);
      assert old(Built(graph.nodes, |graph.values|)) ==> Built(graph.nodes, |graph.values|) by {
        if old(Built(graph.nodes, |graph.values|)) {
          forall i | 0 <= i < |graph.nodes| ensures BuiltNode(graph.nodes[i], |graph.values|) {
            assert BuiltNode(graph.nodes[i], |graph.values| - 1);
          }
        }
      }
    }

    /** The pattern of every operator method: look up some inputs, infer the shape, append the output value and the
        node. The output has the type and device of input `like`; `further` are inputs the method does not look up (the
        weight of rms_norm). */
    method Operator(op: OpType, inputs: seq<ValueId>, further: seq<ValueId>, like: nat,
                    infer: seq<Value> -> Result<seq<int>, ErrorCode>)
      returns (r: Result<ValueId, ErrorCode>)
      requires graph.Valid() && Computes(op) && like < |inputs|
      modifies graph
      ensures graph.Valid()
      ensures (exists k :: 0 <= k < |inputs| && inputs[k] >= |old(graph.values)|) ==> r == Err(OutOfRange)
      ensures (forall k :: 0 <= k < |inputs| ==> inputs[k] < |old(graph.values)|) ==>
                var shape := infer(ValuesAt(old(graph.values), inputs));
                if shape.Err? then r == Err(shape.error)
                else
                  && r == Ok(|old(graph.values)|)
                  && graph.values == old(graph.values) +
                                     [Value(|old(graph.values)|, shape.value, old(graph.values)[inputs[like]].dtype,
                                            old(graph.values)[inputs[like]].device, Intermediate)]
      ensures r.Err? ==> graph.values == old(graph.values) && graph.nodes == old(graph.nodes)
      ensures r.Ok? ==>
                && r.value == |old(graph.values)| && |graph.values| == r.value + 1
                && graph.nodes == old(graph.nodes) + [Node(|old(graph.nodes)|, op, inputs + further, [r.value])]
      ensures r.Ok? && old(Built(graph.nodes, |graph.values|)) ==>
                (SortedOrder(graph.nodes, |graph.values|).Ok? <==>
                   forall k :: 0 <= k < |further| ==> further[k] < r.value)
      ensures r.Ok? && old(Built(graph.nodes, |graph.values|)) &&
              (forall k :: 0 <= k < |further| ==> further[k] < r.value) ==>
                Built(graph.nodes, |graph.values|)
    {
      var looked: seq<Value> := [];
      for k := 0 to |inputs|
        invariant |looked| == k
        invariant forall m :: 0 <= m < k ==> inputs[m] < |graph.values| && looked[m] == graph.values[inputs[m]]
      {
        if inputs[k] >= |graph.values| {
          return Err(OutOfRange);
        }
        looked := looked + [graph.values[inputs[k]]];
      }
      assert looked == ValuesAt(graph.values, inputs);
      var shape := infer(looked);
      if shape.Err? {
        return Err(shape.error);
      }
      ghost var nodes0, count := graph.nodes, |graph.values|;
      var out := graph.AddValue(shape.value, looked[like].dtype, looked[like].device, Intermediate);
      var nid := graph.AddNode(op, inputs + further, [out]);
      ghost var nd := Node(nid, op, inputs + further, [out]);
      if Built(nodes0, count) {
        InputsExist(inputs, further, count);
        AppendSortsIff(nodes0, count, nd);
        if forall k :: 0 <= k < |further| ==> further[k] < count {
          AppendBuilt(nodes0, count, nd);
        }
      }
      return Ok(out);
    }

    lemma InputsExist(inputs: seq<ValueId>, further: seq<ValueId>, count: nat)
      requires forall k :: 0 <= k < |inputs| ==> inputs[k] < count
      ensures (forall k :: 0 <= k < |inputs + further| ==> (inputs + further)[k] < count) <==>
              (forall k :: 0 <= k < |further| ==> further[k] < count)
    {
      var all := inputs + further;
      if forall k :: 0 <= k < |all| ==> all[k] < count {
        forall k | 0 <= k < |further| ensures further[k] < count {
          assert all[|inputs| + k] == further[k];
        }
      }
    }

    /** output(): an existing value becomes an Output value. */
    method MarkOutput(x: ValueId) returns (r: Result<ValueId, ErrorCode>)
      requires graph.Valid()
      modifies graph
      ensures graph.Valid() && graph.nodes == old(graph.nodes) && |graph.values| == |old(graph.values)|
      ensures r == if x < |old(graph.values)| then Ok(x) else Err(OutOfRange)
      ensures x < |graph.values| ==> graph.values == old(graph.values)[x := old(graph.values)[x].(kind := Output)]
    {
      var st := graph.SetKind(x, Output);
      return if st == Success then Ok(x) else Err(OutOfRange);
    }
  }
}
