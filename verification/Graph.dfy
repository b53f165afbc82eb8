/**
  The computation graph (include/minillm/graph, src/graph/graph.cpp): values, nodes and the class
  that owns them, with its validity check and Kahn's topological sort.
*/
module Graphs {
  import opened Wrappers
  import opened Sequences

  type ValueId = nat
  type NodeId = nat

  datatype ValueKind = Input | Constant | Intermediate | Output

  datatype DType =
    | Float32 | Float16 | BFloat16 | Q8_0 | Int32 | Int64 | UInt8 | Int8 | Bool | UnknownDType

  datatype DeviceType = CPU | CUDA | UnknownDevice

  datatype Device = Device(kind: DeviceType, index: int)

  datatype OpType =
    | OpInput | OpConstant | OpOutput
    | Embedding | MatMul | Linear | Add | Mul | RMSNorm | LayerNorm | SiLU | SwiGLU | RoPE
    | Attention | QKNorm | Softmax | Reshape | Transpose | View | Contiguous | Custom

  datatype Value = Value(id: ValueId, shape: seq<int>, dtype: DType, device: Device, kind: ValueKind)

  datatype Node = Node(id: NodeId, op: OpType, inputs: seq<ValueId>, outputs: seq<ValueId>)

  // ---------------------------------------------------------------- specification

  /** What validate() demands of one node. */
  predicate ValidNode(nd: Node, valueCount: nat) {
    && (forall k :: 0 <= k < |nd.inputs| ==> nd.inputs[k] < valueCount)
    && (forall k :: 0 <= k < |nd.outputs| ==> nd.outputs[k] < valueCount)
    && (nd.op == OpOutput ==> nd.inputs != [])
  }

  predicate ValidNodes(nodes: seq<Node>, valueCount: nat) {
    forall i :: 0 <= i < |nodes| ==> ValidNode(nodes[i], valueCount)
  }

  /** value_producer after one node's outputs: later outputs overwrite earlier ones. */
  function AddOutputs(m: map<ValueId, nat>, outs: seq<ValueId>, i: nat): map<ValueId, nat> {
    if outs == [] then m else AddOutputs(m, outs[..|outs| - 1], i)[outs[|outs| - 1] := i]
  }

  /** value_producer: each produced value is mapped to the last node listing it as an output. */
  function Producers(nodes: seq<Node>): map<ValueId, nat> {
    if nodes == [] then map[]
    else AddOutputs(Producers(nodes[..|nodes| - 1]), nodes[|nodes| - 1].outputs, |nodes| - 1)
  }

  /** One copy of consumer i for every input of it that node p produces. */
  function EdgesTo(prod: map<ValueId, nat>, inputs: seq<ValueId>, i: nat, p: nat): seq<nat> {
    if inputs == [] then []
    else
      var v := inputs[|inputs| - 1];
      EdgesTo(prod, inputs[..|inputs| - 1], i, p) + if v in prod && prod[v] == p then [i] else []
  }

  /** adj[p]: the consumers of node p, with repetitions, in node order. */
  function Consumers(nodes: seq<Node>, prod: map<ValueId, nat>, p: nat): seq<nat> {
    if nodes == [] then []
    else
      Consumers(nodes[..|nodes| - 1], prod, p) + EdgesTo(prod, nodes[|nodes| - 1].inputs, |nodes| - 1, p)
  }

  /** in_degree: the number of inputs that some node produces. */
  function InDegree(prod: map<ValueId, nat>, inputs: seq<ValueId>): nat {
    if inputs == [] then 0
    else InDegree(prod, inputs[..|inputs| - 1]) + if inputs[|inputs| - 1] in prod then 1 else 0
  }

  function Ready(degrees: seq<int>): seq<nat> {
    if degrees == [] then []
    else Ready(degrees[..|degrees| - 1]) + if degrees[|degrees| - 1] == 0 then [|degrees| - 1] else []
  }

  /** The part of Kahn's state that relaxing edges changes. */
  datatype Frontier = Frontier(degrees: seq<int>, queue: seq<nat>)

  function RelaxOne(f: Frontier, target: nat): Frontier
    requires target < |f.degrees|
  {
    var d := f.degrees[target := f.degrees[target] - 1];
    Frontier(d, if d[target] == 0 then f.queue + [target] else f.queue)
  }

  function Relax(f: Frontier, targets: seq<nat>): (r: Frontier)
    requires AllBelow(targets, |f.degrees|)
    ensures |r.degrees| == |f.degrees|
  {
    if targets == [] then f
    else RelaxOne(Relax(f, targets[..|targets| - 1]), targets[|targets| - 1])
  }

  function Positives(s: seq<int>): nat {
    if s == [] then 0 else Positives(s[..|s| - 1]) + if s[|s| - 1] > 0 then 1 else 0
  }

  ghost predicate GoodAdjacency(adj: seq<seq<nat>>, n: nat) {
    |adj| == n && forall p :: 0 <= p < n ==> AllBelow(adj[p], n)
  }

  /** Draining the queue of Kahn's algorithm from a given state. */
  ghost function Drain(adj: seq<seq<nat>>, f: Frontier, order: seq<nat>): seq<nat>
    requires GoodAdjacency(adj, |f.degrees|) && AllBelow(f.queue, |f.degrees|)
    decreases |f.queue| + Positives(f.degrees)
  {
    if f.queue == [] then order
    else
      var cur := f.queue[0];
      var start := Frontier(f.degrees, f.queue[1..]);
      RelaxBounds(start, adj[cur]);
      Drain(adj, Relax(start, adj[cur]), order + [cur])
  }

  ghost function InitialFrontier(nodes: seq<Node>): (f: Frontier)
    ensures |f.degrees| == |nodes| && AllBelow(f.queue, |nodes|)
  {
    var degrees := seq(|nodes|, i requires 0 <= i < |nodes| => InDegree(Producers(nodes), nodes[i].inputs));
    ReadyBounds(degrees);
    Frontier(degrees, Ready(degrees))
  }

  ghost function Adjacency(nodes: seq<Node>): (adj: seq<seq<nat>>)
    ensures GoodAdjacency(adj, |nodes|)
    ensures forall p :: 0 <= p < |nodes| ==> adj[p] == Consumers(nodes, Producers(nodes), p)
  {
    var prod := Producers(nodes);
    forall p: nat | p < |nodes| ensures AllBelow(Consumers(nodes, prod, p), |nodes|) {
      ConsumersBounds(nodes, prod, p);
    }
    seq(|nodes|, p requires 0 <= p < |nodes| => Consumers(nodes, prod, p))
  }

  /** The nodes Kahn's algorithm reaches, in the order in which it reaches them. */
  ghost function KahnOrder(nodes: seq<Node>): seq<nat> {
    Drain(Adjacency(nodes), InitialFrontier(nodes), [])
  }

  /** The result of topological_sort as a function of the graph: planner and executor both get this order. */
  ghost function SortedOrder(nodes: seq<Node>, valueCount: nat): Result<seq<NodeId>, ErrorCode> {
    if !ValidNodes(nodes, valueCount) then Err(InvalidArgument)
    else if |KahnOrder(nodes)| != |nodes| then Err(RuntimeError)
    else Ok(KahnOrder(nodes))
  }

  // ---------------------------------------------------------------- the relation sorted by

  /** Node p produces an input of node c. */
  ghost predicate Feeds(nodes: seq<Node>, p: nat, c: nat) {
    p < |nodes| && c < |nodes| &&
    exists k :: 0 <= k < |nodes[c].inputs| && nodes[c].inputs[k] in Producers(nodes) &&
                Producers(nodes)[nodes[c].inputs[k]] == p
  }

  /** A walk along producer-to-consumer edges. */
  ghost predicate Walk(nodes: seq<Node>, w: seq<nat>) {
    |w| >= 2 && forall k :: 0 <= k < |w| - 1 ==> Feeds(nodes, w[k], w[k + 1])
  }

  ghost predicate Acyclic(nodes: seq<Node>) {
    forall w :: Walk(nodes, w) ==> w[0] != w[|w| - 1]
  }

  /** Every producer of an input stands before its consumer. */
  ghost predicate ProducersFirst(nodes: seq<Node>, order: seq<nat>) {
    forall k, p :: 0 <= k < |order| && Feeds(nodes, p, order[k]) ==> p in order[..k]
  }

  ghost predicate Permutation(order: seq<nat>, n: nat) {
    |order| == n && NoDuplicates(order) && AllBelow(order, n)
  }

  // ---------------------------------------------------------------- bounds

  lemma {:induction false} PositivesUpdate(s: seq<int>, i: nat, x: int)
    requires i < |s|
    ensures Positives(s[i := x]) == Positives(s) - (if s[i] > 0 then 1 else 0) + (if x > 0 then 1 else 0)
  {
    var n := |s| - 1;
    if i == n {
      assert s[i := x][..n] == s[..n];
    } else {
      PositivesUpdate(s[..n], i, x);
      assert s[i := x][..n] == s[..n][i := x];
    }
  }

  lemma {:induction false} RelaxBounds(f: Frontier, targets: seq<nat>)
    requires AllBelow(targets, |f.degrees|) && AllBelow(f.queue, |f.degrees|)
    ensures var r := Relax(f, targets);
            AllBelow(r.queue, |f.degrees|) &&
            |r.queue| + Positives(r.degrees) <= |f.queue| + Positives(f.degrees)
  {
    if targets != [] {
      var prefix, t := targets[..|targets| - 1], targets[|targets| - 1];
      RelaxBounds(f, prefix);
      var mid := Relax(f, prefix);
      PositivesUpdate(mid.degrees, t, mid.degrees[t] - 1);
    }
  }

  lemma {:induction false} ReadyBounds(degrees: seq<int>)
    ensures var q := Ready(degrees);
            AllBelow(q, |degrees|) && NoDuplicates(q) &&
            forall i: nat :: i in q <==> i < |degrees| && degrees[i] == 0
  {
    if degrees != [] {
      var n := |degrees| - 1;
      ReadyBounds(degrees[..n]);
      assert forall i: nat :: i in Ready(degrees[..n]) ==> i < n;
    }
  }

  lemma {:induction false} EdgesToBounds(prod: map<ValueId, nat>, inputs: seq<ValueId>, i: nat, p: nat)
    ensures forall k :: 0 <= k < |EdgesTo(prod, inputs, i, p)| ==> EdgesTo(prod, inputs, i, p)[k] == i
  {
    if inputs != [] {
      EdgesToBounds(prod, inputs[..|inputs| - 1], i, p);
    }
  }

  lemma {:induction false} ConsumersBounds(nodes: seq<Node>, prod: map<ValueId, nat>, p: nat)
    ensures AllBelow(Consumers(nodes, prod, p), |nodes|)
  {
    if nodes != [] {
      ConsumersBounds(nodes[..|nodes| - 1], prod, p);
      EdgesToBounds(prod, nodes[|nodes| - 1].inputs, |nodes| - 1, p);
    }
  }

  // ---------------------------------------------------------------- Kahn's invariant

  /** The number of inputs whose producer has not been ordered yet. */
  ghost function Open(prod: map<ValueId, nat>, inputs: seq<ValueId>, order: seq<nat>): nat {
    if inputs == [] then 0
    else
      var v := inputs[|inputs| - 1];
      Open(prod, inputs[..|inputs| - 1], order) + if v in prod && prod[v] !in order then 1 else 0
  }

  ghost predicate KahnInvariant(nodes: seq<Node>, f: Frontier, order: seq<nat>) {
    && |f.degrees| == |nodes|
    && AllBelow(order + f.queue, |nodes|)
    && NoDuplicates(order + f.queue)
    && (forall i :: 0 <= i < |nodes| ==> f.degrees[i] == Open(Producers(nodes), nodes[i].inputs, order))
    && (forall i :: 0 <= i < |nodes| ==> (i in order + f.queue <==> f.degrees[i] == 0))
    && ProducersFirst(nodes, order)
  }

  lemma {:induction false} AddOutputsBounds(m: map<ValueId, nat>, outs: seq<ValueId>, i: nat)
    ensures forall v :: v in AddOutputs(m, outs, i) <==> v in m || v in outs
    ensures forall v :: v in outs ==> AddOutputs(m, outs, i)[v] == i
    ensures forall v :: v in m && v !in outs ==> AddOutputs(m, outs, i)[v] == m[v]
  {
    if outs != [] {
      AddOutputsBounds(m, outs[..|outs| - 1], i);
      assert outs == outs[..|outs| - 1] + [outs[|outs| - 1]];
    }
  }

  /** Producers maps a value to the last node that lists it as an output. */
  lemma {:induction false} ProducersAreLast(nodes: seq<Node>, v: ValueId)
    ensures v in Producers(nodes) <==> exists i :: 0 <= i < |nodes| && v in nodes[i].outputs
    ensures v in Producers(nodes) ==>
              var p := Producers(nodes)[v];
              p < |nodes| && v in nodes[p].outputs && forall i :: p < i < |nodes| ==> v !in nodes[i].outputs
  {
    if nodes != [] {
      var n := |nodes| - 1;
      ProducersAreLast(nodes[..n], v);
      AddOutputsBounds(Producers(nodes[..n]), nodes[n].outputs, n);
      if v in nodes[n].outputs {
      } else if v in Producers(nodes) {
        assert v in Producers(nodes[..n]);
        var i :| 0 <= i < n && v in nodes[..n][i].outputs;
        assert v in nodes[i].outputs;
      } else {
        forall i | 0 <= i < |nodes| ensures v !in nodes[i].outputs {
          if i < n { assert nodes[..n][i] == nodes[i]; }
        }
      }
    }
  }

  lemma {:induction false} OpenZero(prod: map<ValueId, nat>, inputs: seq<ValueId>, order: seq<nat>)
    ensures Open(prod, inputs, order) == 0 <==>
              forall k :: 0 <= k < |inputs| && inputs[k] in prod ==> prod[inputs[k]] in order
  {
    if inputs != [] {
      var n := |inputs| - 1;
      OpenZero(prod, inputs[..n], order);
      if Open(prod, inputs[..n], order) == 0 {
        forall k | 0 <= k < n && inputs[k] in prod ensures prod[inputs[k]] in order {
          assert inputs[..n][k] == inputs[k];
        }
      } else {
        var k :| 0 <= k < n && inputs[..n][k] in prod && prod[inputs[..n][k]] !in order;
        assert inputs[k] in prod && prod[inputs[k]] !in order;
      }
    }
  }

  lemma {:induction false} OpenAtStart(prod: map<ValueId, nat>, inputs: seq<ValueId>)
    ensures Open(prod, inputs, []) == InDegree(prod, inputs)
  {
    if inputs != [] {
      OpenAtStart(prod, inputs[..|inputs| - 1]);
    }
  }

  lemma {:induction false} OpenStep(prod: map<ValueId, nat>, inputs: seq<ValueId>, order: seq<nat>, i: nat, cur: nat)
    requires cur !in order
    ensures Open(prod, inputs, order + [cur]) == Open(prod, inputs, order) - |EdgesTo(prod, inputs, i, cur)|
  {
    if inputs != [] {
      OpenStep(prod, inputs[..|inputs| - 1], order, i, cur);
    }
  }

  ghost function Count(s: seq<nat>, i: nat): nat {
    multiset(s)[i]
  }

  lemma {:induction false} ConsumersCount(nodes: seq<Node>, prod: map<ValueId, nat>, p: nat, i: nat)
    ensures Count(Consumers(nodes, prod, p), i) ==
              if i < |nodes| then |EdgesTo(prod, nodes[i].inputs, i, p)| else 0
  {
    if nodes != [] {
      var n := |nodes| - 1;
      ConsumersCount(nodes[..n], prod, p, i);
      var es := EdgesTo(prod, nodes[n].inputs, n, p);
      EdgesToBounds(prod, nodes[n].inputs, n, p);
      ConstantCount(es, n, i);
    }
  }

  lemma {:induction false} ConstantCount(s: seq<nat>, n: nat, i: nat)
    requires forall k :: 0 <= k < |s| ==> s[k] == n
    ensures Count(s, i) == if i == n then |s| else 0
  {
    if s != [] {
      ConstantCount(s[..|s| - 1], n, i);
      assert s == s[..|s| - 1] + [s[|s| - 1]];
    }
  }

  lemma {:induction false} RelaxEffect(f: Frontier, targets: seq<nat>) returns (added: seq<nat>)
    requires AllBelow(targets, |f.degrees|)
    requires forall i: nat :: i < |f.degrees| ==> f.degrees[i] >= Count(targets, i)
    ensures var r := Relax(f, targets);
            && (forall i: nat :: i < |f.degrees| ==> r.degrees[i] == f.degrees[i] - Count(targets, i))
            && r.queue == f.queue + added
            && NoDuplicates(added) && AllBelow(added, |f.degrees|)
            && (forall i: nat :: i < |f.degrees| ==> (i in added <==> Count(targets, i) > 0 && r.degrees[i] == 0))
  {
    if targets == [] {
      added := [];
    } else {
      var prefix, t := targets[..|targets| - 1], targets[|targets| - 1];
      assert targets == prefix + [t];
      assert multiset(targets) == multiset(prefix) + multiset{t};
      added := RelaxEffect(f, prefix);
      var mid := Relax(f, prefix);
      if mid.degrees[t] - 1 == 0 {
        added := added + [t];
      }
    }
  }

  lemma IndexOf(order: seq<nat>, x: nat) returns (j: nat)
    requires x in order
    ensures j < |order| && order[j] == x
  {
    j :| 0 <= j < |order| && order[j] == x;
  }

  lemma PoppedIsNew(order: seq<nat>, queue: seq<nat>)
    requires NoDuplicates(order + queue) && queue != []
    ensures queue[0] !in order
  {
    forall k | 0 <= k < |order| ensures order[k] != queue[0] {
      assert (order + queue)[k] == order[k] && (order + queue)[|order|] == queue[0];
    }
  }

  /** Relaxing the edges of the popped node leaves, for every node, its count of unordered producers. */
  lemma DegreesStep(nodes: seq<Node>, degrees: seq<int>, order: seq<nat>, cur: nat)
    requires |degrees| == |nodes| && cur !in order
    requires forall i :: 0 <= i < |nodes| ==> degrees[i] == Open(Producers(nodes), nodes[i].inputs, order)
    ensures forall i: nat :: i < |nodes| ==>
              degrees[i] - Count(Consumers(nodes, Producers(nodes), cur), i) ==
              Open(Producers(nodes), nodes[i].inputs, order + [cur])
  {
    var prod := Producers(nodes);
    var targets := Consumers(nodes, prod, cur);
    forall i: nat | i < |nodes|
      ensures degrees[i] - Count(targets, i) == Open(prod, nodes[i].inputs, order + [cur])
    {
      OpenStep(prod, nodes[i].inputs, order, i, cur);
      ConsumersCount(nodes, prod, cur, i);
    }
  }

  /** No node has more edges from the popped one than open inputs. */
  lemma EnoughDegree(nodes: seq<Node>, f: Frontier, order: seq<nat>)
    requires KahnInvariant(nodes, f, order) && f.queue != [] && f.queue[0] !in order
    ensures forall i: nat :: i < |nodes| ==> f.degrees[i] >= Count(Consumers(nodes, Producers(nodes), f.queue[0]), i)
  {
    DegreesStep(nodes, f.degrees, order, f.queue[0]);
  }

  /** The queue after one round: exactly the unordered nodes without open inputs, each once. */
  lemma KahnQueue(nodes: seq<Node>, f: Frontier, order: seq<nat>, r: Frontier)
    requires KahnInvariant(nodes, f, order) && f.queue != [] && f.queue[0] < |nodes| && f.queue[0] !in order
    requires var targets := Consumers(nodes, Producers(nodes), f.queue[0]);
             AllBelow(targets, |nodes|) && r == Relax(Frontier(f.degrees, f.queue[1..]), targets)
    ensures |r.degrees| == |nodes|
    ensures AllBelow((order + [f.queue[0]]) + r.queue, |nodes|) && NoDuplicates((order + [f.queue[0]]) + r.queue)
    ensures forall i :: 0 <= i < |nodes| ==> (i in (order + [f.queue[0]]) + r.queue <==> r.degrees[i] == 0)
    ensures forall i: nat :: i < |nodes| ==> r.degrees[i] ==
                                               f.degrees[i] - Count(Consumers(nodes, Producers(nodes), f.queue[0]), i)
  {
    var targets := Consumers(nodes, Producers(nodes), f.queue[0]);
    EnoughDegree(nodes, f, order);
    var added := RelaxEffect(Frontier(f.degrees, f.queue[1..]), targets);
    AddedQueue(nodes, f, order, targets, added, r);
  }

  /** One round of Kahn's loop keeps the invariant. */
  lemma KahnStep(nodes: seq<Node>, f: Frontier, order: seq<nat>)
    requires KahnInvariant(nodes, f, order) && f.queue != []
    ensures var start := Frontier(f.degrees, f.queue[1..]);
            AllBelow(Consumers(nodes, Producers(nodes), f.queue[0]), |nodes|) &&
            KahnInvariant(nodes, Relax(start, Consumers(nodes, Producers(nodes), f.queue[0])), order + [f.queue[0]])
  {
    PoppedReady(nodes, f, order);
    ConsumersBounds(nodes, Producers(nodes), f.queue[0]);
    KahnQueue(nodes, f, order, Relax(Frontier(f.degrees, f.queue[1..]),
                                     Consumers(nodes, Producers(nodes), f.queue[0])));
    DegreesStep(nodes, f.degrees, order, f.queue[0]);
    ProducersFirstStep(nodes, order, f.queue[0]);
  }

  lemma PoppedReady(nodes: seq<Node>, f: Frontier, order: seq<nat>)
    requires KahnInvariant(nodes, f, order) && f.queue != []
    ensures f.queue[0] < |nodes| && f.queue[0] !in order && f.degrees[f.queue[0]] == 0
    ensures Open(Producers(nodes), nodes[f.queue[0]].inputs, order) == 0
  {
    var all := order + f.queue;
    assert all[|order|] == f.queue[0];
    PoppedIsNew(order, f.queue);
  }

  lemma ProducersFirstStep(nodes: seq<Node>, order: seq<nat>, cur: nat)
    requires cur < |nodes| && ProducersFirst(nodes, order)
    requires Open(Producers(nodes), nodes[cur].inputs, order) == 0
    ensures ProducersFirst(nodes, order + [cur])
  {
    var order' := order + [cur];
    OpenZero(Producers(nodes), nodes[cur].inputs, order);
    forall k, p | 0 <= k < |order'| && Feeds(nodes, p, order'[k]) ensures p in order'[..k] {
      assert order'[..k] == order[..k];
    }
  }

  lemma AddedQueue(nodes: seq<Node>, f: Frontier, order: seq<nat>, targets: seq<nat>, added: seq<nat>, r: Frontier)
    requires |f.degrees| == |r.degrees| == |nodes| && f.queue != []
    requires AllBelow(order + f.queue, |nodes|) && NoDuplicates(order + f.queue)
    requires forall i :: 0 <= i < |nodes| ==> (i in order + f.queue <==> f.degrees[i] == 0)
    requires NoDuplicates(added) && AllBelow(added, |nodes|)
    requires forall i: nat :: i < |nodes| ==> (i in added <==> Count(targets, i) > 0 && r.degrees[i] == 0)
    requires forall i: nat :: i < |nodes| ==> r.degrees[i] == f.degrees[i] - Count(targets, i) >= 0
    requires r.queue == f.queue[1..] + added
    ensures AllBelow((order + [f.queue[0]]) + r.queue, |nodes|)
    ensures NoDuplicates((order + [f.queue[0]]) + r.queue)
    ensures forall i :: 0 <= i < |nodes| ==> (i in (order + [f.queue[0]]) + r.queue <==> r.degrees[i] == 0)
  {
    var old_, new_ := order + f.queue, (order + [f.queue[0]]) + r.queue;
    assert new_ == old_ + added;
    forall i | i in old_ ensures i !in added {
      assert i < |nodes| && f.degrees[i] == 0;
    }
    forall i, j | 0 <= i < j < |new_| ensures new_[i] != new_[j] {
      if j >= |old_| && i < |old_| {
        assert new_[i] in old_;
        assert new_[j] == added[j - |old_|];
      }
    }
  }

  lemma KahnStart(nodes: seq<Node>)
    ensures KahnInvariant(nodes, InitialFrontier(nodes), [])
  {
    var f := InitialFrontier(nodes);
    ReadyBounds(f.degrees);
    assert [] + f.queue == f.queue;
    forall i | 0 <= i < |nodes|
      ensures f.degrees[i] == Open(Producers(nodes), nodes[i].inputs, [])
    {
      OpenAtStart(Producers(nodes), nodes[i].inputs);
    }
  }

  /** What draining reaches: producers come first, and every unreached node waits for an unreached producer. */
  ghost predicate KahnResult(nodes: seq<Node>, r: seq<nat>) {
    && AllBelow(r, |nodes|) && NoDuplicates(r) && ProducersFirst(nodes, r)
    && UnreachedWait(nodes, r)
  }

  ghost predicate HasUnreachedProducer(nodes: seq<Node>, r: seq<nat>, c: nat) {
    exists p :: Feeds(nodes, p, c) && p !in r
  }

  ghost predicate UnreachedWait(nodes: seq<Node>, r: seq<nat>) {
    forall c: nat :: c < |nodes| && c !in r ==> HasUnreachedProducer(nodes, r, c)
  }

  lemma {:induction false} DrainResult(nodes: seq<Node>, f: Frontier, order: seq<nat>)
    requires KahnInvariant(nodes, f, order)
    ensures AllBelow(f.queue, |f.degrees|)
    ensures KahnResult(nodes, Drain(Adjacency(nodes), f, order))
    decreases |f.queue| + Positives(f.degrees)
  {
    assert AllBelow(f.queue, |f.degrees|) by {
      forall i | 0 <= i < |f.queue| ensures f.queue[i] < |f.degrees| {
        assert (order + f.queue)[|order| + i] == f.queue[i];
      }
    }
    if f.queue == [] {
      assert order + f.queue == order;
      forall c: nat | c < |nodes| && c !in order ensures HasUnreachedProducer(nodes, order, c) {
        var prod := Producers(nodes);
        OpenZero(prod, nodes[c].inputs, order);
        var k :| 0 <= k < |nodes[c].inputs| && nodes[c].inputs[k] in prod && prod[nodes[c].inputs[k]] !in order;
        ProducersAreLast(nodes, nodes[c].inputs[k]);
        assert Feeds(nodes, prod[nodes[c].inputs[k]], c);
      }
    } else {
      var cur := f.queue[0];
      var start := Frontier(f.degrees, f.queue[1..]);
      KahnStep(nodes, f, order);
      assert Adjacency(nodes)[cur] == Consumers(nodes, Producers(nodes), cur);
      RelaxBounds(start, Adjacency(nodes)[cur]);
      DrainResult(nodes, Relax(start, Adjacency(nodes)[cur]), order + [cur]);
    }
  }

  // ---------------------------------------------------------------- success means acyclic

  lemma KahnReaches(nodes: seq<Node>)
    ensures KahnResult(nodes, KahnOrder(nodes))
  {
    KahnStart(nodes);
    DrainResult(nodes, InitialFrontier(nodes), []);
  }

  lemma {:induction false} WalkClimbs(nodes: seq<Node>, order: seq<nat>, w: seq<nat>, k: nat) returns (i: nat, j: nat)
    requires Permutation(order, |nodes|) && ProducersFirst(nodes, order) && Walk(nodes, w) && 0 < k < |w|
    ensures i < j < |order| && order[i] == w[0] && order[j] == w[k]
  {
    Pigeonhole(order, |nodes|);
    assert Feeds(nodes, w[k - 1], w[k - 1 + 1]);
    j := IndexOf(order, w[k]);
    assert w[k - 1] in order[..j];
    i := IndexOf(order[..j], w[k - 1]);
    if k > 1 {
      var j';
      i, j' := WalkClimbs(nodes, order, w, k - 1);
    }
  }

  lemma SortedIsAcyclic(nodes: seq<Node>, order: seq<nat>)
    requires Permutation(order, |nodes|) && ProducersFirst(nodes, order)
    ensures Acyclic(nodes)
  {
    forall w | Walk(nodes, w) ensures w[0] != w[|w| - 1] {
      var i, j := WalkClimbs(nodes, order, w, |w| - 1);
    }
  }

  lemma UnreachedProducer(nodes: seq<Node>, r: seq<nat>, c: nat) returns (p: nat)
    requires UnreachedWait(nodes, r) && c < |nodes| && c !in r
    ensures Feeds(nodes, p, c) && p < |nodes| && p !in r
  {
    assert HasUnreachedProducer(nodes, r, c);
    p :| Feeds(nodes, p, c) && p !in r;
  }

  /** Walking backwards among unreached nodes: the walk has n + 1 nodes and ends in c. */
  lemma {:induction false} BackwardWalk(nodes: seq<Node>, r: seq<nat>, c: nat, n: nat) returns (w: seq<nat>)
    requires UnreachedWait(nodes, r) && c < |nodes| && c !in r
    ensures |w| == n + 1 && w[n] == c && AllBelow(w, |nodes|)
    ensures n >= 1 ==> Walk(nodes, w)
    decreases n
  {
    if n == 0 {
      w := [c];
    } else {
      var p := UnreachedProducer(nodes, r, c);
      var v := BackwardWalk(nodes, r, p, n - 1);
      w := v + [c];
      BelowNext(v, c, |nodes|);
      ExtendWalk(nodes, v, c);
    }
  }

  lemma ExtendWalk(nodes: seq<Node>, v: seq<nat>, c: nat)
    requires |v| >= 1 && (|v| >= 2 ==> Walk(nodes, v)) && Feeds(nodes, v[|v| - 1], c)
    ensures Walk(nodes, v + [c])
  {
    var w := v + [c];
    forall k | 0 <= k < |w| - 1 ensures Feeds(nodes, w[k], w[k + 1]) {
      if k < |v| - 1 {
        assert Feeds(nodes, v[k], v[k + 1]);
      }
    }
  }

  lemma PartOfWalk(nodes: seq<Node>, w: seq<nat>, i: nat, j: nat)
    requires Walk(nodes, w) && i < j < |w|
    ensures Walk(nodes, w[i..j + 1])
  {
    var part := w[i..j + 1];
    forall k | 0 <= k < |part| - 1 ensures Feeds(nodes, part[k], part[k + 1]) {
      assert Feeds(nodes, w[i + k], w[i + k + 1]);
    }
  }

  lemma ClosedWalkIsCycle(nodes: seq<Node>, w: seq<nat>)
    requires Walk(nodes, w) && w[0] == w[|w| - 1]
    ensures !Acyclic(nodes)
  {
  }

  lemma LongWalkIsCyclic(nodes: seq<Node>, w: seq<nat>)
    requires Walk(nodes, w) && AllBelow(w, |nodes|) && |w| > |nodes|
    ensures !Acyclic(nodes)
  {
    var i, j := Repetition(w, |nodes|);
    PartOfWalk(nodes, w, i, j);
    ClosedWalkIsCycle(nodes, w[i..j + 1]);
  }

  lemma UnsortedIsCyclic(nodes: seq<Node>, r: seq<nat>)
    requires AllBelow(r, |nodes|) && NoDuplicates(r) && UnreachedWait(nodes, r) && |r| != |nodes|
    ensures !Acyclic(nodes)
  {
    Pigeonhole(r, |nodes|);
    var c: nat :| c < |nodes| && c !in r;
    var w := BackwardWalk(nodes, r, c, |nodes|);
    LongWalkIsCyclic(nodes, w);
  }

  /** Kahn's algorithm orders every node exactly when no walk along producer-to-consumer edges closes. */
  lemma SortedIffAcyclic(nodes: seq<Node>)
    ensures |KahnOrder(nodes)| == |nodes| <==> Acyclic(nodes)
  {
    var r := KahnOrder(nodes);
    KahnReaches(nodes);
    if |r| == |nodes| {
      SortedIsAcyclic(nodes, r);
    } else {
      UnsortedIsCyclic(nodes, r);
    }
  }

  /** Main result on topological_sort: on a valid graph it succeeds exactly when the graph is acyclic, and then
      yields a permutation of the nodes with every producer before its consumers. */
  lemma SortCorrect(nodes: seq<Node>, valueCount: nat)
    ensures SortedOrder(nodes, valueCount).Ok? <==> ValidNodes(nodes, valueCount) && Acyclic(nodes)
    ensures SortedOrder(nodes, valueCount) == Err(RuntimeError) <==> ValidNodes(nodes, valueCount) && !Acyclic(nodes)
    ensures SortedOrder(nodes, valueCount).Ok? ==>
              Permutation(SortedOrder(nodes, valueCount).value, |nodes|) &&
              ProducersFirst(nodes, SortedOrder(nodes, valueCount).value)
  {
    SortedIffAcyclic(nodes);
    KahnReaches(nodes);
  }

  // ---------------------------------------------------------------- the class

  class Graph {
    var values: seq<Value>
    var nodes: seq<Node>

    /** Ids are positions. */
    ghost predicate Valid()
      reads this
    {
      && (forall i :: 0 <= i < |values| ==> values[i].id == i)
      && (forall i :: 0 <= i < |nodes| ==> nodes[i].id == i)
    }

    constructor ()
      ensures Valid() && values == [] && nodes == []
    {
      values := [];
      nodes := [];
    }

    method AddValue(shape: seq<int>, dtype: DType, device: Device, kind: ValueKind) returns (id: ValueId)
      requires Valid()
      modifies this
      ensures Valid() && id == |old(values)| && nodes == old(nodes)
      ensures values == old(values) + [Value(id, shape, dtype, device, kind)]
    {
      id := |values|;
      values := values + [Value(id, shape, dtype, device, kind)];
    }

    method AddNode(op: OpType, inputs: seq<ValueId>, outputs: seq<ValueId>) returns (id: NodeId)
      requires Valid()
      modifies this
      ensures Valid() && id == |old(nodes)| && values == old(values)
      ensures nodes == old(nodes) + [Node(id, op, inputs, outputs)]
    {
      id := |nodes|;
      nodes := nodes + [Node(id, op, inputs, outputs)];
    }

    /** The builder's way of marking a graph output: mutable_value(id)->kind = kind. */
    method SetKind(id: ValueId, kind: ValueKind) returns (status: Status)
      requires Valid()
      modifies this
      ensures Valid() && nodes == old(nodes)
      ensures status == Success <==> id < |old(values)|
      ensures id < |old(values)| ==> values == old(values)[id := old(values)[id].(kind := kind)]
      ensures id >= |old(values)| ==> status == Failure(OutOfRange) && values == old(values)
    {
      if id >= |values| {
        return Failure(OutOfRange);
      }
      values := values[id := values[id].(kind := kind)];
      return Success;
    }

    method Validate() returns (status: Status)
      ensures status == if ValidNodes(nodes, |values|) then Success else Failure(InvalidArgument)
    {
      for i := 0 to |nodes|
        invariant forall j :: 0 <= j < i ==> ValidNode(nodes[j], |values|)
      {
        var nd := nodes[i];
        for k := 0 to |nd.inputs|
          invariant forall m :: 0 <= m < k ==> nd.inputs[m] < |values|
        {
          if nd.inputs[k] >= |values| {
            assert !ValidNode(nd, |values|);
            return Failure(InvalidArgument);
          }
        }
        for k := 0 to |nd.outputs|
          invariant forall m :: 0 <= m < k ==> nd.outputs[m] < |values|
        {
          if nd.outputs[k] >= |values| {
            assert !ValidNode(nd, |values|);
            return Failure(InvalidArgument);
          }
        }
        if nd.op == OpOutput && nd.inputs == [] {
          assert !ValidNode(nd, |values|);
          return Failure(InvalidArgument);
        }
      }
      return Success;
    }

    method FindProducers() returns (prod: map<ValueId, nat>)
      ensures prod == Producers(nodes)
    {
      prod := map[];
      for i := 0 to |nodes|
        invariant prod == Producers(nodes[..i])
      {
        var outs := nodes[i].outputs;
        for k := 0 to |outs|
          invariant prod == AddOutputs(Producers(nodes[..i]), outs[..k], i)
        {
          prod := prod[outs[k] := i];
          assert outs[..k + 1][..k] == outs[..k];
        }
        assert outs[..|outs|] == outs;
        assert nodes[..i + 1][..i] == nodes[..i];
      }
      assert nodes[..|nodes|] == nodes;
    }

    /** Node i's inputs, each adding an edge from its producer. */
    method AddEdges(prod: map<ValueId, nat>, i: nat, adj: seq<seq<nat>>, degree: int)
      returns (adj': seq<seq<nat>>, degree': int)
      requires prod == Producers(nodes) && i < |nodes| && |adj| == |nodes|
      ensures |adj'| == |adj|
      ensures forall p :: 0 <= p < |adj| ==> adj'[p] == adj[p] + EdgesTo(prod, nodes[i].inputs, i, p)
      ensures degree' == degree + InDegree(prod, nodes[i].inputs)
    {
      adj', degree' := adj, degree;
      var ins := nodes[i].inputs;
      for k := 0 to |ins|
        invariant |adj'| == |adj|
        invariant forall p :: 0 <= p < |adj| ==> adj'[p] == adj[p] + EdgesTo(prod, ins[..k], i, p)
        invariant degree' == degree + InDegree(prod, ins[..k])
      {
        assert ins[..k + 1][..k] == ins[..k];
        if ins[k] in prod {
          ProducersAreLast(nodes, ins[k]);
          var p := prod[ins[k]];
          adj' := adj'[p := adj'[p] + [i]];
          degree' := degree' + 1;
        }
      }
      assert ins[..|ins|] == ins;
    }

    method BuildEdges(prod: map<ValueId, nat>) returns (adj: seq<seq<nat>>, degrees: seq<int>)
      requires prod == Producers(nodes)
      ensures adj == Adjacency(nodes) && degrees == InitialFrontier(nodes).degrees
    {
      var n := |nodes|;
      adj := seq(n, i => []);
      degrees := [];
      for i := 0 to n
        invariant |adj| == n && |degrees| == i
        invariant forall p :: 0 <= p < n ==> adj[p] == Consumers(nodes[..i], prod, p)
        invariant forall j :: 0 <= j < i ==> degrees[j] == InDegree(prod, nodes[j].inputs)
      {
        var degree;
        adj, degree := AddEdges(prod, i, adj, 0);
        degrees := degrees + [degree];
        assert nodes[..i + 1][..i] == nodes[..i];
      }
      assert nodes[..n] == nodes;
      assert adj == Adjacency(nodes);
      assert degrees == InitialFrontier(nodes).degrees;
    }

    /** The nodes without an unordered producer, in order. */
    method InitialQueue(degrees: seq<int>) returns (q: seq<nat>)
      ensures q == Ready(degrees)
    {
      q := [];
      for i := 0 to |degrees|
        invariant q == Ready(degrees[..i])
      {
        NextSlice(degrees, i);
        if degrees[i] == 0 {
          q := q + [i];
        }
      }
      WholeSlices(degrees);
    }

    /** The edge loop of one popped node. */
    method RelaxEdges(degrees: seq<int>, queue: seq<nat>, targets: seq<nat>)
      returns (degrees': seq<int>, queue': seq<nat>)
      requires AllBelow(targets, |degrees|)
      ensures Frontier(degrees', queue') == Relax(Frontier(degrees, queue), targets)
    {
      degrees', queue' := degrees, queue;
      for k := 0 to |targets|
        invariant |degrees'| == |degrees|
        invariant Frontier(degrees', queue') == Relax(Frontier(degrees, queue), targets[..k])
      {
        var nxt := targets[k];
        NextSlice(targets, k);
        degrees' := degrees'[nxt := degrees'[nxt] - 1];
        if degrees'[nxt] == 0 {
          queue' := queue' + [nxt];
        }
      }
      WholeSlices(targets);
    }

    /** Kahn's algorithm with in-degree counters and a FIFO queue. */
    method TopologicalSort() returns (r: Result<seq<NodeId>, ErrorCode>)
      ensures r == SortedOrder(nodes, |values|)
    {
      var st := Validate();
      if st != Success {
        return Err(st.code);
      }
      var prod := FindProducers();
      var adj, degrees := BuildEdges(prod);
      var n := |nodes|;
      var q := InitialQueue(degrees);
      var order: seq<nat> := [];
      assert Frontier(degrees, q) == InitialFrontier(nodes);
      while q != []
        invariant |degrees| == n && AllBelow(q, n)
        invariant Drain(adj, Frontier(degrees, q), order) == KahnOrder(nodes)
        decreases |q| + Positives(degrees)
      {
        var cur := q[0];
        ghost var start := Frontier(degrees, q[1..]);
        RelaxBounds(start, adj[cur]);
        order := order + [cur];
        degrees, q := RelaxEdges(degrees, q[1..], adj[cur]);
      }
      if |order| != n {
        return Err(RuntimeError);
      }
      return Ok(order);
    }
  }
}
