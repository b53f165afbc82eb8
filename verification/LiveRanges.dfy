/**
  First part of the memory planner (src/runtime/memory_planner.cpp): sizes, liveness of every value over
  the sorted nodes, and the sorted list of values that take part in the plan.
*/
module LiveRanges {
  import opened Arithmetic
  import opened Wrappers
  import opened Sequences
  import opened Graphs

  datatype PlanOptions = PlanOptions(alignment: nat, includeOutputs: bool)

  datatype LiveRange = LiveRange(
    value: ValueId, bytes: nat, alignedBytes: nat, dtype: DType, device: Device, kind: ValueKind,
    firstNode: nat, lastNode: nat, eligible: bool, bufferId: Option<nat>)

  datatype Buffer = Buffer(
    id: nat, bytes: nat, dtype: DType, device: Device, lastUse: nat,
    arenaIndex: Option<nat>, offset: nat, values: seq<ValueId>)

  datatype MemoryPlan = MemoryPlan(
    ranges: seq<LiveRange>, buffers: seq<Buffer>, alignment: nat,
    eligibleCount: nat, skippedCount: nat, naiveBytes: nat, plannedBytes: nat)

  datatype Pool = Pool(dtype: DType, device: Device)

  function RangePool(r: LiveRange): Pool { Pool(r.dtype, r.device) }

  function BufferPool(b: Buffer): Pool { Pool(b.dtype, b.device) }

  // ---------------------------------------------------------------- sizes

  /** The least multiple of the alignment that is at least the value. */
  function AlignUp(value: nat, alignment: nat): (r: nat)
    ensures r >= value
    ensures alignment > 0 ==> r % alignment == 0 && r < value + alignment
  {
    if alignment == 0 then value
    else
      var rem := value % alignment;
      if rem == 0 then value
      else
        AlignedSum(value, alignment);
        value + (alignment - rem)
  }

  lemma AlignedSum(value: nat, alignment: nat)
    requires alignment > 0
    ensures (value + (alignment - value % alignment)) % alignment == 0
  {
    var q := value / alignment;
    assert value + (alignment - value % alignment) == alignment * (q + 1);
    MultipleMod(q + 1, alignment);
  }

  predicate HasDynamicDim(shape: seq<int>) {
    exists k :: 0 <= k < |shape| && shape[k] < 0
  }

  /** Shape::numel: the product of the dimensions, or an error when it leaves size_t. */
  function NumElements(shape: seq<int>): Result<nat, ErrorCode>
    requires !HasDynamicDim(shape)
  {
    if shape == [] then Ok(1)
    else
      var last := shape[|shape| - 1];
      match NumElements(shape[..|shape| - 1])
      case Err(e) => Err(e)
      case Ok(n) => if last > 0 && n > SIZE_LIMIT / last then Err(InvalidArgument) else Ok(n * last)
  }

  function DTypeSize(dtype: DType): Result<nat, ErrorCode> {
    match dtype
    case Float32 => Ok(4)
    case Float16 => Ok(2)
    case BFloat16 => Ok(2)
    case Int32 => Ok(4)
    case Int64 => Ok(8)
    case UInt8 => Ok(1)
    case Int8 => Ok(1)
    case Bool => Ok(1)
    case Q8_0 => Err(Unsupported)
    case UnknownDType => Err(Unsupported)
  }

  /** Whether a value takes part in the plan, and with how many bytes. */
  datatype Footprint = Skipped | Sized(bytes: nat) | Overflow

  function FootprintOf(v: Value, options: PlanOptions): Footprint {
    if !(v.kind == Intermediate || (options.includeOutputs && v.kind == Output)) then Skipped
    else if v.device.kind != CPU && v.device.kind != CUDA then Skipped
    else if HasDynamicDim(v.shape) then Skipped
    else
      match (NumElements(v.shape), DTypeSize(v.dtype))
      case (Ok(n), Ok(size)) => if n > SIZE_LIMIT / size then Overflow else Sized(n * size)
      case _ => Skipped
  }

  function Product(dims: seq<int>): int {
    if dims == [] then 1 else dims[0] * Product(dims[1..])
  }

  lemma {:induction false} ProductLast(dims: seq<int>)
    requires dims != []
    ensures Product(dims) == Product(dims[..|dims| - 1]) * dims[|dims| - 1]
  {
    if |dims| > 1 {
      ProductLast(dims[1..]);
      assert dims[1..][..|dims| - 2] == dims[..|dims| - 1][1..];
    } else {
      assert dims[1..] == [] && dims[..0] == [];
    }
  }

  /** The number of elements is the product of the dims, and it is an error exactly when the product of some of the
      leading dims leaves 64 bits. */
  lemma {:induction false} ElementCount(shape: seq<int>)
    requires !HasDynamicDim(shape)
    ensures NumElements(shape).Ok? <==> forall k :: 0 <= k <= |shape| ==> Product(shape[..k]) <= 0xFFFF_FFFF_FFFF_FFFF
    ensures NumElements(shape).Ok? ==> NumElements(shape).value == Product(shape)
    ensures Product(shape) >= 0
  {
    if shape != [] {
      var front, last := shape[..|shape| - 1], shape[|shape| - 1];
      ElementCount(front);
      ProductLast(shape);
      forall k | 0 <= k <= |front| ensures front[..k] == shape[..k] {
      }
      assert shape[..|shape|] == shape;
      if NumElements(front).Ok? {
        TimesFits(NumElements(front).value, last);
      }
    }
  }

  lemma TimesFits(n: nat, m: nat)
    ensures n * m >= 0 && (!(m > 0 && n > SIZE_LIMIT / m) <==> n * m <= 0xFFFF_FFFF_FFFF_FFFF)
  {
    if m > 0 {
      if n <= SIZE_LIMIT / m {
        Monotone(n, SIZE_LIMIT / m, m);
      } else {
        Monotone(SIZE_LIMIT / m + 1, n, m);
        assert (SIZE_LIMIT / m + 1) * m == SIZE_LIMIT / m * m + m;
      }
    }
  }

  /** The size of one element of a type, where it has one. */
  lemma ElementSize(dtype: DType)
    ensures DTypeSize(dtype) == Ok(1) <==> dtype == UInt8 || dtype == Int8 || dtype == Bool
    ensures DTypeSize(dtype) == Ok(2) <==> dtype == Float16 || dtype == BFloat16
    ensures DTypeSize(dtype) == Ok(4) <==> dtype == Float32 || dtype == Int32
    ensures DTypeSize(dtype) == Ok(8) <==> dtype == Int64
    ensures DTypeSize(dtype).Err? <==> dtype == Q8_0 || dtype == UnknownDType
  {
  }

  /** Whether and with how many bytes a value takes part in the plan, in numbers: it is an intermediate value, or an
      output if these are asked for, on a CPU or CUDA device, and its type and shape have a size; its bytes are the
      product of its dims times that of one element, and the plan fails when they leave 64 bits. */
  lemma FootprintInBytes(v: Value, options: PlanOptions, size: nat)
    requires DTypeSize(v.dtype) == Ok(size)
    ensures var counted := && (v.kind == Intermediate || (options.includeOutputs && v.kind == Output))
                           && (v.device.kind == CPU || v.device.kind == CUDA)
                           && (forall k :: 0 <= k < |v.shape| ==> v.shape[k] >= 0)
                           && (forall k :: 0 <= k <= |v.shape| ==> Product(v.shape[..k]) <= 0xFFFF_FFFF_FFFF_FFFF);
            && (!counted ==> FootprintOf(v, options) == Skipped)
            && (counted && Product(v.shape) * size <= 0xFFFF_FFFF_FFFF_FFFF ==>
                  Product(v.shape) * size >= 0 && FootprintOf(v, options) == Sized(Product(v.shape) * size))
            && (counted && Product(v.shape) * size > 0xFFFF_FFFF_FFFF_FFFF ==> FootprintOf(v, options) == Overflow)
  {
    if !HasDynamicDim(v.shape) {
      ElementCount(v.shape);
      if NumElements(v.shape).Ok? {
        TimesFits(NumElements(v.shape).value, size);
      }
    }
  }

  // ---------------------------------------------------------------- liveness

  ghost predicate Defines(nodes: seq<Node>, order: seq<NodeId>, idx: nat, v: ValueId)
    requires idx < |order| && AllBelow(order, |nodes|)
  {
    v in nodes[order[idx]].outputs
  }

  ghost predicate Touches(nodes: seq<Node>, order: seq<NodeId>, idx: nat, v: ValueId)
    requires idx < |order| && AllBelow(order, |nodes|)
  {
    v in nodes[order[idx]].inputs || v in nodes[order[idx]].outputs
  }

  /** The liveness arrays of one value after the first n sorted nodes: its last definition and its last use. */
  ghost predicate Liveness(nodes: seq<Node>, order: seq<NodeId>, n: nat, v: ValueId, first: nat, last: nat,
                           produced: bool)
    requires n <= |order| && AllBelow(order, |nodes|)
  {
    && (produced <==> exists idx: nat :: idx < n && Defines(nodes, order, idx, v))
    && (produced ==> first < n && Defines(nodes, order, first, v) &&
                     forall idx: nat :: first < idx < n ==> !Defines(nodes, order, idx, v))
    && (forall idx: nat :: idx < n && Touches(nodes, order, idx, v) ==> idx <= last)
    && (last == 0 || (last < n && Touches(nodes, order, last, v)))
  }

  /** Every input of a node is still needed at the node. */
  method MarkInputs(inputs: seq<ValueId>, last: seq<nat>, idx: nat) returns (last': seq<nat>)
    requires AllBelow(inputs, |last|) && forall v :: 0 <= v < |last| ==> last[v] <= idx
    ensures |last'| == |last| && forall v: nat :: v < |last| ==> last'[v] == if v in inputs then idx else last[v]
  {
    last' := last;
    for k := 0 to |inputs|
      invariant |last'| == |last|
      invariant forall v: nat :: v < |last| ==> last'[v] == if v in inputs[..k] then idx else last[v]
    {
      var input := inputs[k];
      NextSlice(inputs, k);
      last' := last'[input := if last'[input] < idx then idx else last'[input]];
    }
    WholeSlices(inputs);
  }

  /** Every output of a node starts at the node. */
  method MarkOutputs(outputs: seq<ValueId>, first: seq<nat>, last: seq<nat>, produced: seq<bool>, idx: nat)
    returns (first': seq<nat>, last': seq<nat>, produced': seq<bool>)
    requires |first| == |last| == |produced| && AllBelow(outputs, |last|)
    requires forall v :: 0 <= v < |last| ==> last[v] <= idx
    ensures |first'| == |last'| == |produced'| == |last|
    ensures forall v: nat :: v < |last| ==>
              && first'[v] == (if v in outputs then idx else first[v])
              && last'[v] == (if v in outputs then idx else last[v])
              && produced'[v] == (v in outputs || produced[v])
  {
    first', last', produced' := first, last, produced;
    for k := 0 to |outputs|
      invariant |first'| == |last'| == |produced'| == |last|
      invariant forall v: nat :: v < |last| ==>
                  && first'[v] == (if v in outputs[..k] then idx else first[v])
                  && last'[v] == (if v in outputs[..k] then idx else last[v])
                  && produced'[v] == (v in outputs[..k] || produced[v])
    {
      var output := outputs[k];
      NextSlice(outputs, k);
      first' := first'[output := idx];
      last' := last'[output := if last'[output] < idx then idx else last'[output]];
      produced' := produced'[output := true];
    }
    WholeSlices(outputs);
  }

  method ComputeLiveness(nodes: seq<Node>, order: seq<NodeId>, valueCount: nat)
    returns (first: seq<nat>, last: seq<nat>, produced: seq<bool>)
    requires AllBelow(order, |nodes|) && ValidNodes(nodes, valueCount)
    ensures |first| == |last| == |produced| == valueCount
    ensures forall v :: 0 <= v < valueCount ==> Liveness(nodes, order, |order|, v, first[v], last[v], produced[v])
  {
    first := seq(valueCount, i => 0);
    last := seq(valueCount, i => 0);
    produced := seq(valueCount, i => false);
    for idx := 0 to |order|
      invariant |first| == |last| == |produced| == valueCount
      invariant forall v :: 0 <= v < valueCount ==> Liveness(nodes, order, idx, v, first[v], last[v], produced[v])
    {
      ghost var first0, last0, produced0 := first, last, produced;
      var nd := nodes[order[idx]];
      last := MarkInputs(nd.inputs, last, idx);
      first, last, produced := MarkOutputs(nd.outputs, first, last, produced, idx);
      forall v: nat | v < valueCount
        ensures Liveness(nodes, order, idx + 1, v, first[v], last[v], produced[v])
      {
        LivenessStep(nodes, order, idx, v, first0[v], last0[v], produced0[v]);
      }
    }
  }

  lemma LivenessStep(nodes: seq<Node>, order: seq<NodeId>, idx: nat, v: ValueId, first: nat, last: nat, produced: bool)
    requires idx < |order| && AllBelow(order, |nodes|)
    requires Liveness(nodes, order, idx, v, first, last, produced)
    ensures var nd := nodes[order[idx]];
            Liveness(nodes, order, idx + 1, v,
                     if v in nd.outputs then idx else first,
                     if v in nd.inputs || v in nd.outputs then idx else last,
                     v in nd.outputs || produced)
  {
    var nd := nodes[order[idx]];
    if v in nd.outputs {
      assert Defines(nodes, order, idx, v);
    }
  }

  // ---------------------------------------------------------------- ranges

  /** The range of one value; it is eligible for the arena exactly when the value has a footprint. */
  function RangeOf(v: Value, first: nat, last: nat, produced: bool, graphEnd: nat, options: PlanOptions): LiveRange
    requires FootprintOf(v, options) != Overflow
  {
    var start := if produced then first else 0;
    var end := if v.kind == Output then graphEnd else last;
    var bytes := match FootprintOf(v, options) case Sized(n) => n case _ => 0;
    LiveRange(v.id, bytes, AlignUp(bytes, options.alignment), v.dtype, v.device, v.kind,
              start, if end < start then start else end, FootprintOf(v, options).Sized?, None)
  }

  function SumAligned(ranges: seq<LiveRange>): nat {
    if ranges == [] then 0
    else
      SumAligned(ranges[..|ranges| - 1]) +
      if ranges[|ranges| - 1].eligible then ranges[|ranges| - 1].alignedBytes else 0
  }

  function EligibleCount(ranges: seq<LiveRange>): nat {
    if ranges == [] then 0
    else EligibleCount(ranges[..|ranges| - 1]) + if ranges[|ranges| - 1].eligible then 1 else 0
  }

  ghost predicate AnyOverflow(values: seq<Value>, options: PlanOptions) {
    exists i :: 0 <= i < |values| && FootprintOf(values[i], options) == Overflow
  }

  method ComputeRanges(values: seq<Value>, first: seq<nat>, last: seq<nat>, produced: seq<bool>,
                       graphEnd: nat, options: PlanOptions)
    returns (r: Result<(seq<LiveRange>, nat, nat, nat), ErrorCode>)
    requires |first| == |last| == |produced| == |values|
    ensures r.Err? <==> AnyOverflow(values, options)
    ensures r.Err? ==> r.error == OutOfRange
    ensures r.Ok? ==>
              var (ranges, eligible, skipped, naive) := r.value;
              && |ranges| == |values|
              && (forall i :: 0 <= i < |values| ==>
                    FootprintOf(values[i], options) != Overflow &&
                    ranges[i] == RangeOf(values[i], first[i], last[i], produced[i], graphEnd, options))
              && naive == SumAligned(ranges)
              && eligible == EligibleCount(ranges) && eligible + skipped == |values|
  {
    var ranges: seq<LiveRange> := [];
    var eligible, skipped, naive := 0, 0, 0;
    for i := 0 to |values|
      invariant |ranges| == i
      invariant forall j :: 0 <= j < i ==>
                  FootprintOf(values[j], options) != Overflow &&
                  ranges[j] == RangeOf(values[j], first[j], last[j], produced[j], graphEnd, options)
      invariant naive == SumAligned(ranges)
      invariant eligible == EligibleCount(ranges) && eligible + skipped == i
    {
      if FootprintOf(values[i], options) == Overflow {
        return Err(OutOfRange);
      }
      var range := RangeOf(values[i], first[i], last[i], produced[i], graphEnd, options);
      if range.eligible {
        eligible, naive := eligible + 1, naive + range.alignedBytes;
      } else {
        skipped := skipped + 1;
      }
      assert (ranges + [range])[..i] == ranges;
      ranges := ranges + [range];
    }
    return Ok((ranges, eligible, skipped, naive));
  }

  // ---------------------------------------------------------------- sorting the eligible ranges

  /** The comparator of the planner's sort: by start, then by end, then larger first. */
  predicate SortsBefore(a: LiveRange, b: LiveRange) {
    if a.firstNode != b.firstNode then a.firstNode < b.firstNode
    else if a.lastNode != b.lastNode then a.lastNode < b.lastNode
    else a.alignedBytes > b.alignedBytes
  }

  ghost predicate Indices(ranges: seq<LiveRange>, s: seq<nat>) {
    NoDuplicates(s) && forall i :: 0 <= i < |s| ==> s[i] < |ranges| && ranges[s[i]].eligible
  }

  ghost predicate SortedRanges(ranges: seq<LiveRange>, s: seq<nat>)
    requires AllBelow(s, |ranges|)
  {
    forall i, j :: 0 <= i < j < |s| ==> !SortsBefore(ranges[s[j]], ranges[s[i]])
  }

  function SumOver(ranges: seq<LiveRange>, s: seq<nat>): nat
    requires AllBelow(s, |ranges|)
  {
    if s == [] then 0 else ranges[s[0]].alignedBytes + SumOver(ranges, s[1..])
  }

  function InsertRange(ranges: seq<LiveRange>, s: seq<nat>, x: nat): (r: seq<nat>)
    requires AllBelow(s, |ranges|) && x < |ranges|
    ensures forall y :: y in r <==> y == x || y in s
  {
    if s == [] then [x]
    else if SortsBefore(ranges[x], ranges[s[0]]) then [x] + s
    else
      assert forall y :: y in s <==> y == s[0] || y in s[1..];
      [s[0]] + InsertRange(ranges, s[1..], x)
  }

  lemma {:induction false} InsertKeepsOrder(ranges: seq<LiveRange>, s: seq<nat>, x: nat)
    requires AllBelow(s, |ranges|) && x < |ranges| && SortedRanges(ranges, s)
    ensures AllBelow(InsertRange(ranges, s, x), |ranges|) && SortedRanges(ranges, InsertRange(ranges, s, x))
  {
    var r := InsertRange(ranges, s, x);
    forall k | 0 <= k < |r| ensures r[k] < |ranges| {
      assert r[k] in r;
    }
    if s != [] && !SortsBefore(ranges[x], ranges[s[0]]) {
      InsertKeepsOrder(ranges, s[1..], x);
      var rest := InsertRange(ranges, s[1..], x);
      assert r == [s[0]] + rest;
      forall j | 1 <= j < |r| ensures !SortsBefore(ranges[r[j]], ranges[r[0]]) {
        assert r[j] == rest[j - 1] && rest[j - 1] in rest;
        if r[j] != x {
          assert r[j] in s[1..];
        }
      }
      assert forall j :: 1 <= j < |r| ==> r[j] == rest[j - 1];
    }
  }

  lemma {:induction false} InsertKeepsDistinct(ranges: seq<LiveRange>, s: seq<nat>, x: nat)
    requires AllBelow(s, |ranges|) && x < |ranges| && x !in s && NoDuplicates(s)
    ensures NoDuplicates(InsertRange(ranges, s, x))
  {
    if s != [] && !SortsBefore(ranges[x], ranges[s[0]]) {
      InsertKeepsDistinct(ranges, s[1..], x);
      var rest := InsertRange(ranges, s[1..], x);
      assert s[0] !in rest;
      assert forall k :: 0 <= k < |rest| ==> rest[k] in rest;
    }
  }

  lemma {:induction false} InsertSum(ranges: seq<LiveRange>, s: seq<nat>, x: nat)
    requires AllBelow(s, |ranges|) && x < |ranges|
    requires AllBelow(InsertRange(ranges, s, x), |ranges|)
    ensures SumOver(ranges, InsertRange(ranges, s, x)) == SumOver(ranges, s) + ranges[x].alignedBytes
  {
    var r := InsertRange(ranges, s, x);
    if s != [] && !SortsBefore(ranges[x], ranges[s[0]]) {
      var rest := InsertRange(ranges, s[1..], x);
      assert r[1..] == rest;
      forall k | 0 <= k < |rest| ensures rest[k] < |ranges| {
        assert r[k + 1] == rest[k];
      }
      InsertSum(ranges, s[1..], x);
    } else {
      assert r[1..] == s;
    }
  }

  /** The eligible indices in the order of the greedy pass. Like std::sort it leaves ties in some order. */
  method EligibleInOrder(ranges: seq<LiveRange>) returns (s: seq<nat>)
    ensures Indices(ranges, s) && AllBelow(s, |ranges|) && SortedRanges(ranges, s)
    ensures forall i: nat :: i < |ranges| && ranges[i].eligible ==> i in s
    ensures SumOver(ranges, s) == SumAligned(ranges)
  {
    s := [];
    for i := 0 to |ranges|
      invariant AllBelow(s, |ranges|) && SortedRanges(ranges, s) && NoDuplicates(s)
      invariant forall x: nat :: x in s <==> x < i && ranges[x].eligible
      invariant SumOver(ranges, s) == SumAligned(ranges[..i])
    {
      assert ranges[..i + 1][..i] == ranges[..i];
      if ranges[i].eligible {
        InsertKeepsOrder(ranges, s, i);
        InsertKeepsDistinct(ranges, s, i);
        InsertSum(ranges, s, i);
        s := InsertRange(ranges, s, i);
      }
    }
    assert ranges[..|ranges|] == ranges;
    assert forall k :: 0 <= k < |s| ==> s[k] in s;
  }
}
