/** What follows from a memory plan: bounds on its size, optimality in uniform pools, disjoint storage. */
module PlanTheorems {
  import opened Wrappers
  import opened LiveRanges
  import opened BufferReuseSpec
  import opened BufferReuse
  import opened ArenaLayouts
  import opened MemoryPlanSpec

  // ---------------------------------------------------------------- bytes live at one node

  ghost predicate LiveAt(r: LiveRange, t: nat) {
    r.eligible && r.firstNode <= t <= r.lastNode
  }

  /** The aligned bytes of the eligible ranges live at a node index. */
  ghost function LiveBytes(ranges: seq<LiveRange>, t: nat): nat {
    if ranges == [] then 0
    else
      var r := ranges[|ranges| - 1];
      LiveBytes(ranges[..|ranges| - 1], t) + if LiveAt(r, t) then r.alignedBytes else 0
  }

  ghost function HeldBuffers(ranges: seq<LiveRange>, t: nat): (s: set<nat>)
    ensures forall b :: b in s <==> exists i :: 0 <= i < |ranges| && LiveAt(ranges[i], t) &&
                                                ranges[i].bufferId == Some(b)
  {
    if ranges == [] then {}
    else
      var n := |ranges| - 1;
      var rest := HeldBuffers(ranges[..n], t);
      assert forall i :: 0 <= i < n ==> ranges[..n][i] == ranges[i];
      if LiveAt(ranges[n], t) && ranges[n].bufferId.Some? then rest + {ranges[n].bufferId.value} else rest
  }

  ghost function BytesOf(buffers: seq<Buffer>, s: set<nat>): nat {
    if buffers == [] then 0
    else
      BytesOf(buffers[..|buffers| - 1], s) + if |buffers| - 1 in s then buffers[|buffers| - 1].bytes else 0
  }

  lemma {:induction false} BytesOfAdd(buffers: seq<Buffer>, s: set<nat>, b: nat)
    requires b !in s
    ensures BytesOf(buffers, s + {b}) == BytesOf(buffers, s) + if b < |buffers| then buffers[b].bytes else 0
  {
    if buffers != [] {
      BytesOfAdd(buffers[..|buffers| - 1], s, b);
    }
  }

  lemma {:induction false} BytesOfAtMostTotal(buffers: seq<Buffer>, s: set<nat>)
    ensures BytesOf(buffers, s) <= TotalBytes(buffers)
  {
    if buffers != [] {
      BytesOfAtMostTotal(buffers[..|buffers| - 1], s);
    }
  }

  lemma {:induction false} LiveBytesFit(ranges: seq<LiveRange>, buffers: seq<Buffer>, t: nat)
    requires EligiblePlaced(ranges, buffers) && NeverShared(ranges)
    ensures LiveBytes(ranges, t) <= BytesOf(buffers, HeldBuffers(ranges, t))
  {
    if ranges != [] {
      var n := |ranges| - 1;
      var r, rest := ranges[n], ranges[..n];
      assert forall i :: 0 <= i < n ==> rest[i] == ranges[i];
      LiveBytesFit(rest, buffers, t);
      if LiveAt(r, t) {
        assert Placed(r, buffers);
        var b := r.bufferId.value;
        assert b !in HeldBuffers(rest, t) by {
          forall i | 0 <= i < n && LiveAt(rest[i], t) ensures rest[i].bufferId != Some(b) {
            if rest[i].bufferId == Some(b) {
              assert SameBuffer(ranges[i], ranges[n]);
            }
          }
        }
        BytesOfAdd(buffers, HeldBuffers(rest, t), b);
      }
    }
  }

  /** At every node the live eligible values fit in the planned bytes, which never exceed the naive bytes. */
  lemma PlanBounds(plan: MemoryPlan, t: nat)
    requires GoodStorage(plan) && GoodTotals(plan)
    ensures LiveBytes(plan.ranges, t) <= plan.plannedBytes <= plan.naiveBytes
  {
    LiveBytesFit(plan.ranges, plan.buffers, t);
    BytesOfAtMostTotal(plan.buffers, HeldBuffers(plan.ranges, t));
  }

  // ---------------------------------------------------------------- optimality

  /** Ranges live together in a pool sit in different buffers of that pool. */
  lemma LiveNeedBuffers(plan: MemoryPlan, pool: Pool, t: nat)
    requires GoodStorage(plan)
    ensures |LiveSet(plan.ranges, pool, t)| <= |PoolBuffers(plan.buffers, pool)|
  {
    var live := LiveSet(plan.ranges, pool, t);
    var home := seq(|plan.ranges|, i requires 0 <= i < |plan.ranges| =>
      if plan.ranges[i].bufferId.Some? then plan.ranges[i].bufferId.value else 0);
    forall i | i in live ensures i < |home| && home[i] in PoolBuffers(plan.buffers, pool) {
      assert Placed(plan.ranges[i], plan.buffers);
    }
    forall i, j | i in live && j in live && i != j ensures home[i] != home[j] {
      assert Placed(plan.ranges[i], plan.buffers) && Placed(plan.ranges[j], plan.buffers);
      assert !SameBuffer(plan.ranges[i], plan.ranges[j]);
    }
    ImageSize(live, home, PoolBuffers(plan.buffers, pool));
  }

  /** In a pool whose ranges all have one aligned size, greedy reuse is optimal: the number of buffers is the
      largest number of ranges live at one node. */
  lemma ReuseIsOptimal(plan: MemoryPlan, pool: Pool)
    requires GoodStorage(plan) && GoodTotals(plan) && Uniform(plan.ranges, pool)
    ensures forall t: nat :: |LiveSet(plan.ranges, pool, t)| <= |PoolBuffers(plan.buffers, pool)|
    ensures exists t: nat :: |LiveSet(plan.ranges, pool, t)| == |PoolBuffers(plan.buffers, pool)|
  {
    forall t: nat ensures |LiveSet(plan.ranges, pool, t)| <= |PoolBuffers(plan.buffers, pool)| {
      LiveNeedBuffers(plan, pool, t);
    }
    assert Needed(plan.ranges, plan.buffers, pool);
    if PoolBuffers(plan.buffers, pool) == {} {
      assert |LiveSet(plan.ranges, pool, 0)| == 0;
    }
  }

  // ---------------------------------------------------------------- byte intervals

  ghost predicate SameArena(plan: MemoryPlan, i: nat, j: nat)
    requires i < |plan.ranges| && j < |plan.ranges|
    requires Placed(plan.ranges[i], plan.buffers) && Placed(plan.ranges[j], plan.buffers)
  {
    plan.buffers[plan.ranges[i].bufferId.value].arenaIndex == plan.buffers[plan.ranges[j].bufferId.value].arenaIndex
  }

  ghost function StartOf(plan: MemoryPlan, i: nat): nat
    requires i < |plan.ranges| && Placed(plan.ranges[i], plan.buffers)
  {
    plan.buffers[plan.ranges[i].bufferId.value].offset
  }

  /** Two planned values that are live at a common node occupy disjoint byte intervals of their arena. */
  lemma LiveTogetherDisjoint(plan: MemoryPlan, i: nat, j: nat)
    requires GoodStorage(plan) && i < |plan.ranges| && j < |plan.ranges| && i != j
    requires plan.ranges[i].eligible && plan.ranges[j].eligible && !Apart(plan.ranges[i], plan.ranges[j])
    ensures Placed(plan.ranges[i], plan.buffers) && Placed(plan.ranges[j], plan.buffers)
    ensures SameArena(plan, i, j) ==>
              || StartOf(plan, i) + plan.ranges[i].alignedBytes <= StartOf(plan, j)
              || StartOf(plan, j) + plan.ranges[j].alignedBytes <= StartOf(plan, i)
  {
    assert Placed(plan.ranges[i], plan.buffers) && Placed(plan.ranges[j], plan.buffers);
    var b, c := plan.ranges[i].bufferId.value, plan.ranges[j].bufferId.value;
    assert !SameBuffer(plan.ranges[i], plan.ranges[j]);
    if SameArena(plan, i, j) {
      if b < c {
        PackedDisjoint(plan.buffers, b, c);
      } else {
        PackedDisjoint(plan.buffers, c, b);
      }
    }
  }

  /** Every buffer offset is a multiple of the alignment. */
  lemma OffsetsAligned(plan: MemoryPlan, b: nat)
    requires GoodStorage(plan) && b < |plan.buffers|
    ensures plan.buffers[b].offset % plan.alignment == 0
  {
    PoolBytesAligned(plan.buffers[..b], BufferPool(plan.buffers[b]), plan.alignment);
  }

  /** The arenas allocated for the plan add up to exactly its planned bytes. */
  lemma ArenaTotals(plan: MemoryPlan, count: nat)
    requires GoodStorage(plan) && GoodTotals(plan) && DenseArenas(plan.buffers, count)
    ensures SumArenas(plan.buffers, count) == plan.plannedBytes
  {
    ArenasSumToPlanned(plan.buffers, count);
  }
}
