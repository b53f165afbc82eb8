/**
  What the planner's greedy pass maintains: the bookkeeping of free and live buffers, what a good
  assignment of buffers to ranges is, and when a pool needs all the buffers it has.
*/
module BufferReuseSpec {
  import opened Wrappers
  import opened Sequences
  import opened Graphs
  import opened OrderedPairs
  import opened LiveRanges

  /** A range sits in a buffer of its own pool that is large enough and stays reserved to its end. */
  ghost predicate Placed(r: LiveRange, buffers: seq<Buffer>) {
    && r.eligible && r.bufferId.Some? && r.bufferId.value < |buffers|
    && var b := buffers[r.bufferId.value];
       r.alignedBytes <= b.bytes && RangePool(r) == BufferPool(b) && r.lastNode <= b.lastUse && r.value in b.values
  }

  ghost predicate AllPlaced(ranges: seq<LiveRange>, buffers: seq<Buffer>, done: seq<nat>) {
    forall i :: i in done ==> i < |ranges| && Placed(ranges[i], buffers)
  }

  ghost predicate Apart(a: LiveRange, b: LiveRange) {
    a.lastNode < b.firstNode || b.lastNode < a.firstNode
  }

  /** Two ranges in one buffer are never live at the same node. */
  ghost predicate NoOverlap(ranges: seq<LiveRange>, done: seq<nat>)
    requires forall i :: i in done ==> i < |ranges|
  {
    forall i, j :: i in done && j in done && i != j && ranges[i].bufferId == ranges[j].bufferId ==>
      Apart(ranges[i], ranges[j])
  }

  /** The plan changes nothing but the buffer ids of its ranges. */
  ghost predicate SameButBuffers(ranges: seq<LiveRange>, base: seq<LiveRange>) {
    |ranges| == |base| &&
    forall i :: 0 <= i < |base| ==> ranges[i] == base[i].(bufferId := ranges[i].bufferId)
  }

  function TotalBytes(buffers: seq<Buffer>): nat {
    if buffers == [] then 0 else TotalBytes(buffers[..|buffers| - 1]) + buffers[|buffers| - 1].bytes
  }

  type Pools = map<Pool, seq<Pair>>

  ghost predicate LiveEntry(e: Pair, buffers: seq<Buffer>) {
    e.1 < |buffers| && e.0 == buffers[e.1].lastUse
  }

  ghost predicate FreeEntry(e: Pair, buffers: seq<Buffer>, pool: Pool, live: seq<Pair>, frontier: nat) {
    && e.1 < |buffers| && e.0 == buffers[e.1].bytes && BufferPool(buffers[e.1]) == pool
    && buffers[e.1].lastUse < frontier
    && (buffers[e.1].lastUse, e.1) !in live
  }

  ghost predicate LiveBook(buffers: seq<Buffer>, live: seq<Pair>) {
    Increasing(live) && forall e :: e in live ==> LiveEntry(e, buffers)
  }

  ghost predicate FreeBook(buffers: seq<Buffer>, pools: Pools, live: seq<Pair>, frontier: nat) {
    forall p :: p in pools ==>
      Increasing(pools[p]) && forall e :: e in pools[p] ==> FreeEntry(e, buffers, p, live, frontier)
  }

  ghost predicate Tracked(buffers: seq<Buffer>, pools: Pools, live: seq<Pair>, b: nat)
    requires b < |buffers|
  {
    || (buffers[b].lastUse, b) in live
    || (BufferPool(buffers[b]) in pools && (buffers[b].bytes, b) in pools[BufferPool(buffers[b])])
  }

  /** Every buffer is either live until its last use or free in its own pool since before the frontier. */
  ghost predicate Books(buffers: seq<Buffer>, pools: Pools, live: seq<Pair>, frontier: nat) {
    && LiveBook(buffers, live) && FreeBook(buffers, pools, live, frontier)
    && forall b :: 0 <= b < |buffers| ==> Tracked(buffers, pools, live, b)
  }

  /** Buffer b, old or new, has been extended to the end of range r and taken its value. */
  ghost predicate Extends(buffers: seq<Buffer>, buffers': seq<Buffer>, b: nat, r: LiveRange) {
    && |buffers| <= |buffers'| && b < |buffers'| && (|buffers'| == |buffers| ||
                                                     (|buffers'| == |buffers| + 1 && b == |buffers|))
    && (forall c :: 0 <= c < |buffers| && c != b ==> buffers'[c] == buffers[c])
    && buffers'[b].lastUse == r.lastNode && r.value in buffers'[b].values
    && r.alignedBytes <= buffers'[b].bytes && RangePool(r) == BufferPool(buffers'[b])
    && (b < |buffers| ==>
          && buffers[b].lastUse < r.firstNode && buffers'[b].bytes == buffers[b].bytes
          && BufferPool(buffers'[b]) == BufferPool(buffers[b])
          && (forall v :: v in buffers[b].values ==> v in buffers'[b].values))
  }

  /** The eligible ranges of a pool that are live at a node index. */
  ghost function LiveSet(ranges: seq<LiveRange>, pool: Pool, t: nat): set<nat> {
    set i: nat | i < |ranges| && ranges[i].eligible && RangePool(ranges[i]) == pool &&
                 ranges[i].firstNode <= t <= ranges[i].lastNode
  }

  ghost function PoolBuffers(buffers: seq<Buffer>, pool: Pool): set<nat> {
    set b: nat | b < |buffers| && BufferPool(buffers[b]) == pool
  }

  /** All eligible ranges of the pool have one aligned size. */
  ghost predicate Uniform(ranges: seq<LiveRange>, pool: Pool) {
    forall i, j :: 0 <= i < |ranges| && 0 <= j < |ranges| && ranges[i].eligible && ranges[j].eligible &&
                   RangePool(ranges[i]) == pool && RangePool(ranges[j]) == pool ==>
                     ranges[i].alignedBytes == ranges[j].alignedBytes
  }

  /** Some node index has as many live ranges as the pool has buffers. */
  ghost predicate Needed(base: seq<LiveRange>, buffers: seq<Buffer>, pool: Pool) {
    PoolBuffers(buffers, pool) == {} || exists t: nat :: |LiveSet(base, pool, t)| >= |PoolBuffers(buffers, pool)|
  }

  ghost predicate Tight(base: seq<LiveRange>, buffers: seq<Buffer>) {
    forall pool :: Uniform(base, pool) ==> Needed(base, buffers, pool)
  }

  ghost predicate Owner(ranges: seq<LiveRange>, buffers: seq<Buffer>, done: seq<nat>, b: nat, i: nat)
    requires b < |buffers|
  {
    i in done && i < |ranges| && ranges[i].bufferId == Some(b) && ranges[i].lastNode == buffers[b].lastUse
  }

  ghost predicate Creator(ranges: seq<LiveRange>, buffers: seq<Buffer>, done: seq<nat>, b: nat, i: nat)
    requires b < |buffers|
  {
    i in done && i < |ranges| && ranges[i].eligible && RangePool(ranges[i]) == BufferPool(buffers[b]) &&
    ranges[i].alignedBytes == buffers[b].bytes
  }

  /** owner[b] is the last range placed in buffer b, creator[b] the first. */
  ghost predicate Owned(ranges: seq<LiveRange>, buffers: seq<Buffer>, done: seq<nat>, owner: seq<nat>,
                        creator: seq<nat>) {
    && |owner| == |creator| == |buffers|
    && (forall b :: 0 <= b < |buffers| ==> Owner(ranges, buffers, done, b, owner[b]))
    && (forall b :: 0 <= b < |buffers| ==> Creator(ranges, buffers, done, b, creator[b]))
  }

  ghost predicate ValuesRecorded(ranges: seq<LiveRange>, buffers: seq<Buffer>) {
    && (forall b :: 0 <= b < |buffers| ==> buffers[b].id == b)
    && (forall b, v :: 0 <= b < |buffers| && v in buffers[b].values ==> HeldBy(ranges, b, v))
  }

  ghost predicate HeldBy(ranges: seq<LiveRange>, b: nat, v: ValueId) {
    exists i :: 0 <= i < |ranges| && ranges[i].value == v && ranges[i].bufferId == Some(b)
  }

  /** Every processed range has its place and no two processed ranges collide. */
  ghost predicate Placement(base: seq<LiveRange>, ranges: seq<LiveRange>, buffers: seq<Buffer>, done: seq<nat>) {
    && SameButBuffers(ranges, base)
    && (forall i :: 0 <= i < |base| && i !in done ==> ranges[i].bufferId == None)
    && AllPlaced(ranges, buffers, done) && NoOverlap(ranges, done)
    && ValuesRecorded(ranges, buffers)
  }

  /** Buffers are owned by ranges, and uniform pools have no more of them than they need. */
  ghost predicate Economy(base: seq<LiveRange>, ranges: seq<LiveRange>, buffers: seq<Buffer>, done: seq<nat>,
                          owner: seq<nat>, creator: seq<nat>) {
    Owned(ranges, buffers, done, owner, creator) && Tight(base, buffers)
  }

  ghost predicate Created(ranges: seq<LiveRange>, b: Buffer) {
    exists i :: 0 <= i < |ranges| && ranges[i].eligible && RangePool(ranges[i]) == BufferPool(b) &&
                ranges[i].alignedBytes == b.bytes
  }

  ghost predicate Startable(base: seq<LiveRange>, done: seq<nat>, i: nat) {
    && i < |base| && base[i].eligible && base[i].bufferId == None && i !in done && base[i].firstNode <= base[i].lastNode
    && forall j :: j in done ==> j < |base| && base[j].firstNode <= base[i].firstNode
  }

  function NewBuffer(r: LiveRange, id: nat): Buffer {
    Buffer(id, r.alignedBytes, r.dtype, r.device, r.lastNode, None, 0, [r.value])
  }

  /** What the greedy pass yields for the eligible ranges listed in order. */
  ghost predicate Assignment(base: seq<LiveRange>, order: seq<nat>, ranges: seq<LiveRange>, buffers: seq<Buffer>) {
    && SameButBuffers(ranges, base)
    && (forall i :: 0 <= i < |base| && i !in order ==> ranges[i].bufferId == None)
    && AllPlaced(ranges, buffers, order) && NoOverlap(ranges, order)
    && ValuesRecorded(ranges, buffers)
    && (forall b :: 0 <= b < |buffers| ==> Created(base, buffers[b]))
    && Tight(base, buffers)
  }

  /** The input of the greedy pass: unassigned ranges, and the eligible ones in sorted order. */
  ghost predicate PassInput(base: seq<LiveRange>, order: seq<nat>) {
    && Indices(base, order) && AllBelow(order, |base|) && SortedRanges(base, order)
    && forall i :: 0 <= i < |base| ==> base[i].firstNode <= base[i].lastNode && base[i].bufferId == None
  }
}
