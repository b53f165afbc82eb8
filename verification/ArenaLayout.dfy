/**
  Third part of the memory planner (src/runtime/memory_planner.cpp): buffers of one (dtype, device) pool
  are laid out one after another in one arena.
*/
module ArenaLayouts {
  import opened Sequences
  import opened Arithmetic
  import opened Wrappers
  import opened LiveRanges
  import opened BufferReuseSpec

  /** The bytes of a pool's buffers. */
  ghost function PoolBytes(buffers: seq<Buffer>, pool: Pool): nat {
    if buffers == [] then 0
    else
      PoolBytes(buffers[..|buffers| - 1], pool) +
      if BufferPool(buffers[|buffers| - 1]) == pool then buffers[|buffers| - 1].bytes else 0
  }

  ghost predicate AlignedSizes(buffers: seq<Buffer>, alignment: nat)
    requires alignment > 0
  {
    forall b :: 0 <= b < |buffers| ==> buffers[b].bytes % alignment == 0
  }

  /** The layout pass changes nothing but arena indices and offsets. */
  ghost predicate SameButArena(buffers: seq<Buffer>, base: seq<Buffer>) {
    |buffers| == |base| &&
    forall b :: 0 <= b < |base| ==>
      buffers[b] == base[b].(arenaIndex := buffers[b].arenaIndex, offset := buffers[b].offset)
  }

  /** Each buffer starts where the earlier buffers of its pool end. */
  ghost predicate Packed(buffers: seq<Buffer>) {
    forall b :: 0 <= b < |buffers| ==>
      buffers[b].arenaIndex.Some? && buffers[b].offset == PoolBytes(buffers[..b], BufferPool(buffers[b]))
  }

  /** Arenas are pools. */
  ghost predicate ArenaPerPool(buffers: seq<Buffer>) {
    forall b, c :: 0 <= b < |buffers| && 0 <= c < |buffers| ==>
      (buffers[b].arenaIndex == buffers[c].arenaIndex <==> BufferPool(buffers[b]) == BufferPool(buffers[c]))
  }

  ghost predicate ArenaUsed(buffers: seq<Buffer>, a: nat) {
    exists b :: 0 <= b < |buffers| && buffers[b].arenaIndex == Some(a)
  }

  /** Arena indices are numbered without gaps from 0 to count - 1. */
  ghost predicate DenseArenas(buffers: seq<Buffer>, count: nat) {
    && (forall b :: 0 <= b < |buffers| ==> buffers[b].arenaIndex.Some? && buffers[b].arenaIndex.value < count)
    && (forall a :: 0 <= a < count ==> ArenaUsed(buffers, a))
  }

  ghost predicate LaidOut(buffers: seq<Buffer>) {
    Packed(buffers) && ArenaPerPool(buffers) && exists count :: DenseArenas(buffers, count)
  }

  lemma {:induction false} PoolBytesAligned(buffers: seq<Buffer>, pool: Pool, alignment: nat)
    requires alignment > 0 && AlignedSizes(buffers, alignment)
    ensures PoolBytes(buffers, pool) % alignment == 0
  {
    if buffers != [] {
      var n := |buffers| - 1;
      PoolBytesAligned(buffers[..n], pool, alignment);
      SumOfMultiples(PoolBytes(buffers[..n], pool), buffers[n].bytes, alignment);
    }
  }

  lemma {:induction false} PoolBytesGrow(buffers: seq<Buffer>, pool: Pool, i: nat, j: nat)
    requires i <= j <= |buffers|
    ensures PoolBytes(buffers[..i], pool) <= PoolBytes(buffers[..j], pool)
    decreases j
  {
    if i < j {
      assert buffers[..j][..j - 1] == buffers[..j - 1];
      PoolBytesGrow(buffers, pool, i, j - 1);
    }
  }

  lemma PackedInside(buffers: seq<Buffer>, b: nat)
    requires Packed(buffers) && b < |buffers|
    ensures buffers[b].offset + buffers[b].bytes <= PoolBytes(buffers, BufferPool(buffers[b]))
  {
    NextSlice(buffers, b);
    PoolBytesGrow(buffers, BufferPool(buffers[b]), b + 1, |buffers|);
    WholeSlices(buffers);
  }

  /** Two buffers of one arena occupy disjoint byte intervals, inside the arena's total. */
  lemma PackedDisjoint(buffers: seq<Buffer>, b: nat, c: nat)
    requires Packed(buffers) && b < c < |buffers| && BufferPool(buffers[b]) == BufferPool(buffers[c])
    ensures buffers[b].offset + buffers[b].bytes <= buffers[c].offset
    ensures buffers[c].offset + buffers[c].bytes <= PoolBytes(buffers, BufferPool(buffers[c]))
  {
    assert buffers[..b + 1][..b] == buffers[..b];
    PoolBytesGrow(buffers, BufferPool(buffers[b]), b + 1, c);
    PackedInside(buffers, c);
  }

  // ---------------------------------------------------------------- the pass

  type ArenaInfo = map<Pool, (nat, nat)>

  ghost predicate Ends(info: ArenaInfo, done: seq<Buffer>) {
    forall p :: p in info ==> info[p].1 == PoolBytes(done, p)
  }

  ghost predicate Numbered(info: ArenaInfo) {
    && (forall p :: p in info ==> info[p].0 < |info|)
    && (forall p, q :: p in info && q in info && info[p].0 == info[q].0 ==> p == q)
  }

  ghost predicate Recorded(info: ArenaInfo, done: seq<Buffer>) {
    forall b :: 0 <= b < |done| ==>
      BufferPool(done[b]) in info && done[b].arenaIndex == Some(info[BufferPool(done[b])].0)
  }

  ghost predicate AllUsed(done: seq<Buffer>, count: nat) {
    forall a :: 0 <= a < count ==> ArenaUsed(done, a)
  }

  /** arena_info after some buffers: each seen pool has its own arena index and its current end. */
  ghost predicate InfoFor(info: ArenaInfo, done: seq<Buffer>) {
    Ends(info, done) && Numbered(info) && Recorded(info, done) && AllUsed(done, |info|)
  }

  lemma {:induction false} UnseenPoolIsEmpty(done: seq<Buffer>, p: Pool)
    requires forall b :: 0 <= b < |done| ==> BufferPool(done[b]) != p
    ensures PoolBytes(done, p) == 0
  {
    if done != [] {
      UnseenPoolIsEmpty(done[..|done| - 1], p);
    }
  }

  function IndexFor(info: ArenaInfo, p: Pool): nat {
    if p in info then info[p].0 else |info|
  }

  lemma EndsStep(info: ArenaInfo, done: seq<Buffer>, b: Buffer, index: nat)
    requires Ends(info, done) && Recorded(info, done)
    ensures PoolBytes(done, BufferPool(b)) == if BufferPool(b) in info then info[BufferPool(b)].1 else 0
    ensures Ends(info[BufferPool(b) := (index, PoolBytes(done, BufferPool(b)) + b.bytes)], done + [b])
  {
    if BufferPool(b) !in info {
      UnseenPoolIsEmpty(done, BufferPool(b));
    }
    assert (done + [b])[..|done|] == done;
  }

  lemma NumberedStep(info: ArenaInfo, p: Pool, end: nat)
    requires Numbered(info)
    ensures Numbered(info[p := (IndexFor(info, p), end)])
    ensures |info[p := (IndexFor(info, p), end)]| == if p in info then |info| else |info| + 1
  {
    InfoCount(info, p, (IndexFor(info, p), end));
  }

  lemma InfoCount(info: ArenaInfo, p: Pool, entry: (nat, nat))
    ensures |info[p := entry]| == if p in info then |info| else |info| + 1
  {
    var info' := info[p := entry];
    assert info'.Keys == info.Keys + {p};
    assert |info'| == |info'.Keys| && |info| == |info.Keys|;
  }

  lemma RecordedStep(info: ArenaInfo, done: seq<Buffer>, b: Buffer, end: nat)
    requires Recorded(info, done) && b.arenaIndex == Some(IndexFor(info, BufferPool(b)))
    ensures Recorded(info[BufferPool(b) := (b.arenaIndex.value, end)], done + [b])
  {
    var done' := done + [b];
    forall c | 0 <= c < |done|
      ensures BufferPool(done'[c]) in info && done'[c].arenaIndex == Some(info[BufferPool(done'[c])].0) {
      assert done'[c] == done[c];
    }
  }

  lemma AllUsedStep(done: seq<Buffer>, b: Buffer, count: nat, count': nat)
    requires AllUsed(done, count) && count <= count' <= count + 1
    requires count' == count + 1 ==> b.arenaIndex == Some(count)
    ensures AllUsed(done + [b], count')
  {
    var done' := done + [b];
    forall a | 0 <= a < count' ensures ArenaUsed(done', a) {
      if a < count {
        assert ArenaUsed(done, a);
        var c :| 0 <= c < |done| && done[c].arenaIndex == Some(a);
        assert done'[c].arenaIndex == Some(a);
      } else {
        assert done'[|done|].arenaIndex == Some(a);
      }
    }
  }

  lemma InfoStep(info: ArenaInfo, done: seq<Buffer>, b: Buffer)
    requires InfoFor(info, done) && b.arenaIndex == Some(IndexFor(info, BufferPool(b)))
    requires b.offset == PoolBytes(done, BufferPool(b))
    ensures InfoFor(info[BufferPool(b) := (b.arenaIndex.value, b.offset + b.bytes)], done + [b])
  {
    var p, end := BufferPool(b), b.offset + b.bytes;
    EndsStep(info, done, b, b.arenaIndex.value);
    NumberedStep(info, p, end);
    RecordedStep(info, done, b, end);
    AllUsedStep(done, b, |info|, |info[p := (b.arenaIndex.value, end)]|);
  }

  lemma PackedStep(done: seq<Buffer>, b: Buffer)
    requires Packed(done) && b.arenaIndex.Some? && b.offset == PoolBytes(done, BufferPool(b))
    ensures Packed(done + [b])
  {
    var done' := done + [b];
    assert done'[..|done|] == done;
    forall c | 0 <= c < |done| ensures done'[..c] == done[..c] {
    }
  }

  /** An arena's current end needs no padding, since every buffer size is a multiple of the alignment. */
  lemma NextOffset(info: ArenaInfo, done: seq<Buffer>, p: Pool, alignment: nat)
    requires alignment > 0 && AlignedSizes(done, alignment) && Ends(info, done) && Recorded(info, done)
    ensures PoolBytes(done, p) == if p in info then AlignUp(info[p].1, alignment) else 0
  {
    PoolBytesAligned(done, p, alignment);
    if p !in info {
      UnseenPoolIsEmpty(done, p);
    }
  }

  /** The next buffer goes to the end of its pool's arena, or opens a new arena. */
  method LayOutOne(done: seq<Buffer>, info: ArenaInfo, base: Buffer, alignment: nat)
    returns (buffer: Buffer, info': ArenaInfo)
    requires alignment > 0 && AlignedSizes(done, alignment) && Packed(done) && InfoFor(info, done)
    ensures buffer == base.(arenaIndex := buffer.arenaIndex, offset := buffer.offset)
    ensures Packed(done + [buffer]) && InfoFor(info', done + [buffer])
  {
    var p := BufferPool(base);
    NextOffset(info, done, p, alignment);
    if p !in info {
      buffer := base.(arenaIndex := Some(|info|), offset := 0);
    } else {
      buffer := base.(arenaIndex := Some(info[p].0), offset := AlignUp(info[p].1, alignment));
    }
    info' := info[p := (buffer.arenaIndex.value, buffer.offset + buffer.bytes)];
    InfoStep(info, done, buffer);
    PackedStep(done, buffer);
  }

  method LayOut(base: seq<Buffer>, alignment: nat) returns (buffers: seq<Buffer>)
    requires alignment > 0 && AlignedSizes(base, alignment)
    ensures SameButArena(buffers, base) && LaidOut(buffers)
  {
    buffers := [];
    var info: ArenaInfo := map[];
    for i := 0 to |base|
      invariant SameButArena(buffers, base[..i]) && AlignedSizes(buffers, alignment)
      invariant Packed(buffers) && InfoFor(info, buffers)
    {
      var buffer;
      buffer, info := LayOutOne(buffers, info, base[i], alignment);
      buffers := buffers + [buffer];
    }
    assert base[..|base|] == base;
    LayoutFromInfo(buffers, info);
  }

  lemma LayoutFromInfo(buffers: seq<Buffer>, info: ArenaInfo)
    requires Packed(buffers) && InfoFor(info, buffers)
    ensures LaidOut(buffers)
  {
    assert DenseArenas(buffers, |info|);
  }

  // ---------------------------------------------------------------- arena totals

  /** What allocation computes for one arena: the largest offset + bytes of its buffers. */
  function ArenaTotal(buffers: seq<Buffer>, a: nat): nat {
    if buffers == [] then 0
    else
      var b := buffers[|buffers| - 1];
      var rest := ArenaTotal(buffers[..|buffers| - 1], a);
      if b.arenaIndex == Some(a) && b.offset + b.bytes > rest then b.offset + b.bytes else rest
  }

  function SumArenas(buffers: seq<Buffer>, count: nat): nat {
    if count == 0 then 0 else SumArenas(buffers, count - 1) + ArenaTotal(buffers, count - 1)
  }

  lemma {:induction false} ArenaTotalIsPoolBytes(buffers: seq<Buffer>, a: nat, pool: Pool)
    requires Packed(buffers)
    requires forall b :: 0 <= b < |buffers| ==> (buffers[b].arenaIndex == Some(a) <==> BufferPool(buffers[b]) == pool)
    ensures ArenaTotal(buffers, a) == PoolBytes(buffers, pool)
  {
    if buffers != [] {
      var n := |buffers| - 1;
      assert forall b :: 0 <= b < n ==> buffers[..n][..b] == buffers[..b];
      ArenaTotalIsPoolBytes(buffers[..n], a, pool);
    }
  }

  /** The last buffer adds its bytes to exactly one arena. */
  lemma LastBufferTotal(buffers: seq<Buffer>, a: nat)
    requires Packed(buffers) && ArenaPerPool(buffers) && buffers != []
    ensures var n := |buffers| - 1;
            ArenaTotal(buffers, a) ==
            ArenaTotal(buffers[..n], a) + if buffers[n].arenaIndex == Some(a) then buffers[n].bytes else 0
  {
    var n := |buffers| - 1;
    if buffers[n].arenaIndex == Some(a) {
      var pool := BufferPool(buffers[n]);
      assert forall b :: 0 <= b < n ==> buffers[..n][..b] == buffers[..b] && buffers[..n][b] == buffers[b];
      ArenaTotalIsPoolBytes(buffers, a, pool);
      ArenaTotalIsPoolBytes(buffers[..n], a, pool);
    }
  }

  lemma {:induction false} SumArenasStep(buffers: seq<Buffer>, count: nat)
    requires Packed(buffers) && ArenaPerPool(buffers) && buffers != []
    ensures var n := |buffers| - 1;
            SumArenas(buffers, count) ==
            SumArenas(buffers[..n], count) + if buffers[n].arenaIndex.value < count then buffers[n].bytes else 0
  {
    if count > 0 {
      SumArenasStep(buffers, count - 1);
      LastBufferTotal(buffers, count - 1);
    }
  }

  lemma {:induction false} SumArenasEmpty(count: nat)
    ensures SumArenas([], count) == 0
  {
    if count > 0 {
      SumArenasEmpty(count - 1);
    }
  }

  lemma {:induction false} ArenaInSum(buffers: seq<Buffer>, a: nat, count: nat)
    requires a < count
    ensures ArenaTotal(buffers, a) <= SumArenas(buffers, count)
  {
    if a < count - 1 {
      ArenaInSum(buffers, a, count - 1);
    }
  }

  /** The arena sizes add up to exactly the planned bytes. */
  lemma {:induction false} ArenasSumToPlanned(buffers: seq<Buffer>, count: nat)
    requires Packed(buffers) && ArenaPerPool(buffers)
    requires forall b :: 0 <= b < |buffers| ==> buffers[b].arenaIndex.Some? && buffers[b].arenaIndex.value < count
    ensures SumArenas(buffers, count) == TotalBytes(buffers)
  {
    if buffers == [] {
      SumArenasEmpty(count);
    } else {
      var n := |buffers| - 1;
      assert forall b :: 0 <= b < n ==> buffers[..n][..b] == buffers[..b];
      SumArenasStep(buffers, count);
      ArenasSumToPlanned(buffers[..n], count);
    }
  }
}
