/** Padded block tables: the flat layout that a batch hands to the attention kernels. */
module PaddedTableSpec {
  import opened PagedCacheSpec

  datatype Batch = Batch(
    ids: seq<int>, lengths: seq<nat>, tables: seq<int>,
    size: nat, stride: nat, blockSize: nat, heads: nat, headDim: nat)

  /** Row b of the table holds the first needed blocks and is padded with -1. */
  ghost predicate RowPadded(tables: seq<int>, b: nat, stride: nat, blocks: seq<nat>, needed: nat) {
    && b * stride + stride <= |tables| && needed <= |blocks| && needed <= stride
    && var base := b * stride;
       forall j :: base <= j < base + stride ==> tables[j] == if j - base < needed then blocks[j - base] else -1
  }

  ghost predicate RowsPadded(tables: seq<int>, c: Cache, ids: seq<int>, lengths: seq<nat>, stride: nat, n: nat)
    requires n <= |ids| && n <= |lengths| && c.blockSize > 0
  {
    forall b: nat :: b < n ==> RowPadded(tables, b, stride, Entry(c, ids[b]).blocks, CeilDiv(lengths[b], c.blockSize))
  }

  /** Rows that are still all -1. */
  ghost predicate RowsBlank(tables: seq<int>, stride: nat, from: nat, n: nat) {
    |tables| == n * stride && forall j :: from * stride <= j < |tables| ==> tables[j] == -1
  }

  /** Every active sequence is in the cache with tokens to attend to. */
  ghost predicate AllPresent(c: Cache, ids: seq<int>) {
    forall b :: 0 <= b < |ids| ==> 0 <= ids[b] < |c.sequences| && c.sequences[ids[b]].length > 0
  }

  ghost predicate LengthsOf(c: Cache, ids: seq<int>, lengths: seq<nat>) {
    |lengths| == |ids| && forall b :: 0 <= b < |ids| ==> lengths[b] == Entry(c, ids[b]).length
  }

  /** stride is the largest number of blocks that one of the first n sequences needs. */
  ghost predicate Widest(c: Cache, lengths: seq<nat>, stride: nat)
    requires c.blockSize > 0
  {
    && (forall b :: 0 <= b < |lengths| ==> CeilDiv(lengths[b], c.blockSize) <= stride)
    && (stride > 0 ==> exists b :: 0 <= b < |lengths| && CeilDiv(lengths[b], c.blockSize) == stride)
  }

  /** What the measuring loop knows about the ids it has seen. */
  ghost predicate Measured(c: Cache, ids: seq<int>, lengths: seq<nat>, widest: nat) {
    && c.blockSize > 0 && AllPresent(c, ids) && LengthsOf(c, ids, lengths) && Widest(c, lengths, widest)
    && (ids != [] ==> widest > 0)
    && forall b :: 0 <= b < |lengths| ==> CeilDiv(lengths[b], c.blockSize) <= |Entry(c, ids[b]).blocks|
  }

  /** A batch that describes the active sequences of a cache. */
  ghost predicate Describes(batch: Batch, c: Cache, ids: seq<int>) {
    && c.blockSize > 0
    && batch.ids == ids && batch.size == |ids| && AllPresent(c, ids) && LengthsOf(c, ids, batch.lengths)
    && batch.blockSize == c.blockSize && batch.heads == c.heads && batch.headDim == c.headDim
    && batch.stride > 0 && Widest(c, batch.lengths, batch.stride)
    && |batch.tables| == batch.size * batch.stride
    && RowsPadded(batch.tables, c, ids, batch.lengths, batch.stride, batch.size)
  }

  /** Where the batched kernel looks for row pos of batch entry b. */
  function PaddedIndex(batch: Batch, b: nat, pos: nat): int
    requires batch.blockSize > 0 && b * batch.stride + pos / batch.blockSize < |batch.tables|
  {
    batch.tables[b * batch.stride + pos / batch.blockSize] * (batch.blockSize * (batch.heads * batch.headDim))
    + pos % batch.blockSize * (batch.heads * batch.headDim)
  }
}

/** src/runtime/cache/paged_attention_scheduler.cpp */
module PagedAttentionSchedulers {
  import opened Arithmetic
  import opened PaddedTableSpec
  import opened PagedCacheProofs
  import opened PagedCacheSpec
  import opened PagedKVCaches
  import opened Sequences
  import opened Wrappers

  lemma CeilIsNeeded(length: nat, size: nat)
    requires size > 0
    ensures CeilDiv(length, size) == BlocksNeeded(length, size)
    ensures length > 0 ==> CeilDiv(length, size) > 0
  {
    if length == 0 {
      assert (size - 1) / size == 0;
    } else {
      CeilCovers(length, size, 0);
    }
  }

  lemma PositionBlock(pos: nat, length: nat, size: nat)
    requires size > 0 && pos < length
    ensures pos / size < CeilDiv(length, size)
  {
    CeilIsNeeded(length, size);
    CeilCovers(length, size, CeilDiv(length, size));
    assert pos == size * (pos / size) + pos % size;
    if pos / size >= CeilDiv(length, size) {
      Monotone(CeilDiv(length, size), pos / size, size);
      assert false;
    }
  }

  lemma PaddedEntry(tables: seq<int>, b: nat, stride: nat, blocks: seq<nat>, needed: nat, q: nat)
    requires RowPadded(tables, b, stride, blocks, needed) && q < needed
    ensures b * stride + q < |tables| && q < |blocks| && tables[b * stride + q] == blocks[q]
  {
  }

  /** Reading through the padded table finds the row where the cache keeps it, for every position below the length. */
  lemma PaddedAddress(batch: Batch, c: Cache, ids: seq<int>, b: nat, pos: nat)
    requires Good(c) && Describes(batch, c, ids) && b < batch.size && pos < batch.lengths[b]
    ensures ids[b] >= 0 && HasRow(c, ids[b], pos)
    ensures b * batch.stride + pos / batch.blockSize < |batch.tables|
    ensures PaddedIndex(batch, b, pos) == RowIndex(c, ids[b], pos)
  {
    var blocks, needed := Entry(c, ids[b]).blocks, CeilDiv(batch.lengths[b], c.blockSize);
    assert RowPadded(batch.tables, b, batch.stride, blocks, needed);
    PositionBlock(pos, batch.lengths[b], c.blockSize);
    PaddedEntry(batch.tables, b, batch.stride, blocks, needed, pos / c.blockSize);
  }

  lemma PaddedNext(tables: seq<int>, tables': seq<int>, c: Cache, ids: seq<int>, lengths: seq<nat>, stride: nat, b: nat)
    requires b < |ids| == |lengths| && c.blockSize > 0 && |tables| == |tables'|
    requires RowsPadded(tables, c, ids, lengths, stride, b)
    requires RowPadded(tables', b, stride, Entry(c, ids[b]).blocks, CeilDiv(lengths[b], c.blockSize))
    requires forall j :: 0 <= j < b * stride ==> tables'[j] == tables[j]
    ensures RowsPadded(tables', c, ids, lengths, stride, b + 1)
  {
    forall a: nat | a < b + 1
      ensures RowPadded(tables', a, stride, Entry(c, ids[a]).blocks, CeilDiv(lengths[a], c.blockSize))
    {
      if a < b {
        RowInBuffer(a, b, stride);
        RowKept(tables, tables', a, stride, Entry(c, ids[a]).blocks, CeilDiv(lengths[a], c.blockSize));
      }
    }
  }

  lemma RowKept(tables: seq<int>, tables': seq<int>, a: nat, stride: nat, blocks: seq<nat>, needed: nat)
    requires RowPadded(tables, a, stride, blocks, needed) && |tables'| == |tables|
    requires forall j :: 0 <= j < a * stride + stride <= |tables| ==> tables'[j] == tables[j]
    ensures RowPadded(tables', a, stride, blocks, needed)
  {
  }

  lemma BlankNext(tables: seq<int>, tables': seq<int>, stride: nat, b: nat, n: nat)
    requires RowsBlank(tables, stride, b, n) && |tables'| == |tables|
    requires forall j :: b * stride + stride <= j < |tables| ==> tables'[j] == tables[j]
    ensures RowsBlank(tables', stride, b + 1, n)
  {
    assert (b + 1) * stride == b * stride + stride;
  }

  /** The inner loop of build_batch: the blocks of one sequence copied into its row. */
  method FillRow(tables: seq<int>, b: nat, stride: nat, blocks: seq<nat>, needed: nat) returns (filled: seq<int>)
    requires b * stride + stride <= |tables| && needed <= stride && needed <= |blocks|
    requires var base := b * stride; forall j :: base <= j < base + stride ==> tables[j] == -1
    ensures |filled| == |tables| && RowPadded(filled, b, stride, blocks, needed)
    ensures forall j :: 0 <= j < |tables| && !(b * stride <= j < b * stride + stride) ==> filled[j] == tables[j]
  {
    filled := tables;
    var base := b * stride;
    for i := 0 to needed
      invariant |filled| == |tables|
      invariant forall j :: 0 <= j < |tables| && !(base <= j < base + stride) ==> filled[j] == tables[j]
      invariant forall j :: base <= j < base + stride ==> filled[j] == if j - base < i then blocks[j - base] else -1
    {
      filled := filled[base + i := blocks[i]];
    }
  }

  lemma WidestNext(c: Cache, lengths: seq<nat>, widest: nat)
    requires c.blockSize > 0 && lengths != [] && Widest(c, lengths[..|lengths| - 1], widest)
    ensures Widest(c, lengths, Max(widest, CeilDiv(lengths[|lengths| - 1], c.blockSize)))
  {
    var shorter := lengths[..|lengths| - 1];
    var needed := CeilDiv(lengths[|lengths| - 1], c.blockSize);
    if widest > 0 && widest >= needed {
      var b :| 0 <= b < |shorter| && CeilDiv(shorter[b], c.blockSize) == widest;
      assert lengths[b] == shorter[b];
    }
  }

  lemma NotPresent(c: Cache, ids: seq<int>, b: nat)
    requires b < |ids| && (ids[b] < 0 || ids[b] >= |c.sequences| || Entry(c, ids[b]).length == 0)
    ensures !AllPresent(c, ids)
  {
    var s := ids[b];
  }

  lemma MeasuredNext(c: Cache, ids: seq<int>, lengths: seq<nat>, widest: nat, s: int)
    requires Good(c) && Measured(c, ids, lengths, widest) && 0 <= s < |c.sequences| && Entry(c, s).length > 0
    ensures Measured(c, ids + [s], lengths + [Entry(c, s).length],
                     Max(widest, CeilDiv(Entry(c, s).length, c.blockSize)))
  {
    var length := Entry(c, s).length;
    CeilIsNeeded(length, c.blockSize);
    CeilCovers(length, c.blockSize, |c.sequences[s].blocks|);
    var longer := lengths + [length];
    assert longer[..|longer| - 1] == lengths;
    WidestNext(c, longer, widest);
  }

  class PagedAttentionScheduler {
    const cache: PagedKVCache
    const maxBatch: int
    var active: seq<int>

    constructor (cache: PagedKVCache, maxBatch: int)
      ensures this.cache == cache && this.maxBatch == maxBatch && active == []
    {
      this.cache, this.maxBatch := cache, maxBatch;
      active := [];
    }

    /** At most maxBatch different sequences are active. */
    ghost predicate Valid()
      reads this
    {
      NoDuplicates(active) && (active != [] ==> |active| <= maxBatch)
    }

    method AddSequence(s: int) returns (st: Status)
      requires Valid()
      modifies this
      ensures Valid()
      ensures st.Success? <==>
                maxBatch > 0 && s >= 0 && Entry(cache.State(), s).length > 0 &&
                (s in old(active) || |old(active)| < maxBatch)
      ensures active == if st.Success? && s !in old(active) then old(active) + [s] else old(active)
    {
      if maxBatch <= 0 {
        return Failure(InvalidArgument);
      }
      if s < 0 {
        return Failure(InvalidArgument);
      }
      if !cache.HasSequence(s) || cache.SequenceLength(s) <= 0 {
        return Failure(NotFound);
      }
      if s in active {
        return Success;
      }
      if |active| >= maxBatch {
        return Failure(OutOfRange);
      }
      active := active + [s];
      return Success;
    }

    method RemoveSequence(s: int)
      requires Valid()
      modifies this
      ensures Valid() && s !in active
      ensures forall t :: t != s ==> (t in active <==> t in old(active))
    {
      var i := 0;
      while i < |active| && active[i] != s
        invariant 0 <= i <= |active| && s !in active[..i]
      {
        i := i + 1;
      }
      if i < |active| {
        assert active == active[..i] + [s] + active[i + 1..];
        active := active[..i] + active[i + 1..];
      }
    }

    /** The measuring loop of build_batch. */
    method Measure() returns (r: Result<(seq<nat>, nat), ErrorCode>)
      requires cache.Valid() && cache.blockSize > 0
      ensures r.Ok? <==> AllPresent(cache.State(), active)
      ensures r.Ok? ==> Measured(cache.State(), active, r.value.0, r.value.1)
      ensures r.Err? ==> r.error == NotFound
    {
      var lengths: seq<nat>, widest: nat := [], 0;
      for b := 0 to |active|
        invariant Measured(cache.State(), active[..b], lengths, widest)
      {
        var s := active[b];
        var length := cache.SequenceLength(s);
        if s < 0 || s >= |cache.sequences| || length <= 0 {
          NotPresent(cache.State(), active, b);
          return Err(NotFound);
        }
        // The length never exceeds the capacity, so the table is long enough here.
        MeasuredNext(cache.State(), active[..b], lengths, widest, s);
        assert active[..b + 1] == active[..b] + [s];
        var needed := CeilDiv(length, cache.blockSize);
        lengths := lengths + [length];
        widest := if widest >= needed then widest else needed;
      }
      assert active[..|active|] == active;
      return Ok((lengths, widest));
    }

    /** The batch is built exactly when there are active sequences and each has tokens in the cache. */
    method BuildBatch() returns (r: Result<Batch, ErrorCode>)
      requires Valid() && cache.Valid()
      ensures r.Ok? <==> active != [] && AllPresent(cache.State(), active)
      ensures r.Ok? ==> Describes(r.value, cache.State(), active)
      ensures r.Err? ==> r.error == if active == [] then InvalidArgument else NotFound
    {
      if active == [] {
        return Err(InvalidArgument);
      }
      if cache.blockSize == 0 {
        // An uninitialized cache holds no sequence, so the measuring loop would stop at the first id.
        NotPresent(cache.State(), active, 0);
        return Err(NotFound);
      }
      var measured := Measure();
      if measured.Err? {
        return Err(measured.error);
      }
      var (lengths, stride) := measured.value;
      var tables := FillTables(lengths, stride);
      return Ok(Batch(active, lengths, tables, |active|, stride, cache.blockSize, cache.heads, cache.headDim));
    }

    /** The filling loop of build_batch. */
    method FillTables(lengths: seq<nat>, stride: nat) returns (tables: seq<int>)
      requires cache.Valid() && cache.blockSize > 0 && Measured(cache.State(), active, lengths, stride)
      ensures |tables| == |active| * stride
      ensures |lengths| == |active| && RowsPadded(tables, cache.State(), active, lengths, stride, |active|)
    {
      var n := |active|;
      Monotone(0, n, stride);
      tables := seq(n * stride, _ => -1);
      for b := 0 to n
        invariant RowsBlank(tables, stride, b, n)
        invariant RowsPadded(tables, cache.State(), active, lengths, stride, b)
      {
        RowInBuffer(b, n, stride);
        var needed := CeilDiv(lengths[b], cache.blockSize);
        var filled := FillRow(tables, b, stride, cache.sequences[active[b]].blocks, needed);
        PaddedNext(tables, filled, cache.State(), active, lengths, stride, b);
        BlankNext(tables, filled, stride, b, n);
        tables := filled;
      }
    }
  }
}
