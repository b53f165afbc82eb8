/** One forward pass over the paged cache: every layer writes the same positions. */
module ForwardPassSpec {
  import opened Arithmetic
  import opened AttentionSpec
  import opened PagedAttentionSpec
  import opened PagedCacheSpec
  import opened RealVectorSpec
  import opened TokenAttentionSpec

  /** The nodes of a pass that touch positions or the cache; the rows are whatever the earlier nodes computed. */
  datatype PassNode =
    | Rope
    | Attention(layer: int, q: seq<Row>, k: seq<Row>, v: seq<Row>)
    | Other(ok: bool)

  /** What a node reported: the base position it used and, for attention, its output rows. */
  datatype Report = Report(base: int, output: seq<Row>)

  /** Rows start..start+|k|-1 of one sequence and layer hold the given keys and values. */
  ghost predicate HoldsTokens(rows: Rows, s: nat, l: nat, start: nat, k: seq<Row>, v: seq<Row>)
    requires |k| == |v|
  {
    forall t: nat :: t < |k| ==> HoldsAt(rows, s, l, start, t, k[t], v[t])
  }

  ghost predicate HoldsAt(rows: Rows, s: nat, l: nat, start: nat, t: nat, k: Row, v: Row) {
    (s, l, start + t) in rows && rows[(s, l, start + t)] == (k, v)
  }

  /** Only rows start..start+n-1 of one sequence and layer may have changed, and none were lost. */
  ghost predicate OnlyRows(rows: Rows, rows': Rows, s: nat, l: nat, start: nat, n: nat) {
    forall key: (nat, nat, nat) ::
      && (key in rows ==> key in rows')
      && (key in rows' && !InRange(key, s, l, start, n) ==> key in rows && rows'[key] == rows[key])
  }

  /** Only rows start..start+n-1 of one sequence, in any layer, may have changed, and none were lost. */
  ghost predicate OnlyPositions(rows: Rows, rows': Rows, s: int, start: nat, n: nat) {
    forall key: (nat, nat, nat) ::
      && (key in rows ==> key in rows')
      && (key in rows' && !(key.0 == s && start <= key.2 < start + n) ==> key in rows && rows'[key] == rows[key])
  }

  /** How many blocks s has or could still get. */
  function Supply(c: Cache, s: int): nat {
    |Entry(c, s).blocks| + |c.free|
  }

  /** Every sequence but s keeps its table and length, and s has only taken free blocks. */
  ghost predicate OthersSame(c: Cache, c': Cache, s: int) {
    && SameShape(c, c') && |c'.layers| == |c.layers| && (forall t: nat :: t != s ==> Entry(c', t) == Entry(c, t))
    && Supply(c', s) == Supply(c, s) && Entry(c, s).blocks <= Entry(c', s).blocks
  }

  /** What a chunk at base may have changed, whether or not all of it was written: rows of its positions in this
      sequence, the length up to the chunk's end, and free blocks that the sequence has taken. */
  ghost predicate Confined(c: Cache, c': Cache, rows: Rows, rows': Rows, s: int, base: nat, len: nat) {
    && OthersSame(c, c', s) && OnlyPositions(rows, rows', s, base, len)
    && Entry(c, s).length <= Entry(c', s).length <= TotalOf(c, s, base, len)
  }

  /** The position at which a pass starts: one that was kept, or else the length of its sequence. */
  function BaseOf(c: Cache, s: int, kept: int): nat {
    if kept >= 0 then kept else Entry(c, s).length
  }

  /** The length of the sequence once the chunk is written; an empty chunk writes nothing. */
  function TotalOf(c: Cache, s: int, base: nat, len: nat): nat {
    if len == 0 then Entry(c, s).length else Max(Entry(c, s).length, base + len)
  }

  /** The blocks of the sequence once the chunk is written. */
  function BlocksOf(c: Cache, s: int, base: nat, len: nat): nat {
    if len == 0 then |Entry(c, s).blocks| else BlocksFor(c, s, base + len)
  }

  /** How many rows token t sees: a single token all that the sequence holds, a token of a longer chunk those up to its
      own. */
  function RowsSeen(len: nat, base: nat, t: nat, total: nat): nat {
    if len == 1 then total else base + t + 1
  }

  /** Every token of the chunk attends to the rows of its layer that it sees. */
  ghost predicate ChunkOutput(o: seq<Row>, e: real -> real, q: seq<Row>, rows: Rows, s: nat, l: nat, base: nat,
                              total: nat, p: Shape) {
    |o| == |q| && forall t: nat :: t < |q| ==> OutputAt(o[t], e, q[t], rows, s, l, RowsSeen(|q|, base, t, total), p)
  }

  ghost predicate OutputAt(o: Row, e: real -> real, q: Row, rows: Rows, s: nat, l: nat, n: nat, p: Shape) {
    WrittenUpTo(rows, s, l, n) ==> TokenAttends(o, e, q, KeysUpTo(rows, s, l, n), ValuesUpTo(rows, s, l, n), p)
  }

  ghost predicate NodeFits(node: PassNode, len: nat, p: Shape) {
    node.Attention? ==>
      && |node.q| == |node.k| == |node.v| == len
      && AllOfSize(node.q, QSize(p)) && AllOfSize(node.k, KvSize(p)) && AllOfSize(node.v, KvSize(p))
  }

  ghost predicate HasAttention(nodes: seq<PassNode>) {
    exists i :: 0 <= i < |nodes| && nodes[i].Attention?
  }

  /** No two attention nodes of the pass share a layer. */
  ghost predicate LayersDiffer(nodes: seq<PassNode>) {
    forall i, j :: 0 <= i < j < |nodes| && nodes[i].Attention? && nodes[j].Attention? ==>
      nodes[i].layer != nodes[j].layer
  }

  // ---------------------------------------------------------------- the chunk loops

  /** Entry h * len + t of the output buffer is head h of token t over the rows that token sees. */
  ghost predicate ChunkRowAt(out: seq<Row>, e: real -> real, qb: seq<Row>, rows: Rows, s: nat, l: nat, h: nat, t: nat,
                             len: nat, base: nat, total: nat, p: Shape) {
    && p.group > 0 && h * len + t < |out| && h * len + t < |qb|
    && var n := RowsSeen(len, base, t, total);
       WrittenUpTo(rows, s, l, n) ==> AttendsRows(out[h * len + t], e, qb[h * len + t], rows, s, l, n, h / p.group,
                                                  p.scale)
  }

  ghost predicate ChunkRows(out: seq<Row>, e: real -> real, qb: seq<Row>, rows: Rows, s: nat, l: nat, heads: nat,
                            rest: nat, len: nat, base: nat, total: nat, p: Shape) {
    && |out| == heads * len + rest && AllOfSize(out, p.n)
    && forall h: nat, t: nat :: t < len && (h < heads || (h == heads && t < rest)) ==>
         ChunkRowAt(out, e, qb, rows, s, l, h, t, len, base, total, p)
  }

  // ---------------------------------------------------------------- a pass in progress

  /** After the given nodes have run: one base position for all of them, and every layer's tokens at that position. */
  ghost predicate InPass(nodes: seq<PassNode>, reports: seq<Report>, kept: int, writePos: int, c0: Cache, c: Cache,
                         rows0: Rows, rows: Rows, s: int, len: nat, e: real -> real, p: Shape) {
    && writePos == (if HasAttention(nodes) then BaseOf(c0, s, kept) else kept)
    && OthersSame(c0, c, s)
    && PassDone(nodes, reports, kept, c0, c, rows0, rows, s, len, e, p)
  }

  /** What the nodes of a pass leave: one base position for every node, the length covering the chunk once however many
      layers there are, no row outside the chunk's positions of this sequence touched, and every layer's tokens written
      and attended. */
  ghost predicate PassDone(nodes: seq<PassNode>, reports: seq<Report>, kept: int, c0: Cache, c: Cache, rows0: Rows,
                           rows: Rows, s: int, len: nat, e: real -> real, p: Shape) {
    var base := BaseOf(c0, s, kept);
    && |reports| == |nodes|
    && Entry(c, s).length == (if HasAttention(nodes) then TotalOf(c0, s, base, len) else Entry(c0, s).length)
    && |Entry(c, s).blocks| == (if HasAttention(nodes) then BlocksOf(c0, s, base, len) else |Entry(c0, s).blocks|)
    && OnlyPositions(rows0, rows, s, base, len)
    && (forall i :: 0 <= i < |nodes| && !nodes[i].Other? ==> reports[i].base == base)
    && (LayersDiffer(nodes) ==>
          forall i :: 0 <= i < |nodes| ==>
            NodeDone(nodes[i], reports[i], e, rows, s, base, TotalOf(c0, s, base, len), p))
  }

  /** An attention node's tokens are in its layer, and its outputs attend to the rows they see; an empty chunk has
      none. */
  ghost predicate NodeDone(node: PassNode, report: Report, e: real -> real, rows: Rows, s: int, base: nat, total: nat,
                           p: Shape) {
    node.Attention? ==>
      && |node.q| == |node.k| == |node.v| == |report.output|
      && (node.k != [] ==>
            && s >= 0 && node.layer >= 0
            && HoldsTokens(rows, s, node.layer, base, node.k, node.v)
            && ChunkOutput(report.output, e, node.q, rows, s, node.layer, base, total, p))
  }

  // ---------------------------------------------------------------- when a pass succeeds

  /** A node can do its work: nothing else fails in it, and an attention node has nothing to write, or an existing layer
      and room for the chunk. */
  predicate NodeFine(node: PassNode, c: Cache, s: int, base: nat, len: nat) {
    match node
    case Rope => true
    case Other(ok) => ok
    case Attention(l, _, _, _) => len == 0 || (0 <= l < |c.layers| && ReserveStatus(c, s, base + len).Success?)
  }

  ghost predicate PassFits(nodes: seq<PassNode>, c: Cache, s: int, base: nat, len: nat) {
    forall i :: 0 <= i < |nodes| ==> NodeFine(nodes[i], c, s, base, len)
  }

  /** Node n was the first that failed: the write position is kept if an attention node had begun, and otherwise as
      before. */
  ghost predicate PassStopped(nodes: seq<PassNode>, n: nat, kept: int, writePos: int, c0: Cache, s: int, len: nat) {
    var base := BaseOf(c0, s, kept);
    && n < |nodes| && PassFits(nodes[..n], c0, s, base, len) && !NodeFine(nodes[n], c0, s, base, len)
    && writePos == if HasAttention(nodes[..n + 1]) then base else kept
  }

  /** As many nodes as there are reports have done their work. */
  ghost predicate NodesSoFar(nodes: seq<PassNode>, reports: seq<Report>, kept: int, writePos: int, c0: Cache, c: Cache,
                             rows0: Rows, rows: Rows, s: int, len: nat, e: real -> real, p: Shape) {
    && |reports| <= |nodes| && PassFits(nodes[..|reports|], c0, s, BaseOf(c0, s, kept), len)
    && InPass(nodes[..|reports|], reports, kept, writePos, c0, c, rows0, rows, s, len, e, p)
  }

  /** What running the nodes leaves: all were done exactly when all could do their work, and otherwise the first that
      could not stopped the pass; either way nothing outside the chunk changed. */
  ghost predicate NodesRun(ok: bool, nodes: seq<PassNode>, reports: seq<Report>, kept: int, writePos: int, c0: Cache,
                           c: Cache, rows0: Rows, rows: Rows, s: int, len: nat, e: real -> real, p: Shape) {
    && Confined(c0, c, rows0, rows, s, BaseOf(c0, s, kept), len)
    && (ok <==> PassFits(nodes, c0, s, BaseOf(c0, s, kept), len))
    && (ok ==> PassDone(nodes, reports, kept, c0, c, rows0, rows, s, len, e, p))
    && (!ok ==> PassStopped(nodes, |reports|, kept, writePos, c0, s, len))
  }
}

module ForwardPasses {
  import opened Arithmetic
  import opened AttentionKernels
  import opened AttentionSpec
  import opened ForwardPassSpec
  import opened KVCaches
  import opened PagedAttention
  import opened PagedAttentionSpec
  import opened PagedCacheProofs
  import opened PagedCacheSpec
  import opened PagedKVCaches
  import opened RealVectorSpec
  import opened TokenAttention
  import opened TokenAttentionSpec
  import opened Wrappers

  // ---------------------------------------------------------------- one written row at a time

  lemma WriteKeepsOthers(c: Cache, c': Cache, s: int, l: int, start: int, count: int)
    requires Good(c) && AfterWrite(c, c', s, l, start, count)
    ensures s >= 0 ==> OthersSame(c, c', s)
    ensures s < 0 ==> c' == c
    ensures s >= 0 && WriteStatus(c, s, l, start, count).Success? && count > 0 ==>
              Entry(c', s).length == Max(Entry(c, s).length, start + count)
    ensures s >= 0 && WriteStatus(c, s, l, start, count).Success? && count > 0 ==>
              |Entry(c', s).blocks| == BlocksFor(c, s, start + count)
    ensures s >= 0 && !(WriteStatus(c, s, l, start, count).Success? && count > 0) ==>
              Entry(c', s).length == Entry(c, s).length
  {
    if start >= 0 && count > 0 && 0 <= l < |c.layers| {
      ReserveGood(c, s, start + count);
      if s >= 0 {
        ReserveBlocks(c, s, start + count);
        assert Entry(AfterReserve(c, s, start + count), s).length == Entry(c, s).length;
        ReserveSupply(c, s, start + count);
      }
    }
  }

  /** Reserving takes exactly the missing blocks. */
  lemma ReserveBlocks(c: Cache, s: nat, total: nat)
    requires Good(c)
    ensures ReserveStatus(c, s, total).Success? ==>
              |Entry(AfterReserve(c, s, total), s).blocks| == BlocksFor(c, s, total)
  {
    if ReserveStatus(c, s, total).Success? {
      ExtendedGood(c, s);
      assert Entry(Extended(c, s), s) == Entry(c, s);
      TakeGood(Extended(c, s), s, Missing(c, s, total));
    }
  }

  lemma NeededMonotone(a: nat, b: nat, size: nat)
    requires a <= b && size > 0
    ensures BlocksNeeded(a, size) <= BlocksNeeded(b, size)
  {
    CeilCovers(b, size, BlocksNeeded(b, size));
    CeilCovers(a, size, BlocksNeeded(b, size));
  }

  /** Room for a and then for b is room for b. */
  lemma BlocksForTwice(c0: Cache, c: Cache, s: int, a: nat, b: nat)
    requires a <= b && c.blockSize == c0.blockSize
    requires |Entry(c, s).blocks| == |Entry(c0, s).blocks| || |Entry(c, s).blocks| == BlocksFor(c0, s, a)
    ensures BlocksFor(c, s, b) == BlocksFor(c0, s, b)
  {
    if c.blockSize > 0 {
      NeededMonotone(a, b, c.blockSize);
    }
  }

  /** Reserving only moves blocks from the free list to the sequence. */
  lemma ReserveSupply(c: Cache, s: nat, total: int)
    requires Good(c)
    ensures Supply(AfterReserve(c, s, total), s) == Supply(c, s)
  {
    if ReserveStatus(c, s, total).Success? {
      ExtendedGood(c, s);
      assert Entry(Extended(c, s), s) == Entry(c, s);
      TakeGood(Extended(c, s), s, Missing(c, s, total));
    }
  }

  /** Whether room can be had is a matter of the sequence's own and the free blocks alone. */
  lemma SupplyDecides(c: Cache, s: nat, total: nat)
    requires Initialized(c)
    ensures ReserveStatus(c, s, total).Success? <==> total <= Supply(c, s) * c.blockSize
  {
    CeilCovers(total, c.blockSize, Supply(c, s));
  }

  /** With the same supply, less room is had when more is. */
  lemma SupplyKept(c: Cache, c': Cache, s: nat, total: nat, total': nat)
    requires Initialized(c) && OthersSame(c, c', s) && total' <= total
    ensures ReserveStatus(c, s, total).Success? ==> ReserveStatus(c', s, total').Success?
    ensures total' == total ==> (ReserveStatus(c, s, total).Success? <==> ReserveStatus(c', s, total).Success?)
  {
    SupplyDecides(c, s, total);
    SupplyDecides(c', s, total');
  }


  lemma OneRowWritten(rows: Rows, rows': Rows, rows'': Rows, s: nat, l: nat, start: nat, t: nat, k: seq<Row>,
                      v: seq<Row>, h: nat)
    requires t < |k| == |v| && |k[t]| == |v[t]| == h
    requires OnlyRows(rows, rows', s, l, start, |k|) && HoldsTokens(rows', s, l, start, k[..t], v[..t])
    requires WrittenRows(rows', rows'', s, l, start + t, 1, k[t], v[t], h)
    ensures HoldsTokens(rows'', s, l, start, k[..t + 1], v[..t + 1]) && OnlyRows(rows, rows'', s, l, start, |k|)
  {
    assert WrittenAt(rows'', s, l, start + t, 0, k[t], v[t], h);
    assert RowOf(k[t], 0, h) == k[t] && RowOf(v[t], 0, h) == v[t];
    var k', v' := k[..t + 1], v[..t + 1];
    forall u: nat | u < t + 1 ensures HoldsAt(rows'', s, l, start, u, k'[u], v'[u]) {
      if u < t {
        assert HoldsAt(rows', s, l, start, u, k[..t][u], v[..t][u]);
        assert !InRange((s, l, start + u), s, l, start + t, 1);
      }
    }
  }

  // ---------------------------------------------------------------- the chunk path

  lemma ChunkNext(out: seq<Row>, row: Row, e: real -> real, qb: seq<Row>, rows: Rows, s: nat, l: nat, h: nat, t: nat,
                  len: nat, base: nat, total: nat, p: Shape)
    requires ChunkRows(out, e, qb, rows, s, l, h, t, len, base, total, p) && t < len && |row| == p.n && p.group > 0
    requires h * len + t < |qb|
    requires WrittenUpTo(rows, s, l, RowsSeen(len, base, t, total)) ==>
               AttendsRows(row, e, qb[h * len + t], rows, s, l, RowsSeen(len, base, t, total), h / p.group, p.scale)
    ensures ChunkRows(out + [row], e, qb, rows, s, l, h, t + 1, len, base, total, p)
  {
    forall h': nat, t': nat | t' < len && (h' < h || (h' == h && t' < t + 1))
      ensures ChunkRowAt(out + [row], e, qb, rows, s, l, h', t', len, base, total, p)
    {
      if h' < h || t' < t {
        assert ChunkRowAt(out, e, qb, rows, s, l, h', t', len, base, total, p);
      }
    }
  }

  lemma ChunkHeadDone(out: seq<Row>, e: real -> real, qb: seq<Row>, rows: Rows, s: nat, l: nat, h: nat, len: nat,
                      base: nat, total: nat, p: Shape)
    requires ChunkRows(out, e, qb, rows, s, l, h, len, len, base, total, p)
    ensures ChunkRows(out, e, qb, rows, s, l, h + 1, 0, len, base, total, p)
  {
    assert (h + 1) * len + 0 == h * len + len;
  }

  /** One score row of the chunk loops: the query sees only rows up to its own position. */
  method ChunkRow(cache: PagedKVCache, s: nat, l: nat, q: Row, base: nat, h: nat, qs: nat, len: nat, ghost total: nat,
                  e: real -> real, p: Shape, lowest: real)
    returns (row: Row)
    requires cache.Valid() && IsExp(e) && GoodShape(p) && cache.heads == p.kvHeads && cache.headDim == p.n && |q| == p.n
    requires l < |cache.layers| && base + len <= Entry(cache.State(), s).length && h < p.heads && qs < len && len != 1
    ensures |row| == p.n
    ensures WrittenUpTo(cache.rows, s, l, RowsSeen(len, base, qs, total)) ==>
              AttendsRows(row, e, q, cache.rows, s, l, RowsSeen(len, base, qs, total), h / p.group, p.scale)
  {
    GroupedHead(h, p.heads, p.kvHeads, p.group);
    var r := PagedHead(cache, s, l, q, base + qs + 1, h / p.group, e, p.scale, lowest);
    row := r.value;
  }

  /** The loops over heads and chunk positions. */
  method AttendChunkPaged(cache: PagedKVCache, s: nat, l: nat, qb: seq<Row>, len: nat, base: nat, ghost total: nat,
                          e: real -> real, p: Shape, lowest: real)
    returns (out: seq<Row>)
    requires cache.Valid() && IsExp(e) && GoodShape(p) && cache.heads == p.kvHeads && cache.headDim == p.n
    requires |qb| == p.heads * len && AllOfSize(qb, p.n) && len != 1
    requires l < |cache.layers| && base + len <= Entry(cache.State(), s).length
    ensures ChunkRows(out, e, qb, cache.rows, s, l, p.heads, 0, len, base, total, p)
  {
    out := [];
    for h := 0 to p.heads
      invariant ChunkRows(out, e, qb, cache.rows, s, l, h, 0, len, base, total, p)
    {
      for qs := 0 to len
        invariant ChunkRows(out, e, qb, cache.rows, s, l, h, qs, len, base, total, p)
      {
        SlotBelow(h, len, qs, p.heads);
        var row := ChunkRow(cache, s, l, qb[h * len + qs], base, h, qs, len, total, e, p, lowest);
        ChunkNext(out, row, e, qb, cache.rows, s, l, h, qs, len, base, total, p);
        out := out + [row];
      }
      ChunkHeadDone(out, e, qb, cache.rows, s, l, h, len, base, total, p);
    }
  }

  lemma ChunkToken(o: Row, out: seq<Row>, e: real -> real, q: seq<Row>, qb: seq<Row>, rows: Rows, s: nat, l: nat,
                   t: nat, base: nat, total: nat, p: Shape)
    requires GoodShape(p) && t < |q| && AllOfSize(q, QSize(p)) && Interleaved(qb, q, |q|, 0, p.heads, 1, p.n)
    requires ChunkRows(out, e, qb, rows, s, l, p.heads, 0, |q|, base, total, p) && TokenOf(o, out, t, p.heads, |q|, p.n)
    ensures OutputAt(o, e, q[t], rows, s, l, RowsSeen(|q|, base, t, total), p)
  {
    var n := RowsSeen(|q|, base, t, total);
    if WrittenUpTo(rows, s, l, n) {
      var k, v := KeysUpTo(rows, s, l, n), ValuesUpTo(rows, s, l, n);
      forall h: nat | h < p.heads ensures HeadAttends(o, e, q[t], k, v, h, p) {
        assert TokenOfAt(o, out, t, h, |q|, p.n);
        assert ChunkRowAt(out, e, qb, rows, s, l, h, t, |q|, base, total, p);
        assert InterleavedAt(qb, q, t, h, 1, p.n);
        HeadFitsBelow(h, p.heads, p.n);
      }
    }
  }

  /** A single query is a chunk of one. */
  lemma DecodeIsChunk(out: seq<Row>, e: real -> real, qb: seq<Row>, rows: Rows, s: nat, l: nat, base: nat, total: nat,
                      p: Shape)
    requires GoodShape(p) && |out| == |qb| == p.heads && AllOfSize(out, p.n)
    requires WrittenUpTo(rows, s, l, total) ==> HeadsAttend(out, e, qb, rows, s, l, total, p.group, p.scale)
    ensures ChunkRows(out, e, qb, rows, s, l, p.heads, 0, 1, base, total, p)
  {
    forall h: nat, t: nat | t < 1 && (h < p.heads || (h == p.heads && t < 0))
      ensures ChunkRowAt(out, e, qb, rows, s, l, h, t, 1, base, total, p)
    {
      DecodeEntry(out, e, qb, rows, s, l, h, base, total, p);
    }
  }

  lemma DecodeEntry(out: seq<Row>, e: real -> real, qb: seq<Row>, rows: Rows, s: nat, l: nat, h: nat, base: nat,
                    total: nat, p: Shape)
    requires GoodShape(p) && |out| == |qb| == p.heads && h < p.heads
    requires WrittenUpTo(rows, s, l, total) ==> HeadsAttend(out, e, qb, rows, s, l, total, p.group, p.scale)
    ensures ChunkRowAt(out, e, qb, rows, s, l, h, 0, 1, base, total, p)
  {
    if WrittenUpTo(rows, s, l, total) {
      HeadOfAll(out, e, qb, rows, s, l, total, h, p);
    }
  }

  lemma HeadOfAll(out: seq<Row>, e: real -> real, qb: seq<Row>, rows: Rows, s: nat, l: nat, n: nat, h: nat, p: Shape)
    requires h < |out| && HeadsAttend(out, e, qb, rows, s, l, n, p.group, p.scale)
    ensures h < |qb| && AttendsRows(out[h], e, qb[h], rows, s, l, n, h / p.group, p.scale)
  {
  }

  /** The decode branch: one query over everything the sequence holds. */
  method DecodeBuffer(cache: PagedKVCache, s: nat, l: nat, qb: seq<Row>, ghost base: nat, e: real -> real, p: Shape,
                      lowest: real)
    returns (out: seq<Row>)
    requires cache.Valid() && Initialized(cache.State()) && IsExp(e) && GoodShape(p)
    requires p.kvHeads == cache.heads && p.n == cache.headDim && p.heads > 0
    requires |qb| == p.heads && AllOfSize(qb, p.n) && l < |cache.layers| && Entry(cache.State(), s).length > 0
    ensures |out| == p.heads && AllOfSize(out, p.n)
    ensures ChunkRows(out, e, qb, cache.rows, s, l, p.heads, 0, 1, base, Entry(cache.State(), s).length, p)
  {
    HeadsShape(p);
    var decoded := PagedDecode(cache, s, l, qb, p.heads, p.n, e, p.scale, lowest);
    out := decoded.value;
    DecodeIsChunk(out, e, qb, cache.rows, s, l, base, Entry(cache.State(), s).length, p);
  }

  /** A single query uses the decode kernel, a longer chunk the loops. */
  method AttendBuffer(cache: PagedKVCache, s: nat, l: nat, qb: seq<Row>, len: nat, base: nat, e: real -> real, p: Shape,
                      lowest: real)
    returns (out: seq<Row>)
    requires cache.Valid() && Initialized(cache.State()) && IsExp(e) && GoodShape(p)
    requires p.kvHeads == cache.heads && p.n == cache.headDim && p.heads > 0
    requires len > 0 && |qb| == p.heads * len && AllOfSize(qb, p.n)
    requires l < |cache.layers| && base + len <= Entry(cache.State(), s).length
    ensures |out| == p.heads * len && AllOfSize(out, p.n)
    ensures ChunkRows(out, e, qb, cache.rows, s, l, p.heads, 0, len, base, Entry(cache.State(), s).length, p)
  {
    if len == 1 {
      out := DecodeBuffer(cache, s, l, qb, base, e, p, lowest);
    } else {
      out := AttendChunkPaged(cache, s, l, qb, len, base, Entry(cache.State(), s).length, e, p, lowest);
    }
  }

  /** Reading back: interleave the queries, attend, and bring the tokens back. */
  method AttendPaged(cache: PagedKVCache, s: nat, l: nat, q: seq<Row>, base: nat, e: real -> real, p: Shape,
                     lowest: real)
    returns (o: seq<Row>)
    requires cache.Valid() && Initialized(cache.State()) && IsExp(e) && GoodShape(p)
    requires p.kvHeads == cache.heads && p.n == cache.headDim && p.heads > 0
    requires |q| > 0 && AllOfSize(q, QSize(p)) && l < |cache.layers| && base + |q| <= Entry(cache.State(), s).length
    ensures ChunkOutput(o, e, q, cache.rows, s, l, base, Entry(cache.State(), s).length, p)
  {
    var qb := Interleave(q, p.heads, p.heads, 1, p.n);
    var out := AttendBuffer(cache, s, l, qb, |q|, base, e, p, lowest);
    o := TokensFrom(cache.rows, s, l, q, qb, out, base, Entry(cache.State(), s).length, e, p);
  }

  /** The output copy loops. */
  method TokensFrom(ghost rows: Rows, ghost s: nat, ghost l: nat, q: seq<Row>, ghost qb: seq<Row>, out: seq<Row>,
                    ghost base: nat, ghost total: nat, ghost e: real -> real, p: Shape)
    returns (o: seq<Row>)
    requires GoodShape(p) && AllOfSize(q, QSize(p)) && Interleaved(qb, q, |q|, 0, p.heads, 1, p.n)
    requires ChunkRows(out, e, qb, rows, s, l, p.heads, 0, |q|, base, total, p)
    ensures ChunkOutput(o, e, q, rows, s, l, base, total, p)
  {
    o := [];
    for t := 0 to |q|
      invariant |o| == t
      invariant forall u: nat :: u < t ==> OutputAt(o[u], e, q[u], rows, s, l, RowsSeen(|q|, base, u, total), p)
    {
      var row := TokenFrom(out, t, p.heads, |q|, p.n);
      ChunkToken(row, out, e, q, qb, rows, s, l, t, base, total, p);
      o := o + [row];
    }
  }

  lemma HeadsShape(p: Shape)
    requires GoodShape(p) && p.heads > 0
    ensures p.kvHeads > 0 && p.heads % p.kvHeads == 0 && p.heads / p.kvHeads == p.group
  {
    MultipleMod(p.group, p.kvHeads);
    MultipleDiv(p.group, p.kvHeads);
  }

  // ---------------------------------------------------------------- writing a chunk

  lemma OthersSameTwice(c: Cache, d: Cache, e: Cache, s: int)
    requires OthersSame(c, d, s) && OthersSame(d, e, s)
    ensures OthersSame(c, e, s)
  {
    forall t: nat | t != s ensures Entry(e, t) == Entry(c, t) {
      assert Entry(d, t) == Entry(c, t);
    }
  }

  /** Whether the write of a chunk has gone well for its first t rows. */
  ghost predicate Writing(c0: Cache, c: Cache, rows0: Rows, rows: Rows, s: nat, l: nat, start: nat, t: nat, k: seq<Row>,
                          v: seq<Row>)
    requires t <= |k| == |v|
  {
    && OthersSame(c0, c, s) && OnlyRows(rows0, rows, s, l, start, |k|)
    && HoldsTokens(rows, s, l, start, k[..t], v[..t])
    && Entry(c, s).length == (if t == 0 then Entry(c0, s).length else Max(Entry(c0, s).length, start + t))
    && |Entry(c, s).blocks| == (if t == 0 then |Entry(c0, s).blocks| else BlocksFor(c0, s, start + t))
  }

  lemma WritingNext(c0: Cache, c: Cache, c': Cache, rows0: Rows, rows: Rows, rows': Rows, s: nat, l: nat, start: nat,
                    t: nat, k: seq<Row>, v: seq<Row>)
    requires t < |k| == |v| && Writing(c0, c, rows0, rows, s, l, start, t, k, v) && Good(c)
    requires AfterWrite(c, c', s, l, start + t, 1) && WriteStatus(c, s, l, start + t, 1).Success?
    requires |k[t]| == |v[t]| == KvHidden(c)
    requires WrittenRows(rows, rows', s, l, start + t, 1, k[t], v[t], KvHidden(c))
    ensures Writing(c0, c', rows0, rows', s, l, start, t + 1, k, v)
  {
    WriteKeepsOthers(c, c', s, l, start + t, 1);
    OthersSameTwice(c0, c, c', s);
    BlocksForTwice(c0, c, s, start + t, start + t + 1);
    OneRowWritten(rows0, rows, rows', s, l, start, t, k, v, KvHidden(c));
  }

  lemma WritingFailed(c0: Cache, c: Cache, c': Cache, rows0: Rows, rows: Rows, s: nat, l: nat, start: nat, t: nat,
                      k: seq<Row>, v: seq<Row>)
    requires t < |k| == |v| && Writing(c0, c, rows0, rows, s, l, start, t, k, v) && Good(c)
    requires AfterWrite(c, c', s, l, start + t, 1) && WriteStatus(c, s, l, start + t, 1).Failure?
    ensures OthersSame(c0, c', s) && Entry(c', s).length == Entry(c, s).length
  {
    WriteKeepsOthers(c, c', s, l, start + t, 1);
    OthersSameTwice(c0, c, c', s);
  }

  /** One turn of the write loop. */
  method WriteOneToken(cache: PagedKVCache, s: nat, l: nat, start: nat, t: nat, k: seq<Row>, v: seq<Row>,
                       ghost c0: Cache, ghost rows0: Rows)
    returns (st: Status)
    requires cache.Valid() && t < |k| == |v| && Writing(c0, cache.State(), rows0, cache.rows, s, l, start, t, k, v)
    requires |k[t]| == |v[t]| == KvHidden(cache.State())
    modifies cache
    ensures cache.Valid() && st == WriteStatus(old(cache.State()), s, l, start + t, 1)
    ensures OthersSame(c0, cache.State(), s)
    ensures st.Success? ==> Writing(c0, cache.State(), rows0, cache.rows, s, l, start, t + 1, k, v)
    ensures st.Failure? ==> cache.rows == old(cache.rows) &&
                            Entry(cache.State(), s).length == Entry(old(cache.State()), s).length
  {
    ghost var c, rows := cache.State(), cache.rows;
    assert HoldsRows(k[t], 1, KvHidden(c)) && HoldsRows(v[t], 1, KvHidden(c));
    st := cache.WriteTokens(s, l, start + t, k[t], v[t], 1);
    if st.Failure? {
      WritingFailed(c0, c, cache.State(), rows0, rows, s, l, start, t, k, v);
    } else {
      WritingNext(c0, c, cache.State(), rows0, rows, cache.rows, s, l, start, t, k, v);
    }
  }

  /** Token t of a chunk finds room if the whole chunk does, and for the last token the two are the same. */
  lemma TokenHasRoom(c0: Cache, c: Cache, s: nat, start: nat, t: nat, n: nat)
    requires OthersSame(c0, c, s) && t < n
    ensures ReserveStatus(c0, s, start + n).Success? ==> ReserveStatus(c, s, start + t + 1).Success?
    ensures t + 1 == n ==> (ReserveStatus(c0, s, start + n).Success? <==> ReserveStatus(c, s, start + t + 1).Success?)
  {
    if Initialized(c0) {
      SupplyKept(c0, c, s, start + n, start + t + 1);
    }
  }

  /** The write loop of the attention kernel: one call per token. It succeeds exactly when the whole chunk finds
      room. */
  method WriteChunk(cache: PagedKVCache, s: nat, l: nat, start: nat, k: seq<Row>, v: seq<Row>) returns (st: Status)
    requires cache.Valid() && |k| == |v| > 0
    requires AllOfSize(k, KvHidden(cache.State())) && AllOfSize(v, KvHidden(cache.State()))
    modifies cache
    ensures cache.Valid() && OthersSame(old(cache.State()), cache.State(), s)
    ensures OnlyRows(old(cache.rows), cache.rows, s, l, start, |k|)
    ensures Entry(old(cache.State()), s).length <= Entry(cache.State(), s).length <=
              TotalOf(old(cache.State()), s, start, |k|)
    ensures st.Success? ==> l < |cache.layers| && HoldsTokens(cache.rows, s, l, start, k, v)
                            && Entry(cache.State(), s).length == Max(Entry(old(cache.State()), s).length, start + |k|)
                            && |Entry(cache.State(), s).blocks| == BlocksFor(old(cache.State()), s, start + |k|)
    ensures st.Success? <==> l < |old(cache.layers)| && ReserveStatus(old(cache.State()), s, start + |k|).Success?
  {
    ghost var c0, rows0 := cache.State(), cache.rows;
    for t := 0 to |k|
      invariant cache.Valid() && Writing(c0, cache.State(), rows0, cache.rows, s, l, start, t, k, v)
      invariant t > 0 ==> l < |cache.layers|
      invariant t == |k| ==> ReserveStatus(c0, s, start + |k|).Success?
    {
      TokenHasRoom(c0, cache.State(), s, start, t, |k|);
      st := WriteOneToken(cache, s, l, start, t, k, v, c0, rows0);
      if st.Failure? {
        return st;
      }
    }
    assert k[..|k|] == k && v[..|v|] == v;
    return Success;
  }

  // ---------------------------------------------------------------- the pass

  lemma PositionsFromRows(rows0: Rows, rows: Rows, rows': Rows, s: nat, l: nat, base: nat, n: nat)
    requires OnlyPositions(rows0, rows, s, base, n) && OnlyRows(rows, rows', s, l, base, n)
    ensures OnlyPositions(rows0, rows', s, base, n)
  {
    forall key: (nat, nat, nat)
      ensures key in rows0 ==> key in rows'
      ensures key in rows' && !(key.0 == s && base <= key.2 < base + n) ==> key in rows0 && rows'[key] == rows0[key]
    {
      assert InRange(key, s, l, base, n) ==> key.0 == s && base <= key.2 < base + n;
    }
  }

  lemma OtherLayerStays(rows: Rows, rows': Rows, s: nat, l: nat, l': nat, base: nat, n: nat)
    requires OnlyRows(rows, rows', s, l', base, n) && l != l'
    ensures forall pos: nat :: ((s, l, pos) in rows <==> (s, l, pos) in rows')
                               && ((s, l, pos) in rows ==> rows'[(s, l, pos)] == rows[(s, l, pos)])
  {
    forall pos: nat ensures ((s, l, pos) in rows <==> (s, l, pos) in rows')
                            && ((s, l, pos) in rows ==> rows'[(s, l, pos)] == rows[(s, l, pos)]) {
      assert !InRange((s, l, pos), s, l', base, n);
    }
  }

  /** Writing another layer changes nothing for a node that is done. */
  lemma NodeStays(node: PassNode, report: Report, e: real -> real, rows: Rows, rows': Rows, s: nat, l': nat, base: nat,
                  total: nat, n: nat, p: Shape)
    requires NodeDone(node, report, e, rows, s, base, total, p) && OnlyRows(rows, rows', s, l', base, n)
    requires node.Attention? ==> node.layer != l'
    ensures NodeDone(node, report, e, rows', s, base, total, p)
  {
    if node.Attention? && node.k != [] {
      var l: nat := node.layer;
      OtherLayerStays(rows, rows', s, l, l', base, n);
      forall t: nat | t < |node.k| ensures HoldsAt(rows', s, l, base, t, node.k[t], node.v[t]) {
        assert HoldsAt(rows, s, l, base, t, node.k[t], node.v[t]);
      }
      forall t: nat | t < |node.q|
        ensures OutputAt(report.output[t], e, node.q[t], rows', s, l, RowsSeen(|node.q|, base, t, total), p) {
        OutputStays(report.output[t], e, node.q[t], rows, rows', s, l, RowsSeen(|node.q|, base, t, total), p);
      }
    }
  }

  lemma OutputStays(o: Row, e: real -> real, q: Row, rows: Rows, rows': Rows, s: nat, l: nat, n: nat, p: Shape)
    requires OutputAt(o, e, q, rows, s, l, n, p)
    requires forall pos: nat :: ((s, l, pos) in rows <==> (s, l, pos) in rows')
                                && ((s, l, pos) in rows ==> rows'[(s, l, pos)] == rows[(s, l, pos)])
    ensures OutputAt(o, e, q, rows', s, l, n, p)
  {
    if WrittenUpTo(rows', s, l, n) {
      assert KeysUpTo(rows', s, l, n) == KeysUpTo(rows, s, l, n);
      assert ValuesUpTo(rows', s, l, n) == ValuesUpTo(rows, s, l, n);
    }
  }

  lemma PassStart(nodes: seq<PassNode>, kept: int, c: Cache, rows: Rows, s: int, len: nat, e: real -> real, p: Shape)
    ensures NodesSoFar(nodes, [], kept, kept, c, c, rows, rows, s, len, e, p)
  {
  }

  /** A node without rows reports the base position and changes nothing. */
  lemma PassQuiet(nodes: seq<PassNode>, reports: seq<Report>, kept: int, writePos: int, c0: Cache, c: Cache,
                  rows0: Rows, rows: Rows, s: int, len: nat, e: real -> real, p: Shape, node: PassNode, report: Report)
    requires InPass(nodes, reports, kept, writePos, c0, c, rows0, rows, s, len, e, p) && !node.Attention?
    requires node.Rope? ==> report.base == if writePos >= 0 then writePos else Entry(c, s).length
    ensures InPass(nodes + [node], reports + [report], kept, writePos, c0, c, rows0, rows, s, len, e, p)
  {
    HasAttentionNext(nodes, node);
    LayersDifferNext(nodes, node);
  }

  lemma HasAttentionNext(nodes: seq<PassNode>, node: PassNode)
    ensures HasAttention(nodes + [node]) <==> HasAttention(nodes) || node.Attention?
  {
    var more := nodes + [node];
    assert more[|nodes|] == node;
    if HasAttention(nodes) {
      var i :| 0 <= i < |nodes| && nodes[i].Attention?;
      assert more[i] == nodes[i];
    }
  }

  lemma LayersDifferNext(nodes: seq<PassNode>, node: PassNode)
    ensures LayersDiffer(nodes + [node]) ==>
              && LayersDiffer(nodes)
              && (node.Attention? ==> forall i :: 0 <= i < |nodes| && nodes[i].Attention? ==>
                                        nodes[i].layer != node.layer)
  {
    var more := nodes + [node];
    assert more[|nodes|] == node;
    assert forall i :: 0 <= i < |nodes| ==> more[i] == nodes[i];
  }

  lemma PassNodesDone(nodes: seq<PassNode>, reports: seq<Report>, rows: Rows, rows': Rows, s: nat, len: nat, base: nat,
                      total: nat, e: real -> real, p: Shape, node: PassNode, report: Report)
    requires |reports| == |nodes| && node.Attention? && node.layer >= 0 && LayersDiffer(nodes + [node])
    requires forall i :: 0 <= i < |nodes| ==> NodeDone(nodes[i], reports[i], e, rows, s, base, total, p)
    requires OnlyRows(rows, rows', s, node.layer, base, len) && NodeDone(node, report, e, rows', s, base, total, p)
    ensures forall i :: 0 <= i < |nodes| + 1 ==>
              NodeDone((nodes + [node])[i], (reports + [report])[i], e, rows', s, base, total, p)
  {
    LayersDifferNext(nodes, node);
    forall i | 0 <= i < |nodes| + 1
      ensures NodeDone((nodes + [node])[i], (reports + [report])[i], e, rows', s, base, total, p) {
      if i < |nodes| {
        NodeStays(nodes[i], reports[i], e, rows, rows', s, node.layer, base, total, len, p);
      }
    }
  }

  /** An attention node continues at the base position and leaves every earlier node as it was. */
  lemma PassAttention(nodes: seq<PassNode>, reports: seq<Report>, kept: int, writePos: int, c0: Cache, c: Cache,
                      c': Cache, rows0: Rows, rows: Rows, rows': Rows, s: nat, len: nat, e: real -> real, p: Shape,
                          node: PassNode, report: Report)
    requires InPass(nodes, reports, kept, writePos, c0, c, rows0, rows, s, len, e, p) && node.Attention?
    requires node.layer >= 0 && len > 0
    requires report.base == BaseOf(c0, s, kept) && OthersSame(c, c', s)
    requires OnlyRows(rows, rows', s, node.layer, report.base, len)
    requires Entry(c', s).length == TotalOf(c0, s, report.base, len)
    requires |Entry(c', s).blocks| == BlocksFor(c0, s, report.base + len)
    requires NodeDone(node, report, e, rows', s, report.base, TotalOf(c0, s, report.base, len), p)
    ensures InPass(nodes + [node], reports + [report], kept, report.base, c0, c', rows0, rows', s, len, e, p)
  {
    HasAttentionNext(nodes, node);
    LayersDifferNext(nodes, node);
    OthersSameTwice(c0, c, c', s);
    PositionsFromRows(rows0, rows, rows', s, node.layer, report.base, len);
    if LayersDiffer(nodes + [node]) {
      PassNodesDone(nodes, reports, rows, rows', s, len, report.base, TotalOf(c0, s, report.base, len), e, p, node,
                    report);
    }
  }

  /** An attention node with nothing to write only fixes the write position. */
  lemma PassEmpty(nodes: seq<PassNode>, reports: seq<Report>, kept: int, writePos: int, c0: Cache, c: Cache,
                  rows0: Rows, rows: Rows, s: int, e: real -> real, p: Shape, node: PassNode, report: Report)
    requires InPass(nodes, reports, kept, writePos, c0, c, rows0, rows, s, 0, e, p) && node.Attention?
    requires node.q == node.k == node.v == [] && report == Report(BaseOf(c0, s, kept), [])
    ensures InPass(nodes + [node], reports + [report], kept, report.base, c0, c, rows0, rows, s, 0, e, p)
  {
    HasAttentionNext(nodes, node);
    LayersDifferNext(nodes, node);
  }

  /** In the middle of a pass the next node gets the same base, and the chunk would end at the same length. */
  lemma PassPosition(nodes: seq<PassNode>, reports: seq<Report>, kept: int, writePos: int, c0: Cache, c: Cache,
                     rows0: Rows, rows: Rows, s: int, len: nat, e: real -> real, p: Shape)
    requires InPass(nodes, reports, kept, writePos, c0, c, rows0, rows, s, len, e, p)
    ensures BaseOf(c, s, writePos) == BaseOf(c0, s, kept)
    ensures TotalOf(c, s, BaseOf(c0, s, kept), len) == TotalOf(c0, s, BaseOf(c0, s, kept), len)
    ensures BlocksFor(c, s, BaseOf(c0, s, kept) + len) == BlocksFor(c0, s, BaseOf(c0, s, kept) + len)
    ensures Initialized(c0) ==>
              (ReserveStatus(c, s, BaseOf(c0, s, kept) + len).Success? <==>
                 ReserveStatus(c0, s, BaseOf(c0, s, kept) + len).Success?)
  {
    BlocksForTwice(c0, c, s, BaseOf(c0, s, kept) + len, BaseOf(c0, s, kept) + len);
    if Initialized(c0) && s >= 0 {
      SupplyKept(c0, c, s, BaseOf(c0, s, kept) + len, BaseOf(c0, s, kept) + len);
    }
  }

  lemma FitsNext(nodes: seq<PassNode>, i: nat, c: Cache, s: int, base: nat, len: nat)
    requires i < |nodes|
    ensures nodes[..i + 1] == nodes[..i] + [nodes[i]]
    ensures PassFits(nodes[..i + 1], c, s, base, len) <==>
            PassFits(nodes[..i], c, s, base, len) && NodeFine(nodes[i], c, s, base, len)
  {
    forall j | 0 <= j < i ensures nodes[..i][j] == nodes[..i + 1][j] {
    }
    assert nodes[..i + 1][i] == nodes[i];
  }

  lemma StoppedAt(nodes: seq<PassNode>, reports: seq<Report>, kept: int, writePos: int, c0: Cache, c: Cache,
                  rows0: Rows, rows: Rows, s: int, len: nat, e: real -> real, p: Shape)
    requires var n, base := |reports|, BaseOf(c0, s, kept);
             && n < |nodes| && PassFits(nodes[..n], c0, s, base, len) && !NodeFine(nodes[n], c0, s, base, len)
             && writePos == (if HasAttention(nodes[..n] + [nodes[n]]) then base else kept)
             && Confined(c0, c, rows0, rows, s, base, len)
    ensures NodesRun(false, nodes, reports, kept, writePos, c0, c, rows0, rows, s, len, e, p)
  {
    FitsNext(nodes, |reports|, c0, s, BaseOf(c0, s, kept), len);
  }

  lemma GoesOn(nodes: seq<PassNode>, reports: seq<Report>, report: Report, kept: int, writePos: int, c0: Cache,
               c: Cache, rows0: Rows, rows: Rows, s: int, len: nat, e: real -> real, p: Shape)
    requires var n, base := |reports|, BaseOf(c0, s, kept);
             && n < |nodes| && PassFits(nodes[..n], c0, s, base, len) && NodeFine(nodes[n], c0, s, base, len)
             && InPass(nodes[..n] + [nodes[n]], reports + [report], kept, writePos, c0, c, rows0, rows, s, len, e, p)
    ensures NodesSoFar(nodes, reports + [report], kept, writePos, c0, c, rows0, rows, s, len, e, p)
  {
    FitsNext(nodes, |reports|, c0, s, BaseOf(c0, s, kept), len);
  }

  lemma RanAll(nodes: seq<PassNode>, reports: seq<Report>, kept: int, writePos: int, c0: Cache, c: Cache, rows0: Rows,
               rows: Rows, s: int, len: nat, e: real -> real, p: Shape)
    requires |reports| == |nodes| && NodesSoFar(nodes, reports, kept, writePos, c0, c, rows0, rows, s, len, e, p)
    ensures NodesRun(true, nodes, reports, kept, writePos, c0, c, rows0, rows, s, len, e, p)
  {
    assert nodes[..|nodes|] == nodes;
  }

  /** The paged fields of the runtime context, with the contiguous cache that advances at the end of a pass. */
  class PassContext {
    const cache: PagedKVCache
    const contiguous: KVCache?
    var sequenceId: int
    var writePos: int
    var advanceTokens: int

    constructor (cache: PagedKVCache, contiguous: KVCache?)
      ensures this.cache == cache && this.contiguous == contiguous && writePos == -1 && sequenceId == 0
      ensures advanceTokens == 0
    {
      this.cache, this.contiguous := cache, contiguous;
      sequenceId, writePos, advanceTokens := 0, -1, 0;
    }

    ghost predicate Valid()
      reads this, cache, contiguous
    {
      cache.Valid() && (contiguous != null ==> contiguous.Valid())
    }

    /** The position that a RoPE node starts from. */
    function RopePosition(seqLen: nat): nat
      reads this, cache, contiguous
    {
      if cache.blockSize > 0 && cache.maxBlocks > 0 then
        if writePos >= 0 then writePos else cache.SequenceLength(sequenceId)
      else if contiguous != null && contiguous.maxLen > 0 && contiguous.cachedLen > 0 && seqLen == 1 then
        contiguous.cachedLen
      else 0
    }

    /** Whether the contiguous cache can take the tokens of this pass; without any to take it is not asked. */
    predicate CanAdvance()
      reads this, contiguous
    {
      advanceTokens <= 0 || (contiguous != null && contiguous.maxLen > 0 && contiguous.CanAppend(advanceTokens))
    }

    /** The end of a pass: the contiguous cache moves on if it can, and the write position is forgotten either way. */
    method AdvanceStep() returns (st: Status)
      requires Valid()
      modifies this`writePos, contiguous
      ensures Valid() && writePos == -1
      ensures st.Success? <==> old(CanAdvance())
      ensures contiguous != null ==>
                && contiguous.cachedLen == old(contiguous.cachedLen) + (if st.Success? && advanceTokens > 0 then
                                                                          advanceTokens else 0)
                && contiguous.layers == old(contiguous.layers) && contiguous.maxLen == old(contiguous.maxLen)
                && contiguous.hidden == old(contiguous.hidden)
    {
      if advanceTokens <= 0 {
        writePos := -1;
        return Success;
      }
      if contiguous == null || contiguous.maxLen <= 0 {
        writePos := -1;
        return Failure(RuntimeError);
      }
      if !contiguous.CanAppend(advanceTokens) {
        writePos := -1;
        return Failure(OutOfRange);
      }
      contiguous.Advance(advanceTokens);
      writePos := -1;
      return Success;
    }

    /** The paged path of the attention kernel: it fixes the write position, writes the chunk there and attends. It
        succeeds exactly when there is nothing to write, or the layer exists and the chunk finds room. */
    method AttentionNode(l: int, q: seq<Row>, k: seq<Row>, v: seq<Row>, e: real -> real, p: Shape, lowest: real)
      returns (r: Result<Report, ErrorCode>)
      requires Valid() && Initialized(cache.State()) && IsExp(e) && GoodShape(p) && p.heads > 0
      requires p.kvHeads == cache.heads && p.n == cache.headDim
      requires |q| == |k| == |v| && AllOfSize(q, QSize(p)) && AllOfSize(k, KvSize(p)) && AllOfSize(v, KvSize(p))
      modifies this`writePos, cache
      ensures Valid() && Initialized(cache.State())
      ensures writePos == BaseOf(old(cache.State()), sequenceId, old(writePos))
      ensures r.Ok? <==> |k| == 0 || (0 <= l < |old(cache.layers)| &&
                                      ReserveStatus(old(cache.State()), sequenceId, writePos + |k|).Success?)
      ensures OthersSame(old(cache.State()), cache.State(), sequenceId)
      ensures |k| == 0 ==> cache.State() == old(cache.State()) && cache.rows == old(cache.rows)
      ensures if sequenceId >= 0 && l >= 0 then OnlyRows(old(cache.rows), cache.rows, sequenceId, l, writePos, |k|)
              else cache.rows == old(cache.rows)
      ensures Entry(old(cache.State()), sequenceId).length <= Entry(cache.State(), sequenceId).length <=
              TotalOf(old(cache.State()), sequenceId, writePos, |k|)
      ensures r.Ok? ==> r.value.base == writePos && (|k| == 0 ==> r.value.output == [])
      ensures r.Ok? && |k| > 0 ==>
                && sequenceId >= 0
                && Entry(cache.State(), sequenceId).length == TotalOf(old(cache.State()), sequenceId, writePos, |k|)
                && |Entry(cache.State(), sequenceId).blocks| ==
                     BlocksFor(old(cache.State()), sequenceId, writePos + |k|)
                && HoldsTokens(cache.rows, sequenceId, l, writePos, k, v)
                && ChunkOutput(r.value.output, e, q, cache.rows, sequenceId, l, writePos,
                               Entry(cache.State(), sequenceId).length, p)
    {
      var start := writePos;
      if start < 0 {
        start := cache.SequenceLength(sequenceId);
        writePos := start;
      }
      if |k| == 0 {
        return Ok(Report(start, []));
      }
      if l < 0 || l >= |cache.layers| {
        return Err(OutOfRange);
      }
      if sequenceId < 0 {
        return Err(InvalidArgument);
      }
      var st := WriteChunk(cache, sequenceId, l, start, k, v);
      if st.Failure? {
        return Err(st.code);
      }
      var o := AttendPaged(cache, sequenceId, l, q, start, e, p, lowest);
      return Ok(Report(start, o));
    }

    /** An attention node in the middle of a pass. */
    method RunAttention(node: PassNode, ghost done: seq<PassNode>, ghost reports: seq<Report>, ghost kept: int,
                        ghost c0: Cache, ghost rows0: Rows, ghost len: nat, e: real -> real, p: Shape, lowest: real)
      returns (r: Result<Report, ErrorCode>)
      requires Valid() && Initialized(cache.State()) && IsExp(e) && GoodShape(p) && p.heads > 0
      requires p.kvHeads == cache.heads && p.n == cache.headDim
      requires node.Attention? && NodeFits(node, len, p)
      requires InPass(done, reports, kept, writePos, c0, cache.State(), rows0, cache.rows, sequenceId, len, e, p)
      modifies this`writePos, cache
      ensures Valid() && Initialized(cache.State())
      ensures Confined(c0, cache.State(), rows0, cache.rows, sequenceId, BaseOf(c0, sequenceId, kept), len)
      ensures writePos == BaseOf(c0, sequenceId, kept)
      ensures r.Ok? <==> NodeFine(node, c0, sequenceId, writePos, len)
      ensures r.Ok? ==>
                InPass(done + [node], reports + [r.value], kept, writePos, c0, cache.State(), rows0, cache.rows,
                       sequenceId, len, e, p)
    {
      ghost var c, rows, w, s := cache.State(), cache.rows, writePos, sequenceId;
      PassPosition(done, reports, kept, w, c0, c, rows0, rows, s, len, e, p);
      r := AttentionNode(node.layer, node.q, node.k, node.v, e, p, lowest);
      OthersSameTwice(c0, c, cache.State(), s);
      if node.layer >= 0 && s >= 0 {
        PositionsFromRows(rows0, rows, cache.rows, s, node.layer, writePos, len);
      }
      if r.Ok? && len == 0 {
        PassEmpty(done, reports, kept, w, c0, c, rows0, rows, s, e, p, node, r.value);
      } else if r.Ok? {
        PassAttention(done, reports, kept, w, c0, c, cache.State(), rows0, rows, cache.rows, s, len, e, p, node,
                      r.value);
      }
    }

    /** One node of a pass. */
    method RunNode(node: PassNode, ghost done: seq<PassNode>, ghost reports: seq<Report>, ghost kept: int,
                   ghost c0: Cache, ghost rows0: Rows, len: nat, e: real -> real, p: Shape, lowest: real)
      returns (r: Result<Report, ErrorCode>)
      requires Valid() && Initialized(cache.State()) && IsExp(e) && GoodShape(p) && p.heads > 0
      requires p.kvHeads == cache.heads && p.n == cache.headDim && NodeFits(node, len, p)
      requires InPass(done, reports, kept, writePos, c0, cache.State(), rows0, cache.rows, sequenceId, len, e, p)
      modifies this`writePos, cache
      ensures Valid() && Initialized(cache.State())
      ensures Confined(c0, cache.State(), rows0, cache.rows, sequenceId, BaseOf(c0, sequenceId, kept), len)
      ensures writePos == if HasAttention(done + [node]) then BaseOf(c0, sequenceId, kept) else kept
      ensures r.Ok? <==> NodeFine(node, c0, sequenceId, BaseOf(c0, sequenceId, kept), len)
      ensures r.Ok? ==>
                InPass(done + [node], reports + [r.value], kept, writePos, c0, cache.State(), rows0, cache.rows,
                       sequenceId, len, e, p)
    {
      HasAttentionNext(done, node);
      match node
      case Rope =>
        r := Ok(Report(RopePosition(len), []));
        PassQuiet(done, reports, kept, writePos, c0, cache.State(), rows0, cache.rows, sequenceId, len, e, p, node,
                  r.value);
      case Other(ok) =>
        r := if ok then Ok(Report(-1, [])) else Err(RuntimeError);
        PassQuiet(done, reports, kept, writePos, c0, cache.State(), rows0, cache.rows, sequenceId, len, e, p, node,
                  Report(-1, []));
      case Attention(_, _, _, _) =>
        r := RunAttention(node, done, reports, kept, c0, rows0, len, e, p, lowest);
    }

    /** One turn of the loop over the nodes. */
    method RunNext(nodes: seq<PassNode>, reports: seq<Report>, ghost kept: int, ghost c0: Cache, ghost rows0: Rows,
                   len: nat, e: real -> real, p: Shape, lowest: real)
      returns (ok: bool, reports': seq<Report>)
      requires Valid() && Initialized(cache.State()) && IsExp(e) && GoodShape(p) && p.heads > 0
      requires p.kvHeads == cache.heads && p.n == cache.headDim
      requires |reports| < |nodes| && NodeFits(nodes[|reports|], len, p)
      requires NodesSoFar(nodes, reports, kept, writePos, c0, cache.State(), rows0, cache.rows, sequenceId, len, e, p)
      modifies this`writePos, cache
      ensures Valid() && Initialized(cache.State()) && SameShape(c0, cache.State())
      ensures ok ==> |reports'| == |reports| + 1 &&
                     NodesSoFar(nodes, reports', kept, writePos, c0, cache.State(), rows0, cache.rows, sequenceId, len,
                                e, p)
      ensures !ok ==> NodesRun(false, nodes, reports', kept, writePos, c0, cache.State(), rows0, cache.rows, sequenceId,
                               len, e, p)
    {
      ghost var i := |reports|;
      var node := nodes[|reports|];
      var r := RunNode(node, nodes[..i], reports, kept, c0, rows0, len, e, p, lowest);
      if r.Err? {
        StoppedAt(nodes, reports, kept, writePos, c0, cache.State(), rows0, cache.rows, sequenceId, len, e, p);
        return false, reports;
      }
      GoesOn(nodes, reports, r.value, kept, writePos, c0, cache.State(), rows0, cache.rows, sequenceId, len, e, p);
      return true, reports + [r.value];
    }

    /** The loop over the nodes. */
    method RunNodes(nodes: seq<PassNode>, len: nat, e: real -> real, p: Shape, lowest: real)
      returns (ok: bool, reports: seq<Report>)
      requires Valid() && Initialized(cache.State()) && IsExp(e) && GoodShape(p) && p.heads > 0
      requires p.kvHeads == cache.heads && p.n == cache.headDim
      requires forall i :: 0 <= i < |nodes| ==> NodeFits(nodes[i], len, p)
      modifies this`writePos, cache
      ensures Valid() && Initialized(cache.State())
      ensures NodesRun(ok, nodes, reports, old(writePos), writePos, old(cache.State()), cache.State(), old(cache.rows),
                       cache.rows,
                       sequenceId, len, e, p)
    {
      reports := [];
      ghost var c0, rows0, kept := cache.State(), cache.rows, writePos;
      PassStart(nodes, kept, c0, rows0, sequenceId, len, e, p);
      for i := 0 to |nodes|
        invariant Valid() && Initialized(cache.State()) && SameShape(c0, cache.State()) && |reports| == i
        invariant NodesSoFar(nodes, reports, kept, writePos, c0, cache.State(), rows0, cache.rows, sequenceId, len, e,
                             p)
      {
        ok, reports := RunNext(nodes, reports, kept, c0, rows0, len, e, p, lowest);
        if !ok {
          return;
        }
      }
      ok := true;
      RanAll(nodes, reports, kept, writePos, c0, cache.State(), rows0, cache.rows, sequenceId, len, e, p);
    }

    /** The nodes of one pass, in order, from whatever write position an earlier pass left. A pass succeeds exactly when
        every node can do its work and the contiguous cache can advance; then every node used the same base position.
        The write position is forgotten at the end of the pass, but a pass that fails in a node returns before that and
        keeps it. */
    method RunPass(nodes: seq<PassNode>, len: nat, e: real -> real, p: Shape, lowest: real)
      returns (st: Status, reports: seq<Report>)
      requires Valid() && Initialized(cache.State()) && IsExp(e) && GoodShape(p) && p.heads > 0
      requires p.kvHeads == cache.heads && p.n == cache.headDim
      requires forall i :: 0 <= i < |nodes| ==> NodeFits(nodes[i], len, p)
      modifies this`writePos, cache, contiguous
      ensures Valid() && Initialized(cache.State())
      ensures var fits := PassFits(nodes, old(cache.State()), sequenceId,
                                   BaseOf(old(cache.State()), sequenceId, old(writePos)), len);
              && (st.Success? <==> fits && old(CanAdvance())) && (fits ==> writePos == -1)
              && (contiguous != null ==>
                    && contiguous.maxLen == old(contiguous.maxLen)
                    && contiguous.cachedLen == old(contiguous.cachedLen) +
                                               (if st.Success? && advanceTokens > 0 then advanceTokens else 0))
              && NodesRun(fits, nodes, reports, old(writePos), writePos, old(cache.State()), cache.State(),
                          old(cache.rows), cache.rows,
                          sequenceId, len, e, p)
    {
      var ok;
      ok, reports := RunNodes(nodes, len, e, p, lowest);
      if !ok {
        return Failure(RuntimeError), reports;
      }
      st := AdvanceStep();
      if st.Failure? {
        st := Failure(RuntimeError);
      }
    }
  }
}
