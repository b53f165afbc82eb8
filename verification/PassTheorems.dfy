/** What passes over the paged cache amount to, one after the other. */
module PassTheorems {
  import opened Arithmetic
  import opened AttentionSpec
  import opened ForwardPassSpec
  import opened ForwardPasses
  import opened PagedAttentionSpec
  import opened PagedCacheProofs
  import opened PagedCacheSpec
  import opened PagedKVCaches
  import opened RealVectorSpec
  import opened TokenAttention
  import opened TokenAttentionSpec
  import opened Wrappers

  /** A pass over one sequence, even a failed one, leaves every row, table and length of the others alone. */
  lemma PassesDoNotInterfere(c0: Cache, c: Cache, rows0: Rows, rows: Rows, s: nat, base: nat, len: nat, t: nat, l: nat,
                             n: nat)
    requires Confined(c0, c, rows0, rows, s, base, len) && t != s
    ensures Entry(c, t) == Entry(c0, t)
    ensures WrittenUpTo(rows, t, l, n) <==> WrittenUpTo(rows0, t, l, n)
    ensures WrittenUpTo(rows0, t, l, n) ==>
              KeysUpTo(rows, t, l, n) == KeysUpTo(rows0, t, l, n) &&
              ValuesUpTo(rows, t, l, n) == ValuesUpTo(rows0, t, l, n)
  {
    forall pos: nat
      ensures (t, l, pos) in rows <==> (t, l, pos) in rows0
      ensures (t, l, pos) in rows0 ==> rows[(t, l, pos)] == rows0[(t, l, pos)]
    {
      var key := (t, l, pos);
    }
    if WrittenUpTo(rows0, t, l, n) {
      forall pos | 0 <= pos < n
        ensures KeysUpTo(rows, t, l, n)[pos] == KeysUpTo(rows0, t, l, n)[pos]
        ensures ValuesUpTo(rows, t, l, n)[pos] == ValuesUpTo(rows0, t, l, n)[pos]
      {
      }
      assert KeysUpTo(rows, t, l, n) == KeysUpTo(rows0, t, l, n);
      assert ValuesUpTo(rows, t, l, n) == ValuesUpTo(rows0, t, l, n);
    }
  }

  /** Rows below the base position keep what they held. */
  lemma HistoryStays(rows0: Rows, rows: Rows, s: nat, l: nat, base: nat, n: nat, k: seq<Row>, v: seq<Row>)
    requires |k| == |v| == base && OnlyPositions(rows0, rows, s, base, n) && HoldsTokens(rows0, s, l, 0, k, v)
    ensures HoldsTokens(rows, s, l, 0, k, v)
  {
    forall t: nat | t < |k| ensures HoldsAt(rows, s, l, 0, t, k[t], v[t]) {
      assert HoldsAt(rows0, s, l, 0, t, k[t], v[t]);
      var key := (s, l, t);
      assert key in rows0;
    }
  }

  lemma HistoryGrows(rows: Rows, s: nat, l: nat, base: nat, k: seq<Row>, v: seq<Row>, k': seq<Row>, v': seq<Row>)
    requires |k| == |v| == base && |k'| == |v'| && HoldsTokens(rows, s, l, 0, k, v)
    requires HoldsTokens(rows, s, l, base, k', v')
    ensures HoldsTokens(rows, s, l, 0, k + k', v + v')
  {
    forall t: nat | t < |k + k'| ensures HoldsAt(rows, s, l, 0, t, (k + k')[t], (v + v')[t]) {
      if t < base {
        assert HoldsAt(rows, s, l, 0, t, k[t], v[t]);
      } else {
        assert HoldsAt(rows, s, l, base, t - base, k'[t - base], v'[t - base]);
      }
    }
  }

  lemma HistoryIsRows(rows: Rows, s: nat, l: nat, k: seq<Row>, v: seq<Row>, n: nat)
    requires |k| == |v| && n <= |k| && HoldsTokens(rows, s, l, 0, k, v)
    ensures WrittenUpTo(rows, s, l, n) && KeysUpTo(rows, s, l, n) == k[..n] && ValuesUpTo(rows, s, l, n) == v[..n]
  {
    forall pos: nat | pos < n ensures (s, l, pos) in rows && rows[(s, l, pos)] == (k[pos], v[pos]) {
      assert HoldsAt(rows, s, l, 0, pos, k[pos], v[pos]);
    }
    assert KeysUpTo(rows, s, l, n) == k[..n];
    assert ValuesUpTo(rows, s, l, n) == v[..n];
  }

  /** The inductive step for any number of passes: when a layer holds the history of a sequence up to the position at
      which a pass starts, the pass extends that history by its own tokens, and each token's output is attention over
      the whole history up to itself. The length may already cover some of the chunk, as it does after a failed pass. */
  lemma PassExtendsHistory(nodes: seq<PassNode>, reports: seq<Report>, kept: int, c0: Cache, c: Cache, rows0: Rows,
                           rows: Rows, s: nat, len: nat, e: real -> real, p: Shape, i: nat, l: nat, k: seq<Row>,
                               v: seq<Row>)
    requires PassDone(nodes, reports, kept, c0, c, rows0, rows, s, len, e, p) && LayersDiffer(nodes) && len > 0
    requires |k| == |v| == BaseOf(c0, s, kept) && Entry(c0, s).length <= |k| + len && HoldsTokens(rows0, s, l, 0, k, v)
    requires i < |nodes| && nodes[i].Attention? && nodes[i].layer == l && NodeFits(nodes[i], len, p)
    ensures var k', v', o := k + nodes[i].k, v + nodes[i].v, reports[i].output;
            && |o| == len && |k'| == |v'| == Entry(c, s).length
            && HoldsTokens(rows, s, l, 0, k', v')
            && forall t: nat :: t < len ==>
                 TokenAttends(o[t], e, nodes[i].q[t], k'[..|k| + t + 1], v'[..|v| + t + 1], p)
  {
    var base := |k|;
    var k', v', o := k + nodes[i].k, v + nodes[i].v, reports[i].output;
    assert NodeDone(nodes[i], reports[i], e, rows, s, base, base + len, p);
    HistoryStays(rows0, rows, s, l, base, len, k, v);
    HistoryGrows(rows, s, l, base, k, v, nodes[i].k, nodes[i].v);
    assert HasAttention(nodes);
    forall t: nat | t < len ensures TokenAttends(o[t], e, nodes[i].q[t], k'[..base + t + 1], v'[..base + t + 1], p) {
      SeesHistory(o, e, nodes[i].q, rows, s, l, base, k', v', t, p);
    }
  }

  /** With no rows behind the chunk, every token of it sees the history up to itself. */
  lemma SeesHistory(o: seq<Row>, e: real -> real, q: seq<Row>, rows: Rows, s: nat, l: nat, base: nat, k: seq<Row>,
                    v: seq<Row>, t: nat, p: Shape)
    requires ChunkOutput(o, e, q, rows, s, l, base, base + |q|, p) && t < |q|
    requires |k| == |v| == base + |q| && HoldsTokens(rows, s, l, 0, k, v)
    ensures TokenAttends(o[t], e, q[t], k[..base + t + 1], v[..base + t + 1], p)
  {
    HistoryIsRows(rows, s, l, k, v, base + t + 1);
    assert OutputAt(o[t], e, q[t], rows, s, l, RowsSeen(|q|, base, t, base + |q|), p);
  }

  /** Paged decoding equals recomputation: a token's output is the row that one causal pass over the whole history
      computes, and so also what the contiguous cache with the same rows gives. */
  lemma PagedEqualsRecomputed(o: Row, e: real -> real, full: seq<Row>, q: seq<Row>, k: seq<Row>, v: seq<Row>, t: nat,
                              p: Shape)
    requires p.n > 0 && ChunkAttends(full, e, q, k, v, true, p) && t < |q|
    requires TokenAttends(o, e, q[t], k[..t + 1], v[..t + 1], p)
    ensures o == full[t]
  {
    AttentionUnique(o, full[t], e, q[t], k[..t + 1], v[..t + 1], p);
  }

  /** Appending layer by layer does not align the layers: when the same tokens are appended to one layer and then to
      another, the second layer gets them that many positions later, and its row at the old length is not written at
      all. */
  lemma AppendsDoNotAlign(c0: Cache, c1: Cache, c2: Cache, rows0: Rows, rows1: Rows, rows2: Rows, s: nat, l: nat,
                          l': nat, n: nat, k: seq<real>, v: seq<real>, h: nat)
    requires Good(c0) && Good(c1) && l != l'
    requires AfterWrite(c0, c1, s, l, Entry(c0, s).length, n) && WriteStatus(c0, s, l, Entry(c0, s).length, n).Success?
    requires AfterWrite(c1, c2, s, l', Entry(c1, s).length, n)
    requires WriteStatus(c1, s, l', Entry(c1, s).length, n).Success?
    requires WrittenRows(rows0, rows1, s, l, Entry(c0, s).length, n, k, v, h)
    requires WrittenRows(rows1, rows2, s, l', Entry(c1, s).length, n, k, v, h)
    ensures Entry(c2, s).length == Entry(c0, s).length + 2 * n
    ensures forall t: nat :: t < n ==> WrittenAt(rows2, s, l, Entry(c0, s).length, t, k, v, h)
    ensures Entry(c1, s).length == Entry(c0, s).length + n
    ensures forall t: nat :: t < n ==> WrittenAt(rows2, s, l', Entry(c1, s).length, t, k, v, h)
    ensures var key := (s, l', Entry(c0, s).length);
            n > 0 ==> (key in rows2 <==> key in rows0) && (key in rows0 ==> rows2[key] == rows0[key])
  {
    WriteKeepsOthers(c0, c1, s, l, Entry(c0, s).length, n);
    WriteKeepsOthers(c1, c2, s, l', Entry(c1, s).length, n);
    forall t: nat | t < n ensures WrittenAt(rows2, s, l, Entry(c0, s).length, t, k, v, h) {
      assert WrittenAt(rows1, s, l, Entry(c0, s).length, t, k, v, h);
      assert !InRange((s, l, Entry(c0, s).length + t), s, l', Entry(c1, s).length, n);
    }
    var key := (s, l', Entry(c0, s).length);
    assert !InRange(key, s, l, Entry(c0, s).length, n);
    assert n > 0 ==> !InRange(key, s, l', Entry(c1, s).length, n);
  }

  // ---------------------------------------------------------------- passes after a failed pass

  /** A pass appends its tokens to its sequence exactly when no write position was kept or the kept one is the
      sequence's length. A kept position below the length overwrites rows of the history; one above it leaves the row
      after the history as it was, although the length now covers it. */
  lemma PassAppendsIff(nodes: seq<PassNode>, reports: seq<Report>, kept: int, c0: Cache, c: Cache, rows0: Rows,
                       rows: Rows, s: nat, len: nat, e: real -> real, p: Shape, i: nat)
    requires PassDone(nodes, reports, kept, c0, c, rows0, rows, s, len, e, p) && LayersDiffer(nodes) && len > 0
    requires i < |nodes| && nodes[i].Attention? && NodeFits(nodes[i], len, p)
    ensures nodes[i].layer >= 0
    ensures var n, l := Entry(c0, s).length, nodes[i].layer;
            && (Entry(c, s).length == n + len && HoldsTokens(rows, s, l, n, nodes[i].k, nodes[i].v) <==>
                  kept < 0 || kept == n)
            && (0 <= kept < n ==> (s, l, kept) in rows && rows[(s, l, kept)] == (nodes[i].k[0], nodes[i].v[0]))
            && (kept > n ==>
                  && n < Entry(c, s).length && ((s, l, n) in rows <==> (s, l, n) in rows0)
                  && ((s, l, n) in rows ==> rows[(s, l, n)] == rows0[(s, l, n)]))
  {
    var n, base := Entry(c0, s).length, BaseOf(c0, s, kept);
    assert HasAttention(nodes);
    assert NodeDone(nodes[i], reports[i], e, rows, s, base, TotalOf(c0, s, base, len), p);
    var l: nat := nodes[i].layer;
    assert HoldsAt(rows, s, l, base, 0, nodes[i].k[0], nodes[i].v[0]);
    var key := (s, l, n);
    assert key in rows0 ==> key in rows;
  }

  /** Repeating a failed pass on its own sequence is safe: it starts at the kept position, and what it leaves extends
      the history from before the failed pass by the chunk, once. */
  lemma RetryExtendsOnce(nodes: seq<PassNode>, reports: seq<Report>, before: Cache, c0: Cache, c: Cache,
                         rowsBefore: Rows, rows0: Rows, rows: Rows, s: nat, len: nat, e: real -> real, p: Shape, i: nat,
                             l: nat, k: seq<Row>, v: seq<Row>)
    requires |k| == |v| == Entry(before, s).length && HoldsTokens(rowsBefore, s, l, 0, k, v)
    requires Confined(before, c0, rowsBefore, rows0, s, |k|, len)
    requires PassDone(nodes, reports, |k|, c0, c, rows0, rows, s, len, e, p) && LayersDiffer(nodes) && len > 0
    requires i < |nodes| && nodes[i].Attention? && nodes[i].layer == l && NodeFits(nodes[i], len, p)
    ensures var k', v', o := k + nodes[i].k, v + nodes[i].v, reports[i].output;
            && |o| == len && |k'| == |v'| == Entry(c, s).length == Entry(before, s).length + len
            && HoldsTokens(rows, s, l, 0, k', v')
            && forall t: nat :: t < len ==>
                 TokenAttends(o[t], e, nodes[i].q[t], k'[..|k| + t + 1], v'[..|v| + t + 1], p)
  {
    HistoryStays(rowsBefore, rows0, s, l, |k|, len, k, v);
    PassExtendsHistory(nodes, reports, |k|, c0, c, rows0, rows, s, len, e, p, i, l, k, v);
  }

  /** A sequence that owns the blocks has the room. */
  lemma OwnedRoom(c: Cache, s: nat, total: nat)
    requires Initialized(c) && total <= |Entry(c, s).blocks| * c.blockSize
    ensures ReserveStatus(c, s, total).Success?
  {
    CeilCovers(total, c.blockSize, |Entry(c, s).blocks|);
  }

  lemma TwoReserved(c0: Cache, c1: Cache, c2: Cache)
    requires c0 == ClearedCache(1, 1, 1, 2, 2) && c1 == AfterReserve(c0, 0, 2) && c2 == AfterReserve(c1, 1, 2)
    ensures Entry(c2, 0).length == Entry(c2, 1).length == 0 && |Entry(c2, 0).blocks| >= 1 && |Entry(c2, 1).blocks| >= 1
    ensures SameShape(c0, c2) && c2.layers == c0.layers
  {
    ClearedGood(1, 1, 1, 2, 2);
    ReserveGood(c0, 0, 2);
    ReserveRoom(c0, 0, 2);
    ReserveSupply(c0, 0, 2);
    ReserveGood(c1, 1, 2);
    ReserveRoom(c1, 1, 2);
  }

  /** A context over a cache of one layer and two blocks, one for each of two sequences. */
  method TwoSequences() returns (ctx: PassContext)
    ensures fresh(ctx) && fresh(ctx.cache) && ctx.contiguous == null && ctx.Valid() && Initialized(ctx.cache.State())
    ensures ctx.cache.heads == ctx.cache.headDim == 1 && |ctx.cache.layers| == 1 && ctx.cache.rows == map[]
    ensures ctx.sequenceId == 0 && ctx.writePos == -1 && ctx.advanceTokens == 0 && TwoOpen(ctx.cache.State(), 0, 0)
  {
    var cache := new PagedKVCache();
    var st := cache.Init(1, 1, 1, 2, 2);
    ghost var c0 := cache.State();
    st := cache.ReserveSequence(0, 2);
    ghost var c1 := cache.State();
    st := cache.ReserveSequence(1, 2);
    TwoReserved(c0, c1, cache.State());
    ctx := new PassContext(cache, null);
  }

  /** Sequences 0 and 1 have these lengths and own blocks for two rows. */
  ghost predicate TwoOpen(c: Cache, n: nat, m: nat) {
    && Initialized(c) && |c.layers| == 1 && Entry(c, 0).length == n && Entry(c, 1).length == m
    && 2 <= |Entry(c, 0).blocks| * c.blockSize && 2 <= |Entry(c, 1).blocks| * c.blockSize
  }

  lemma TwoFit(c: Cache, s: nat, base: nat, node: PassNode)
    requires s < 2 && base < 2 && TwoOpen(c, Entry(c, 0).length, Entry(c, 1).length)
    requires node.Attention? && node.layer == 0
    ensures PassFits([node], c, s, base, 1) && HasAttention([node]) && HasAttention([node, Other(false)][..2])
    ensures !NodeFine([node, Other(false)][1], c, s, base, 1)
  {
    OwnedRoom(c, s, base + 1);
    assert [node][0] == node && [node, Other(false)][..2][0] == node;
  }

  lemma TwoStay(c: Cache, c': Cache, s: nat)
    requires TwoOpen(c, Entry(c, 0).length, Entry(c, 1).length) && OthersSame(c, c', s) && s < 2
    ensures TwoOpen(c', Entry(c', 0).length, Entry(c', 1).length)
  {
    Monotone(|Entry(c, s).blocks|, |Entry(c', s).blocks|, c.blockSize);
  }

  /** What every pass of the run below demands. */
  ghost predicate TwoReady(ctx: PassContext, node: PassNode, p: Shape)
    reads ctx, ctx.cache, ctx.contiguous
  {
    var c := ctx.cache.State();
    && ctx.Valid() && GoodShape(p) && p.heads > 0 && p.kvHeads == c.heads && p.n == c.headDim
    && node.Attention? && node.layer == 0 && NodeFits(node, 1, p) && ctx.advanceTokens == 0
    && TwoOpen(c, Entry(c, 0).length, Entry(c, 1).length)
  }

  /** A pass of one token over one layer. */
  method OneToken(ctx: PassContext, node: PassNode, e: real -> real, p: Shape, lowest: real) returns (st: Status)
    requires IsExp(e) && TwoReady(ctx, node, p) && 0 <= ctx.sequenceId < 2
    requires BaseOf(ctx.cache.State(), ctx.sequenceId, ctx.writePos) < 2
    modifies ctx`writePos, ctx.cache, ctx.contiguous
    ensures TwoReady(ctx, node, p) && st.Success? && ctx.writePos == -1
    ensures OthersSame(old(ctx.cache.State()), ctx.cache.State(), ctx.sequenceId)
    ensures var base := BaseOf(old(ctx.cache.State()), ctx.sequenceId, old(ctx.writePos));
            && Entry(ctx.cache.State(), ctx.sequenceId).length ==
                 TotalOf(old(ctx.cache.State()), ctx.sequenceId, base, 1)
            && OnlyPositions(old(ctx.cache.rows), ctx.cache.rows, ctx.sequenceId, base, 1)
            && (ctx.sequenceId, 0, base) in ctx.cache.rows
  {
    ghost var c, base, s := ctx.cache.State(), BaseOf(ctx.cache.State(), ctx.sequenceId, ctx.writePos), ctx.sequenceId;
    TwoFit(c, s, base, node);
    var reports;
    st, reports := ctx.RunPass([node], 1, e, p, lowest);
    TwoStay(c, ctx.cache.State(), s);
    assert NodeDone([node][0], reports[0], e, ctx.cache.rows, s, base, TotalOf(c, s, base, 1), p);
    assert HoldsAt(ctx.cache.rows, s, 0, base, 0, node.k[0], node.v[0]);
  }

  /** A pass of one token that fails behind its attention node: it keeps its base position. */
  method FailingToken(ctx: PassContext, node: PassNode, e: real -> real, p: Shape, lowest: real) returns (st: Status)
    requires IsExp(e) && TwoReady(ctx, node, p) && 0 <= ctx.sequenceId < 2
    requires BaseOf(ctx.cache.State(), ctx.sequenceId, ctx.writePos) < 2
    modifies ctx`writePos, ctx.cache, ctx.contiguous
    ensures TwoReady(ctx, node, p) && st.Failure?
    ensures ctx.writePos == BaseOf(old(ctx.cache.State()), ctx.sequenceId, old(ctx.writePos))
    ensures OthersSame(old(ctx.cache.State()), ctx.cache.State(), ctx.sequenceId)
    ensures OnlyPositions(old(ctx.cache.rows), ctx.cache.rows, ctx.sequenceId, ctx.writePos, 1)
  {
    ghost var c, base, s := ctx.cache.State(), BaseOf(ctx.cache.State(), ctx.sequenceId, ctx.writePos), ctx.sequenceId;
    TwoFit(c, s, base, node);
    assert PassFits([node], c, s, base, 1) && [node][0] == node;
    var reports;
    st, reports := ctx.RunPass([node, Other(false)], 1, e, p, lowest);
    TwoStay(c, ctx.cache.State(), s);
  }

  /** One good pass over sequence 0 and one that fails behind its attention node. */
  method GoodThenFailing(ctx: PassContext, node: PassNode, e: real -> real, p: Shape, lowest: real)
    returns (first: Status, second: Status)
    requires IsExp(e) && TwoReady(ctx, node, p) && ctx.sequenceId == 0 && ctx.writePos == -1
    requires TwoOpen(ctx.cache.State(), 0, 0) && ctx.cache.rows == map[]
    modifies ctx`writePos, ctx.cache, ctx.contiguous
    ensures first.Success? && second.Failure?
    ensures TwoReady(ctx, node, p) && ctx.writePos == 1 && Entry(ctx.cache.State(), 1).length == 0
    ensures (1, 0, 0) !in ctx.cache.rows
  {
    first := OneToken(ctx, node, e, p, lowest);
    second := FailingToken(ctx, node, e, p, lowest);
  }

  /** A run in which a kept position goes wrong: after one good pass over sequence 0, a second one fails behind its
      attention node and keeps position 1. The next pass, over the empty sequence 1, writes its only token at position 1
      and reports two tokens, of which the first was never written. */
  method StalePosition(e: real -> real, lowest: real)
    returns (ctx: PassContext, first: Status, second: Status, third: Status)
    requires IsExp(e)
    ensures first.Success? && second.Failure? && third.Success?
    ensures Entry(ctx.cache.State(), 1).length == 2 && (1, 0, 1) in ctx.cache.rows && (1, 0, 0) !in ctx.cache.rows
  {
    ctx := TwoSequences();
    var row := [1.0];
    var p, node := Shape(1, 1, 1, 1, 1.0), Attention(0, [row], [row], [row]);
    first, second := GoodThenFailing(ctx, node, e, p, lowest);
    ctx.sequenceId := 1;
    third := OneToken(ctx, node, e, p, lowest);
  }
}
