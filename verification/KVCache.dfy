/** The contiguous KV cache (src/runtime/cache/kv_cache.cpp) and the attention paths that use it
    (src/runtime/kernels/cpu_kernel_adapter.cpp). */
module KVCacheSpec {
  import opened AttentionSpec
  import opened RealVectorSpec
  import opened TokenAttentionSpec

  /** The storage of one layer, row after row. */
  datatype KVLayer = KVLayer(k: seq<real>, v: seq<real>)

  ghost predicate LayerSized(layer: KVLayer, floats: nat) {
    |layer.k| == |layer.v| == floats
  }

  ghost predicate LayersSized(layers: seq<KVLayer>, floats: nat) {
    forall l :: 0 <= l < |layers| ==> LayerSized(layers[l], floats)
  }

  /** A layer holds the given rows of h floats from its start. */
  ghost predicate Holds(layer: KVLayer, k: seq<Row>, v: seq<Row>, h: nat) {
    && |k| == |v| && |k| * h <= |layer.k| && |k| * h <= |layer.v|
    && RowsOf(layer.k, |k|, h) == k && RowsOf(layer.v, |v|, h) == v
  }

  /** Every token attends to itself and the tokens before it. */
  ghost predicate CausalTokens(o: seq<Row>, e: real -> real, q: seq<Row>, k: seq<Row>, v: seq<Row>, p: Shape) {
    |o| <= |q| == |k| == |v| && forall t: nat :: t < |o| ==> TokenAttends(o[t], e, q[t], k[..t + 1], v[..t + 1], p)
  }

  ghost predicate TokenRowsFit(x: Tokens, p: Shape) {
    |x.q| == |x.k| == |x.v| && AllOfSize(x.q, QSize(p)) && AllOfSize(x.k, KvSize(p)) && AllOfSize(x.v, KvSize(p))
  }

  ghost predicate TokensFit(xs: seq<Tokens>, total: nat, p: Shape) {
    forall l :: 0 <= l < |xs| ==> TokenRowsFit(xs[l], p) && |xs[l].q| == total
  }

  /** A layer holds the first m tokens and their outputs are causal attention. */
  ghost predicate LayerAt(layer: KVLayer, o: seq<Row>, x: Tokens, m: nat, e: real -> real, p: Shape) {
    && m == |o| <= |x.q| == |x.k| == |x.v| && Holds(layer, x.k[..m], x.v[..m], KvSize(p))
    && CausalTokens(o, e, x.q, x.k, x.v, p)
  }

  /** The n tokens of the stream x behind the first t. */
  ghost predicate NextTokens(x: Tokens, t: nat, n: nat, q: seq<Row>, k: seq<Row>, v: seq<Row>) {
    && t + n <= |x.q| == |x.k| == |x.v|
    && q == x.q[t..t + n] && k == x.k[t..t + n] && v == x.v[t..t + n]
  }

  /** The layers below l have seen n tokens more than the others. */
  ghost predicate LayersAt(layers: seq<KVLayer>, os: seq<seq<Row>>, xs: seq<Tokens>, l: nat, n: nat, t: nat,
                           e: real -> real, p: Shape)
    requires |os| == |xs|
  {
    |layers| == |xs| && forall j :: 0 <= j < |xs| ==> LayerAt(layers[j], os[j], xs[j], if j < l then t + n else t, e, p)
  }
}

module KVCaches {
  import opened Arithmetic
  import opened AttentionKernels
  import opened AttentionSpec
  import opened KVCacheSpec
  import opened RealVectorSpec
  import opened Sequences
  import opened TokenAttention
  import opened TokenAttentionSpec
  import opened Wrappers

  class KVCache {
    var layers: seq<KVLayer>
    var hidden: nat
    var maxLen: nat
    var cachedLen: nat

    ghost predicate Valid()
      reads this
    {
      LayersSized(layers, maxLen * hidden) && cachedLen <= maxLen
    }

    constructor ()
      ensures Valid() && layers == [] && maxLen == cachedLen == 0
    {
      layers, hidden, maxLen, cachedLen := [], 0, 0, 0;
    }

    /** Without positive sizes the cache stays uninitialized. */
    method Init(numLayers: int, kvHeads: int, headDim: int, max: int)
      modifies this
      ensures Valid() && cachedLen == 0
      ensures numLayers > 0 && kvHeads > 0 && headDim > 0 && max > 0 ==>
                |layers| == numLayers && hidden == kvHeads * headDim && maxLen == max
      ensures !(numLayers > 0 && kvHeads > 0 && headDim > 0 && max > 0) ==> layers == [] && maxLen == 0
    {
      layers, hidden, maxLen, cachedLen := [], 0, 0, 0;
      if numLayers <= 0 || kvHeads <= 0 || headDim <= 0 || max <= 0 {
        return;
      }
      hidden, maxLen := kvHeads * headDim, max;
      var floats: nat := maxLen * hidden;
      layers := seq(numLayers, _ => KVLayer(ZeroRow(floats), ZeroRow(floats)));
    }

    method SetCachedLen(len: int)
      requires Valid()
      modifies this`cachedLen
      ensures Valid() && cachedLen == if len < 0 then 0 else if len > maxLen then maxLen else len
    {
      cachedLen := if len < 0 then 0 else if len > maxLen then maxLen else len;
    }

    method Advance(n: int)
      requires Valid()
      modifies this`cachedLen
      ensures Valid() && (0 <= n <= maxLen - old(cachedLen) ==> cachedLen == old(cachedLen) + n)
    {
      SetCachedLen(cachedLen + n);
    }

    predicate CanAppend(n: int)
      reads this
    {
      n >= 0 && cachedLen <= maxLen && n <= maxLen - cachedLen
    }

    /** The row copies of one layer: rows from..from+|k|-1 of h floats are replaced. */
    method CopyRows(l: nat, from: nat, k: seq<Row>, v: seq<Row>, h: nat)
      requires Valid() && l < |layers| && |k| == |v| && AllOfSize(k, h) && AllOfSize(v, h)
      requires (from + |k|) * h <= maxLen * hidden
      modifies this`layers
      ensures Valid() && |layers| == |old(layers)|
      ensures CopiedRows(old(layers)[l], layers[l], from, k, v, h)
      ensures forall m :: 0 <= m < |layers| && m != l ==> layers[m] == old(layers)[m]
    {
      ghost var before := layers[l];
      assert LayerSized(before, maxLen * hidden);
      RowsFit(from, |k|, h, maxLen * hidden);
      CopiedNothing(before, from, k, v, h);
      for s := 0 to |k|
        invariant Valid() && |layers| == |old(layers)| && CopiedRows(before, layers[l], from, k[..s], v[..s], h)
        invariant forall m :: 0 <= m < |layers| && m != l ==> layers[m] == old(layers)[m]
      {
        RowsFit(from + s + 1, |k| - s - 1, h, maxLen * hidden);
        var layer := CopyRow(before, layers[l], from, k, v, s, h);
        layers := layers[l := layer];
      }
      assert k[..|k|] == k && v[..|v|] == v;
    }

    /** kernel_attention with a contiguous cache: prefill when it is empty, otherwise one decode step. Rows have the
        node's width; a cache made for another width only has to be large enough for them. */
    method Attention(e: real -> real, l: int, batch: int, q: seq<Row>, k: seq<Row>, v: seq<Row>, causal: bool, p: Shape,
                     tile: nat, width: nat)
      returns (r: Result<seq<Row>, ErrorCode>)
      requires Valid() && IsExp(e) && GoodShape(p) && tile > 0 && width > 0
      requires cachedLen + |q| <= maxLen ==> (cachedLen + |q|) * KvSize(p) <= maxLen * hidden
      requires |q| == |k| == |v| && AllOfSize(q, QSize(p)) && AllOfSize(k, KvSize(p)) && AllOfSize(v, KvSize(p))
      modifies this`layers
      ensures Valid() && |layers| == |old(layers)|
      ensures r.Ok? <==> batch == 1 && |q| > 0 && 0 <= l < |layers| && cachedLen + |q| <= maxLen &&
                         (cachedLen > 0 ==> |q| == 1)
      ensures r.Err? ==> layers == old(layers)
      ensures r.Ok? ==> forall m :: 0 <= m < |layers| && m != l ==> layers[m] == old(layers)[m]
      ensures r.Ok? ==> CopiedRows(old(layers)[l], layers[l], cachedLen, k, v, KvSize(p)) &&
                        Attended(old(layers)[l], r.value, e, q, k, v, cachedLen, causal, p)
    {
      if batch != 1 {
        return Err(Unsupported);
      }
      if |q| <= 0 {
        return Err(InvalidArgument);
      }
      if l < 0 || l >= |layers| {
        return Err(OutOfRange);
      }
      ghost var before := layers[l];
      if cachedLen == 0 {
        if !CanAppend(|q|) {
          return Err(OutOfRange);
        }
        CopyRows(l, 0, k, v, KvSize(p));
        CopiedAreRead(before, layers[l], 0, k, v, KvSize(p));
        var o := AttendChunk(e, q, RowsOf(layers[l].k, |q|, KvSize(p)), RowsOf(layers[l].v, |q|, KvSize(p)), causal, p,
                             tile, width);
        return Ok(o);
      }
      if |q| != 1 {
        return Err(InvalidArgument);
      }
      if !CanAppend(1) {
        return Err(OutOfRange);
      }
      CopyRows(l, cachedLen, k, v, KvSize(p));
      var len := cachedLen + 1;
      var o := DecodeToken(e, q[0], RowsOf(layers[l].k, len, KvSize(p)), RowsOf(layers[l].v, len, KvSize(p)), p, tile,
                           width);
      return Ok([o]);
    }
  }

  // ---------------------------------------------------------------- rows in the storage

  lemma RowsFit(n: nat, more: nat, h: nat, floats: nat)
    requires (n + more) * h <= floats
    ensures n * h <= floats
  {
    Monotone(n, n + more, h);
  }

  /** The rows k and v were put behind the first from rows, and the storage kept its size. */
  ghost predicate CopiedRows(layer: KVLayer, layer': KVLayer, from: nat, k: seq<Row>, v: seq<Row>, h: nat) {
    && |layer'.k| == |layer.k| && |layer'.v| == |layer.v| && |k| == |v|
    && (from + |k|) * h <= |layer.k| && (from + |k|) * h <= |layer.v| && from * h <= |layer.k| && from * h <= |layer.v|
    && RowsOf(layer'.k, from + |k|, h) == RowsOf(layer.k, from, h) + k
    && RowsOf(layer'.v, from + |v|, h) == RowsOf(layer.v, from, h) + v
  }

  /** What attention over the cached and the new rows yields. */
  ghost predicate Attended(layer: KVLayer, o: seq<Row>, e: real -> real, q: seq<Row>, k: seq<Row>, v: seq<Row>,
                           cached: nat, causal: bool, p: Shape) {
    && cached * KvSize(p) <= |layer.k| && cached * KvSize(p) <= |layer.v|
    && (cached == 0 ==> ChunkAttends(o, e, q, k, v, causal, p))
    && (cached > 0 ==> (
            && |o| == |q| == 1
            && TokenAttends(o[0], e, q[0], RowsOf(layer.k, cached, KvSize(p)) + k,
                            RowsOf(layer.v, cached, KvSize(p)) + v, p)))
  }

  lemma CopiedNothing(layer: KVLayer, from: nat, k: seq<Row>, v: seq<Row>, h: nat)
    requires |k| == |v| && from * h <= |layer.k| && from * h <= |layer.v|
    ensures CopiedRows(layer, layer, from, k[..0], v[..0], h)
  {
    assert RowsOf(layer.k, from, h) + k[..0] == RowsOf(layer.k, from, h);
    assert RowsOf(layer.v, from, h) + v[..0] == RowsOf(layer.v, from, h);
  }

  lemma CopiedAreRead(layer: KVLayer, layer': KVLayer, from: nat, k: seq<Row>, v: seq<Row>, h: nat)
    requires CopiedRows(layer, layer', from, k, v, h) && from == 0
    ensures RowsOf(layer'.k, |k|, h) == k && RowsOf(layer'.v, |v|, h) == v
  {
    assert RowsOf(layer.k, 0, h) == [] && RowsOf(layer.v, 0, h) == [];
  }

  /** Overwriting row n leaves the rows before it and reads back. */
  lemma SpliceRow(storage: seq<real>, n: nat, row: Row, h: nat, at: nat)
    requires |row| == h && at == n * h && (n + 1) * h <= |storage|
    ensures at + h <= |storage| && |Splice(storage, at, row)| == |storage|
    ensures n * h <= |storage|
    ensures RowsOf(Splice(storage, at, row), n + 1, h) == RowsOf(storage, n, h) + [row]
  {
    assert (n + 1) * h == n * h + h;
    var s' := Splice(storage, at, row);
    forall t: nat | t < n + 1 ensures RowsOf(s', n + 1, h)[t] == (RowsOf(storage, n, h) + [row])[t] {
      RowInBuffer(t, n + 1, h);
      if t < n {
        RowInBuffer(t, n, h);
        EarlierRow(storage, s', t, h, at);
      } else {
        assert RowOf(s', n, h) == row;
      }
    }
  }

  lemma EarlierRow(storage: seq<real>, storage': seq<real>, t: nat, h: nat, at: nat)
    requires t * h + h <= at <= |storage| && |storage'| == |storage| && storage'[..at] == storage[..at]
    ensures RowOf(storage', t, h) == RowOf(storage, t, h)
  {
    var start := t * h;
    forall i | 0 <= i < h ensures RowOf(storage', t, h)[i] == RowOf(storage, t, h)[i] {
      assert storage'[..at][start + i] == storage[..at][start + i];
    }
  }

  /** The two memcpy calls of one row. */
  method CopyRow(ghost before: KVLayer, layer: KVLayer, from: nat, k: seq<Row>, v: seq<Row>, s: nat, h: nat)
    returns (layer': KVLayer)
    requires s < |k| == |v| && |k[s]| == |v[s]| == h && CopiedRows(before, layer, from, k[..s], v[..s], h)
    requires (from + s + 1) * h <= |before.k| && (from + s + 1) * h <= |before.v|
    ensures CopiedRows(before, layer', from, k[..s + 1], v[..s + 1], h)
  {
    var at := (from + s) * h;
    SpliceRow(layer.k, from + s, k[s], h, at);
    SpliceRow(layer.v, from + s, v[s], h, at);
    layer' := KVLayer(Splice(layer.k, at, k[s]), Splice(layer.v, at, v[s]));
    NextSlice(k, s);
    NextSlice(v, s);
    Associative(RowsOf(before.k, from, h), k[..s], [k[s]]);
    Associative(RowsOf(before.v, from, h), v[..s], [v[s]]);
  }

  lemma DecodedToken(e: real -> real, q: Row, heads: seq<Row>, out: seq<Row>, o: Row, k: seq<Row>, v: seq<Row>,
                     p: Shape)
    requires GoodShape(p) && |q| == QSize(p) && |k| == |v| && AllOfSize(k, KvSize(p)) && AllOfSize(v, KvSize(p))
    requires |heads| == p.heads && AllOfSize(heads, p.n)
    requires forall h: nat :: h < p.heads ==> h * p.n + p.n <= |q| && heads[h] == Head(q, h, p.n)
    requires DecodeRows(out, e, heads, k, v, p.heads, p.group, p.n, p.scale)
    requires TokenOf(o, out, 0, p.heads, 1, p.n)
    ensures TokenAttends(o, e, q, k, v, p)
  {
    forall h: nat | h < p.heads ensures HeadAttends(o, e, q, k, v, h, p) {
      assert DecodeAt(out, e, heads, k, v, h, p.group, p.n, p.scale);
      assert TokenOfAt(o, out, 0, h, 1, p.n);
    }
  }

  /** The decode path for one token over cached rows. */
  method DecodeToken(e: real -> real, q: Row, k: seq<Row>, v: seq<Row>, p: Shape, tile: nat, width: nat)
    returns (o: Row)
    requires IsExp(e) && GoodShape(p) && tile > 0 && width > 0 && |q| == QSize(p)
    requires |k| == |v| && AllOfSize(k, KvSize(p)) && AllOfSize(v, KvSize(p))
    ensures TokenAttends(o, e, q, k, v, p)
  {
    var heads: seq<Row> := [];
    for h := 0 to p.heads
      invariant |heads| == h && AllOfSize(heads, p.n)
      invariant forall g: nat :: g < h ==> g * p.n + p.n <= |q| && heads[g] == Head(q, g, p.n)
    {
      HeadFitsBelow(h, p.heads, p.n);
      heads := heads + [Head(q, h, p.n)];
    }
    var out := FlashDecode(e, heads, k, v, p.heads, p.kvHeads, p.group, p.n, p.scale, tile, width);
    o := TokenFrom(out, 0, p.heads, 1, p.n);
    DecodedToken(e, q, heads, out, o, k, v, p);
  }

  lemma PrefixChunk(o: seq<Row>, e: real -> real, q: seq<Row>, k: seq<Row>, v: seq<Row>, n: nat, p: Shape)
    requires |q| == |k| == |v| && n <= |q| && ChunkAttends(o, e, q[..n], k[..n], v[..n], true, p)
    ensures CausalTokens(o, e, q, k, v, p) && |o| == n
  {
    forall t: nat | t < |o| ensures TokenAttends(o[t], e, q[t], k[..t + 1], v[..t + 1], p) {
      assert k[..n][..t + 1] == k[..t + 1] && v[..n][..t + 1] == v[..t + 1] && q[..n][t] == q[t];
    }
  }

  lemma NextToken(o: seq<Row>, row: Row, e: real -> real, q: seq<Row>, k: seq<Row>, v: seq<Row>, p: Shape)
    requires CausalTokens(o, e, q, k, v, p) && |o| < |q|
    requires TokenAttends(row, e, q[|o|], k[..|o|] + [k[|o|]], v[..|o|] + [v[|o|]], p)
    ensures CausalTokens(o + [row], e, q, k, v, p)
  {
    var t := |o|;
    assert k[..t + 1] == k[..t] + [k[t]] && v[..t + 1] == v[..t] + [v[t]];
  }

  /** The cached rows with the new ones behind them are the next rows of the stream. */
  lemma CacheGrew(layer: KVLayer, layer': KVLayer, k: seq<Row>, v: seq<Row>, t: nat, n: nat, h: nat)
    requires t + n <= |k| == |v| && Holds(layer, k[..t], v[..t], h)
    requires CopiedRows(layer, layer', t, k[t..t + n], v[t..t + n], h)
    ensures RowsOf(layer.k, t, h) == k[..t] && RowsOf(layer.v, t, h) == v[..t]
    ensures Holds(layer', k[..t + n], v[..t + n], h)
  {
    assert k[..t + n] == k[..t] + k[t..t + n] && v[..t + n] == v[..t] + v[t..t + n];
  }

  /** One layer and the next n tokens of a stream x, of which t are cached: a prompt when nothing is cached, otherwise
      one token. Their rows are copied behind the cached ones. */
  method StepLayer(cache: KVCache, e: real -> real, l: nat, q: seq<Row>, k: seq<Row>, v: seq<Row>, ghost x: Tokens,
                   ghost total: nat, ghost n: nat, o: seq<Row>, p: Shape, tile: nat, width: nat)
    returns (o': seq<Row>)
    requires cache.Valid() && IsExp(e) && GoodShape(p) && tile > 0 && width > 0
    requires l < |cache.layers| && n > 0 && (cache.cachedLen > 0 ==> n == 1)
    requires cache.cachedLen + n <= total == |x.q| <= cache.maxLen && total * KvSize(p) <= cache.maxLen * cache.hidden
    requires TokenRowsFit(x, p) && LayerAt(cache.layers[l], o, x, cache.cachedLen, e, p)
    requires NextTokens(x, cache.cachedLen, n, q, k, v)
    modifies cache`layers
    ensures cache.Valid() && |cache.layers| == |old(cache.layers)|
    ensures CopiedRows(old(cache.layers)[l], cache.layers[l], cache.cachedLen, k, v, KvSize(p))
    ensures LayerAt(cache.layers[l], o', x, cache.cachedLen + n, e, p)
    ensures forall m :: 0 <= m < |cache.layers| && m != l ==> cache.layers[m] == old(cache.layers)[m]
  {
    ghost var layer, t := cache.layers[l], cache.cachedLen;
    RowsFit(t + n, total - t - n, KvSize(p), cache.maxLen * cache.hidden);
    var r := cache.Attention(e, l, 1, q, k, v, true, p, tile, width);
    CacheGrew(layer, cache.layers[l], x.k, x.v, t, n, KvSize(p));
    if cache.cachedLen == 0 {
      o' := r.value;
      PrefixChunk(o', e, x.q, x.k, x.v, n, p);
    } else {
      o' := o + r.value;
      NextOutput(layer, r.value, e, x, t, p);
      NextToken(o, r.value[0], e, x.q, x.k, x.v, p);
      assert r.value == [r.value[0]];
    }
  }

  lemma NextOutput(layer: KVLayer, o: seq<Row>, e: real -> real, x: Tokens, t: nat, p: Shape)
    requires 0 < t < |x.q| == |x.k| == |x.v| && Holds(layer, x.k[..t], x.v[..t], KvSize(p))
    requires Attended(layer, o, e, x.q[t..t + 1], x.k[t..t + 1], x.v[t..t + 1], t, true, p)
    ensures |o| == 1 && TokenAttends(o[0], e, x.q[t], x.k[..t] + [x.k[t]], x.v[..t] + [x.v[t]], p)
  {
    assert x.k[t..t + 1] == [x.k[t]] && x.v[t..t + 1] == [x.v[t]];
  }

  /** Cached decoding equals recomputation: whatever was computed step by step from the cache is what one causal pass
      over all tokens computes. */
  lemma CachedEqualsRecomputed(stepwise: seq<Row>, full: seq<Row>, e: real -> real, q: seq<Row>, k: seq<Row>,
                               v: seq<Row>, p: Shape)
    requires p.n > 0 && CausalTokens(stepwise, e, q, k, v, p) && |stepwise| == |q|
    requires ChunkAttends(full, e, q, k, v, true, p)
    ensures stepwise == full
  {
    forall t: nat | t < |q| ensures stepwise[t] == full[t] {
      AttentionUnique(stepwise[t], full[t], e, q[t], k[..t + 1], v[..t + 1], p);
    }
  }
}
