/** Passes on the contiguous KV cache (src/runtime/executor.cpp with src/runtime/kernels/cpu_kernel_adapter.cpp, in the
    order of examples/generate.cpp): one over the whole prompt, then one for every further token. */
module ContiguousPassSpec {
  import opened KVCaches
  import opened PagedCacheSpec
  import opened ForwardPasses
  import opened RealVectorSpec
  import opened TokenAttentionSpec

  /** What RoPE does to a row at a position; its arithmetic does not matter here. */
  type Rotation = (Row, nat) -> Row

  ghost predicate KeepsSize(rope: Rotation) {
    forall row, pos :: |rope(row, pos)| == |row|
  }

  /** The rows rotated for the positions from start on. */
  function Rotated(rope: Rotation, rows: seq<Row>, start: nat): (r: seq<Row>)
    ensures |r| == |rows| && forall i :: 0 <= i < |rows| ==> r[i] == rope(rows[i], start + i)
  {
    seq(|rows|, i requires 0 <= i < |rows| => rope(rows[i], start + i))
  }

  /** A stream whose queries and keys are rotated for their own positions in the stream. */
  function RotatedTokens(rope: Rotation, x: Tokens): Tokens {
    Tokens(Rotated(rope, x.q, 0), Rotated(rope, x.k, 0), x.v)
  }

  function AllRotated(rope: Rotation, xs: seq<Tokens>): (ys: seq<Tokens>)
    ensures |ys| == |xs| && forall l :: 0 <= l < |xs| ==> ys[l] == RotatedTokens(rope, xs[l])
  {
    seq(|xs|, l requires 0 <= l < |xs| => RotatedTokens(rope, xs[l]))
  }

  /** A context without a paged cache whose passes advance the contiguous cache by n tokens. */
  ghost predicate OnContiguous(ctx: PassContext, cache: KVCache, n: nat)
    reads ctx, ctx.cache, ctx.contiguous, cache
  {
    ctx.Valid() && !Initialized(ctx.cache.State()) && ctx.contiguous == cache && ctx.advanceTokens == n
  }
}

module ContiguousPasses {
  import opened Wrappers
  import opened AttentionSpec
  import opened ContiguousPassSpec
  import opened ForwardPasses
  import opened KVCaches
  import opened KVCacheSpec
  import opened RealVectorSpec
  import opened TokenAttentionSpec

  // ---------------------------------------------------------------- rotated rows

  lemma RotatedPart(rope: Rotation, rows: seq<Row>, t: nat, n: nat)
    requires t + n <= |rows|
    ensures Rotated(rope, rows[t..t + n], t) == Rotated(rope, rows, 0)[t..t + n]
  {
  }

  lemma RotatedFit(rope: Rotation, x: Tokens, p: Shape)
    requires KeepsSize(rope) && TokenRowsFit(x, p)
    ensures TokenRowsFit(RotatedTokens(rope, x), p) && |RotatedTokens(rope, x).q| == |x.q|
  {
    var y := RotatedTokens(rope, x);
    forall i | 0 <= i < |x.q| ensures |y.q[i]| == QSize(p) && |y.k[i]| == KvSize(p) {
      assert |rope(x.q[i], 0 + i)| == |x.q[i]| && |rope(x.k[i], 0 + i)| == |x.k[i]|;
    }
  }

  lemma RotatedNext(rope: Rotation, x: Tokens, t: nat, n: nat, q: seq<Row>, k: seq<Row>, v: seq<Row>)
    requires NextTokens(x, t, n, q, k, v)
    ensures NextTokens(RotatedTokens(rope, x), t, n, Rotated(rope, q, t), Rotated(rope, k, t), v)
  {
    RotatedPart(rope, x.q, t, n);
    RotatedPart(rope, x.k, t, n);
  }

  /** kernel_rope: row s is rotated for position pos_offset + s. */
  method RopeNode(ctx: PassContext, rope: Rotation, x: seq<Row>) returns (y: seq<Row>)
    ensures y == Rotated(rope, x, ctx.RopePosition(|x|))
  {
    var offset := ctx.RopePosition(|x|);
    y := [];
    for s := 0 to |x|
      invariant |y| == s && forall i :: 0 <= i < s ==> y[i] == rope(x[i], offset + i)
    {
      y := y + [rope(x[s], offset + s)];
    }
  }

  /** The nodes of one layer: RoPE on the queries and keys of the next n tokens, and attention. RoPE starts at the very
      position at which attention copies the first row: behind all cached tokens. */
  method LayerNodes(ctx: PassContext, cache: KVCache, rope: Rotation, e: real -> real, l: nat, x: Tokens, n: nat,
                    o: seq<Row>, p: Shape, tile: nat, width: nat)
    returns (o': seq<Row>, start: nat)
    requires OnContiguous(ctx, cache, n) && IsExp(e) && GoodShape(p) && tile > 0 && width > 0 && KeepsSize(rope)
    requires l < |cache.layers| && n > 0 && (cache.cachedLen > 0 ==> n == 1)
    requires cache.cachedLen + n <= |x.q| <= cache.maxLen && |x.q| * KvSize(p) <= cache.maxLen * cache.hidden
    requires TokenRowsFit(x, p)
    requires LayerAt(cache.layers[l], o, RotatedTokens(rope, x), cache.cachedLen, e, p)
    modifies cache`layers
    ensures OnContiguous(ctx, cache, n) && |cache.layers| == |old(cache.layers)|
    ensures start == old(ctx.RopePosition(n))
    ensures CopiedRows(old(cache.layers)[l], cache.layers[l], start, RotatedTokens(rope, x).k[start..start + n],
                       x.v[start..start + n], KvSize(p))
    ensures LayerAt(cache.layers[l], o', RotatedTokens(rope, x), cache.cachedLen + n, e, p)
    ensures forall m :: 0 <= m < |cache.layers| && m != l ==> cache.layers[m] == old(cache.layers)[m]
  {
    var t := cache.cachedLen;
    start := ctx.RopePosition(n);
    var q := RopeNode(ctx, rope, x.q[t..t + n]);
    var k := RopeNode(ctx, rope, x.k[t..t + n]);
    RotatedFit(rope, x, p);
    RotatedNext(rope, x, t, n, x.q[t..t + n], x.k[t..t + n], x.v[t..t + n]);
    o' := StepLayer(cache, e, l, q, k, x.v[t..t + n], RotatedTokens(rope, x), |x.q|, n, o, p, tile, width);
  }

  /** The nodes of all layers; every layer starts at the same position. */
  method AllLayers(ctx: PassContext, cache: KVCache, rope: Rotation, e: real -> real, xs: seq<Tokens>, total: nat,
                   n: nat, os: seq<seq<Row>>, p: Shape, tile: nat, width: nat)
    returns (os': seq<seq<Row>>, starts: seq<nat>)
    requires OnContiguous(ctx, cache, n) && IsExp(e) && GoodShape(p) && tile > 0 && width > 0 && KeepsSize(rope)
    requires n > 0 && (cache.cachedLen > 0 ==> n == 1) && cache.cachedLen + n <= total <= cache.maxLen
    requires total * KvSize(p) <= cache.maxLen * cache.hidden && TokensFit(xs, total, p) && |os| == |xs|
    requires LayersAt(cache.layers, os, AllRotated(rope, xs), |xs|, 0, cache.cachedLen, e, p)
    modifies cache`layers
    ensures OnContiguous(ctx, cache, n) && |os'| == |xs| == |starts|
    ensures forall l :: 0 <= l < |xs| ==> starts[l] == cache.cachedLen
    ensures LayersAt(cache.layers, os', AllRotated(rope, xs), |xs|, n, cache.cachedLen, e, p)
  {
    os', starts := os, [];
    for l := 0 to |xs|
      invariant OnContiguous(ctx, cache, n) && |os'| == |xs| && |starts| == l
      invariant forall m :: 0 <= m < l ==> starts[m] == cache.cachedLen
      invariant LayersAt(cache.layers, os', AllRotated(rope, xs), l, n, cache.cachedLen, e, p)
    {
      ghost var layers, outs := cache.layers, os';
      LayerReady(layers, os', rope, xs, l, n, cache.cachedLen, total, e, p);
      var o, start := LayerNodes(ctx, cache, rope, e, l, xs[l], n, os'[l], p, tile, width);
      os', starts := os'[l := o], starts + [start];
      LayerSteps(layers, cache.layers, outs, os', AllRotated(rope, xs), l, n, cache.cachedLen, e, p);
    }
  }

  lemma LayerReady(layers: seq<KVLayer>, os: seq<seq<Row>>, rope: Rotation, xs: seq<Tokens>, l: nat, n: nat, t: nat,
                   total: nat, e: real -> real, p: Shape)
    requires l < |xs| == |os| && TokensFit(xs, total, p) && LayersAt(layers, os, AllRotated(rope, xs), l, n, t, e, p)
    ensures l < |layers| && TokenRowsFit(xs[l], p) && |xs[l].q| == total
    ensures LayerAt(layers[l], os[l], RotatedTokens(rope, xs[l]), t, e, p)
  {
  }

  lemma LayerSteps(layers: seq<KVLayer>, layers': seq<KVLayer>, os: seq<seq<Row>>, os': seq<seq<Row>>, ys: seq<Tokens>,
                   l: nat, n: nat, t: nat, e: real -> real, p: Shape)
    requires l < |ys| == |os| == |os'| && LayersAt(layers, os, ys, l, n, t, e, p)
    requires |layers'| == |layers| && forall m :: 0 <= m < |layers| && m != l ==> layers'[m] == layers[m]
    requires forall m :: 0 <= m < |os| && m != l ==> os'[m] == os[m]
    requires LayerAt(layers'[l], os'[l], ys[l], t + n, e, p)
    ensures LayersAt(layers', os', ys, l + 1, n, t, e, p)
  {
    forall j | 0 <= j < |ys| ensures LayerAt(layers'[j], os'[j], ys[j], if j < l + 1 then t + n else t, e, p) {
      assert LayerAt(layers[j], os[j], ys[j], if j < l then t + n else t, e, p);
    }
  }

  /** One pass: all layers, and then the length that they share moves on. */
  method RunLayers(ctx: PassContext, cache: KVCache, rope: Rotation, e: real -> real, xs: seq<Tokens>, total: nat,
                   n: nat, os: seq<seq<Row>>, p: Shape, tile: nat, width: nat)
    returns (st: Status, os': seq<seq<Row>>, starts: seq<nat>)
    requires OnContiguous(ctx, cache, n) && IsExp(e) && GoodShape(p) && tile > 0 && width > 0 && KeepsSize(rope)
    requires n > 0 && (cache.cachedLen > 0 ==> n == 1) && cache.cachedLen + n <= total <= cache.maxLen
    requires total * KvSize(p) <= cache.maxLen * cache.hidden && TokensFit(xs, total, p) && |os| == |xs|
    requires LayersAt(cache.layers, os, AllRotated(rope, xs), |xs|, 0, cache.cachedLen, e, p)
    modifies ctx`writePos, cache
    ensures OnContiguous(ctx, cache, n) && cache.maxLen == old(cache.maxLen) && cache.hidden == old(cache.hidden)
    ensures st.Success? && cache.cachedLen == old(cache.cachedLen) + n && |os'| == |xs| == |starts|
    ensures forall l :: 0 <= l < |xs| ==> starts[l] == old(cache.cachedLen)
    ensures LayersAt(cache.layers, os', AllRotated(rope, xs), |xs|, 0, cache.cachedLen, e, p)
  {
    os', starts := AllLayers(ctx, cache, rope, e, xs, total, n, os, p, tile, width);
    LayersMoved(cache.layers, os', AllRotated(rope, xs), n, cache.cachedLen, e, p);
    st := ctx.AdvanceStep();
  }

  lemma LayersMoved(layers: seq<KVLayer>, os: seq<seq<Row>>, ys: seq<Tokens>, n: nat, t: nat, e: real -> real, p: Shape)
    requires |os| == |ys| && LayersAt(layers, os, ys, |ys|, n, t, e, p)
    ensures LayersAt(layers, os, ys, |ys|, 0, t + n, e, p)
  {
    forall j | 0 <= j < |ys| ensures LayerAt(layers[j], os[j], ys[j], t + n, e, p) {
    }
  }

  /** Prefill and then any number of decode steps, through all layers: in every layer, every token's output is causal
      attention over all tokens of that layer up to it, with every query and key rotated for its own position in the
      stream, whichever pass it came with. */
  method PrefillAndDecode(prefill: PassContext, decode: PassContext, cache: KVCache, rope: Rotation, e: real -> real,
                          xs: seq<Tokens>, total: nat, prompt: nat, p: Shape, tile: nat, width: nat)
    returns (os: seq<seq<Row>>)
    requires OnContiguous(prefill, cache, prompt) && OnContiguous(decode, cache, 1)
    requires IsExp(e) && GoodShape(p) && tile > 0 && width > 0 && KeepsSize(rope)
    requires |xs| == |cache.layers| && cache.cachedLen == 0 && 0 < prompt <= total <= cache.maxLen
    requires total * KvSize(p) <= cache.maxLen * cache.hidden && TokensFit(xs, total, p)
    modifies prefill`writePos, decode`writePos, cache
    ensures cache.Valid() && cache.cachedLen == total && |os| == |xs|
    ensures forall l :: 0 <= l < |xs| ==>
              |os[l]| == total &&
              CausalTokens(os[l], e, Rotated(rope, xs[l].q, 0), Rotated(rope, xs[l].k, 0), xs[l].v, p)
  {
    ghost var ys := AllRotated(rope, xs);
    os := seq(|xs|, _ => []);
    var st, starts;
    st, os, starts := RunLayers(prefill, cache, rope, e, xs, total, prompt, os, p, tile, width);
    for t := prompt to total
      invariant OnContiguous(decode, cache, 1) && cache.cachedLen == t && |os| == |xs|
      invariant total * KvSize(p) <= cache.maxLen * cache.hidden && total <= cache.maxLen
      invariant LayersAt(cache.layers, os, ys, |xs|, 0, t, e, p)
    {
      st, os, starts := RunLayers(decode, cache, rope, e, xs, total, 1, os, p, tile, width);
    }
    forall l | 0 <= l < |xs|
      ensures |os[l]| == total && CausalTokens(os[l], e, ys[l].q, ys[l].k, ys[l].v, p)
    {
      assert LayerAt(cache.layers[l], os[l], ys[l], total, e, p);
    }
  }
}
