/** The sequential reading of the online decode kernels of src/runtime/kernels/cuda_kernels.cu: one key at a time, with
    the running maximum starting from the lowest number. */
module BatchedAttention {
  import opened Arithmetic
  import opened AttentionProofs
  import opened AttentionSpec
  import opened PaddedTableSpec
  import opened PagedAttention
  import opened PagedAttentionSchedulers
  import opened PagedAttentionSpec
  import opened PagedCacheProofs
  import opened PagedCacheSpec
  import opened RealVectorSpec
  import opened RealVectors
  import opened Sequences

  // ---------------------------------------------------------------- one online step

  /** The sums so far, relative to any m. */
  ghost predicate Running(e: real -> real, s: seq<real>, v: seq<Row>, n: nat, m: real, l: real, o: Row) {
    |s| == |v| && AllOfSize(v, n) && l == Sum(Exps(e, s, m)) && o == WeightedSum(Exps(e, s, m), v, n)
  }

  lemma RunningNext(e: real -> real, s: seq<real>, v: seq<Row>, n: nat, m: real, l: real, o: Row, x: real, row: Row,
                    m': real, alpha: real, beta: real)
    requires IsExp(e) && Running(e, s, v, n, m, l, o) && |row| == n && alpha == e(m - m') && beta == e(x - m')
    ensures Running(e, s + [x], v + [row], n, m', l * alpha + beta, AddScaled(Scaled(o, alpha), beta, row))
  {
    ExpsShift(e, s, m, m');
    SumScaled(Exps(e, s, m), alpha);
    WeightedSumScaled(Exps(e, s, m), v, n, alpha);
    ExpsNext(e, s, x, m');
    SumNext(Exps(e, s, m'), beta);
    WeightedSumNext(Exps(e, s, m'), v, n, beta, row);
  }

  lemma RunningStart(e: real -> real, n: nat, m: real)
    ensures Running(e, [], [], n, m, 0.0, ZeroRow(n))
  {
  }

  /** One key: the body of the position loop. */
  method OnlineStep(e: real -> real, q: Row, key: Row, value: Row, scale: real, m: real, l: real, acc: Row,
                    ghost keys: seq<Row>, ghost values: seq<Row>)
    returns (m': real, l': real, acc': Row)
    requires IsExp(e) && |key| == |value| == |q| && AllOfSize(keys, |q|)
    requires Running(e, Scores(q, keys, scale), values, |q|, m, l, acc)
    ensures AllOfSize(keys + [key], |q|)
    ensures Running(e, Scores(q, keys + [key], scale), values + [value], |q|, m', l', acc')
    ensures m <= m' && Score(q, key, scale) <= m'
  {
    var dot := DotPlain(q, key);
    var x := dot * scale;
    m' := if m < x then x else m;
    var alpha, beta := e(m - m'), e(x - m');
    RunningNext(e, Scores(q, keys, scale), values, |q|, m, l, acc, x, value, m', alpha, beta);
    ScoresNext(q, keys, key, scale, x);
    acc' := AddScaled(Scaled(acc, alpha), beta, value);
    l' := l * alpha + beta;
  }

  // ---------------------------------------------------------------- contiguous rows

  /** kv_cache_attention_decode_kernel for one query head: the same attention as the CPU kernels compute. */
  method OnlineHead(e: real -> real, q: Row, k: seq<Row>, v: seq<Row>, kvHead: nat, scale: real, lowest: real)
    returns (o: Row)
    requires IsExp(e) && |k| == |v| > 0 && HasHead(k, kvHead, |q|) && HasHead(v, kvHead, |q|)
    ensures o == DecodeHead(e, q, k, v, kvHead, scale)
  {
    var m, l, acc := lowest, 0.0, ZeroRow(|q|);
    ghost var keys, values := Heads(k, kvHead, |q|), Heads(v, kvHead, |q|);
    RunningStart(e, |q|, m);
    for pos := 0 to |k|
      invariant Running(e, Scores(q, keys[..pos], scale), values[..pos], |q|, m, l, acc)
    {
      m, l, acc := OnlineStep(e, q, Head(k[pos], kvHead, |q|), Head(v[pos], kvHead, |q|), scale, m, l, acc, keys[..pos],
                              values[..pos]);
      NextSlice(keys, pos);
      NextSlice(values, pos);
    }
    assert keys[..|k|] == keys && values[..|k|] == values;
    NormalizedSum(e, Scores(q, keys, scale), values, |q|, m);
    o := Scaled(acc, 1.0 / l);
  }

  // ---------------------------------------------------------------- rows behind a padded table

  /** The row at a padded index, if the layer has one. */
  lemma PaddedRow(batch: Batch, c: Cache, rows: Rows, ids: seq<int>, b: nat, l: nat, pos: nat, kvHead: nat)
    requires Good(c) && Stores(c, rows) && Describes(batch, c, ids) && b < batch.size && pos < batch.lengths[b]
    requires l < |c.layers| && kvHead < c.heads
    ensures b * batch.stride + pos / batch.blockSize < |batch.tables|
    ensures var i, d := PaddedIndex(batch, b, pos) + kvHead * c.headDim, c.headDim;
            && 0 <= i && i + d <= |c.layers[l].k| && i + d <= |c.layers[l].v|
            && ids[b] >= 0
            && ((ids[b], l, pos) in rows ==>
                  && ReadHead(c.layers[l].k[i..i + d], true, rows[(ids[b], l, pos)], kvHead, d)
                  && ReadHead(c.layers[l].v[i..i + d], false, rows[(ids[b], l, pos)], kvHead, d))
  {
    PaddedAddress(batch, c, ids, b, pos);
    var s, i, d := ids[b], PaddedIndex(batch, b, pos), c.headDim;
    HeadInside(c, s, l, pos, kvHead);
    RowIsInside(c, s, l, pos);
    assert (s, l, pos) in rows ==> StoredAt(c, rows, (s, l, pos));
  }

  /** The table is wide enough for the whole length, so the kernel's cut-off does not cut. */
  lemma WideEnough(batch: Batch, c: Cache, ids: seq<int>, b: nat)
    requires Describes(batch, c, ids) && b < batch.size
    ensures batch.lengths[b] <= batch.stride * batch.blockSize
  {
    CeilIsNeeded(batch.lengths[b], c.blockSize);
    CeilCovers(batch.lengths[b], c.blockSize, batch.stride);
  }

  /** paged_attention_decode_batch_kernel for one batch entry and query head: attention over the rows that the cache
      keeps for that sequence, exactly as reading them one by one through the cache. */
  method BatchHead(batch: Batch, layer: Layer, b: nat, q: Row, kvHead: nat, e: real -> real, scale: real, lowest: real,
                   ghost c: Cache, ghost rows: Rows, ghost ids: seq<int>, ghost l: nat)
    returns (o: Row)
    requires IsExp(e) && Good(c) && Stores(c, rows) && Describes(batch, c, ids) && b < batch.size
    requires l < |c.layers| && layer == c.layers[l] && kvHead < c.heads && |q| == c.headDim
    ensures ids[b] >= 0
    ensures WrittenUpTo(rows, ids[b], l, batch.lengths[b]) ==>
              AttendsRows(o, e, q, rows, ids[b], l, batch.lengths[b], kvHead, scale)
  {
    WideEnough(batch, c, ids, b);
    var len := Min(batch.lengths[b], batch.stride * batch.blockSize);
    var m, sum, acc := lowest, 0.0, ZeroRow(|q|);
    ghost var keys: seq<Row>, values: seq<Row> := [], [];
    RunningStart(e, |q|, m);
    for pos := 0 to len
      invariant |keys| == |values| == pos && AllOfSize(keys, |q|)
      invariant ReadHeads(keys, true, rows, ids[b], l, kvHead, |q|)
      invariant ReadHeads(values, false, rows, ids[b], l, kvHead, |q|)
      invariant Running(e, Scores(q, keys, scale), values, |q|, m, sum, acc)
    {
      // Below the length the entry is one of the sequence's blocks, never the padding that the kernel would skip.
      PaddedRow(batch, c, rows, ids, b, l, pos, kvHead);
      var base := PaddedIndex(batch, b, pos) + kvHead * |q|;
      var key, value := layer.k[base..base + |q|], layer.v[base..base + |q|];
      m, sum, acc := OnlineStep(e, q, key, value, scale, m, sum, acc, keys, values);
      ReadNext(keys, key, true, rows, ids[b], l, kvHead, |q|);
      ReadNext(values, value, false, rows, ids[b], l, kvHead, |q|);
      keys, values := keys + [key], values + [value];
    }
    assert AllPresent(c, ids) && LengthsOf(c, ids, batch.lengths);
    assert ids[b] >= 0 && len > 0;
    NormalizedSum(e, Scores(q, keys, scale), values, |q|, m);
    o := Scaled(acc, 1.0 / sum);
    HeadRead(keys, values, e, q, rows, ids[b], l, len, kvHead, scale, o);
  }
}
