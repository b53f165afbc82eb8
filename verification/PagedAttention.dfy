/** Attention over the rows of the paged cache. */
module PagedAttentionSpec {
  import opened AttentionSpec
  import opened PagedCacheSpec
  import opened RealVectorSpec

  /** All rows below n of one sequence and layer have been written. */
  ghost predicate WrittenUpTo(rows: Rows, s: nat, l: nat, n: nat) {
    forall pos: nat :: pos < n ==> (s, l, pos) in rows
  }

  ghost function KeysUpTo(rows: Rows, s: nat, l: nat, n: nat): (r: seq<Row>)
    requires WrittenUpTo(rows, s, l, n)
    ensures |r| == n
  {
    seq(n, pos requires 0 <= pos < n => rows[(s, l, pos)].0)
  }

  ghost function ValuesUpTo(rows: Rows, s: nat, l: nat, n: nat): (r: seq<Row>)
    requires WrittenUpTo(rows, s, l, n)
    ensures |r| == n
  {
    seq(n, pos requires 0 <= pos < n => rows[(s, l, pos)].1)
  }

  /** Attention of one head over the written rows below n. */
  ghost predicate AttendsRows(o: Row, e: real -> real, q: Row, rows: Rows, s: nat, l: nat, n: nat, kvHead: nat,
                              scale: real) {
    && WrittenUpTo(rows, s, l, n)
    && HasHead(KeysUpTo(rows, s, l, n), kvHead, |q|) && HasHead(ValuesUpTo(rows, s, l, n), kvHead, |q|)
    && o == DecodeHead(e, q, KeysUpTo(rows, s, l, n), ValuesUpTo(rows, s, l, n), kvHead, scale)
  }

  /** What reading one head of the first n positions yields: the head of every written row, something of the right size
      otherwise. */
  ghost predicate ReadHeads(read: seq<Row>, isKey: bool, rows: Rows, s: int, l: int, kvHead: int, size: nat) {
    && AllOfSize(read, size)
    && (s >= 0 && l >= 0 && kvHead >= 0 ==>
          forall pos: nat :: pos < |read| && (s, l, pos) in rows ==>
            ReadHead(read[pos], isKey, rows[(s, l, pos)], kvHead, size))
  }

  ghost predicate ReadHead(read: Row, isKey: bool, pair: (Row, Row), kvHead: nat, size: nat) {
    var row := if isKey then pair.0 else pair.1;
    kvHead * size + size <= |row| && read == Head(row, kvHead, size)
  }

  /** Heads of one token from row-major [heads, n] outputs over the written rows. */
  ghost predicate HeadsAttend(out: seq<Row>, e: real -> real, q: seq<Row>, rows: Rows, s: nat, l: nat, n: nat,
                              group: nat, scale: real) {
    && group > 0 && |out| <= |q|
    && forall h: nat :: h < |out| ==> AttendsRows(out[h], e, q[h], rows, s, l, n, h / group, scale)
  }
}

module PagedAttention {
  import opened AttentionKernels
  import opened AttentionProofs
  import opened AttentionSpec
  import opened PagedAttentionSpec
  import opened PagedCacheProofs
  import opened PagedCacheSpec
  import opened PagedKVCaches
  import opened RealVectorSpec
  import opened RealVectors
  import opened TokenAttention
  import opened TokenAttentionSpec
  import opened Wrappers

  // ---------------------------------------------------------------- one head

  lemma ReadIsHeads(read: seq<Row>, isKey: bool, rows: Rows, s: nat, l: nat, kvHead: nat, size: nat)
    requires ReadHeads(read, isKey, rows, s, l, kvHead, size) && WrittenUpTo(rows, s, l, |read|)
    ensures var all := if isKey then KeysUpTo(rows, s, l, |read|) else ValuesUpTo(rows, s, l, |read|);
            HasHead(all, kvHead, size) && Heads(all, kvHead, size) == read
  {
    var all := if isKey then KeysUpTo(rows, s, l, |read|) else ValuesUpTo(rows, s, l, |read|);
    forall pos: nat | pos < |read|
      ensures kvHead * size + size <= |all[pos]| && read[pos] == Head(all[pos], kvHead, size) {
      assert ReadHead(read[pos], isKey, rows[(s, l, pos)], kvHead, size);
    }
  }

  lemma HeadRead(keys: seq<Row>, values: seq<Row>, e: real -> real, q: Row, rows: Rows, s: nat, l: nat, n: nat,
                 kvHead: nat, scale: real, o: Row)
    requires |keys| == |values| == n && ReadHeads(keys, true, rows, s, l, kvHead, |q|)
    requires ReadHeads(values, false, rows, s, l, kvHead, |q|)
    requires o == Attend(e, q, keys, values, scale)
    ensures WrittenUpTo(rows, s, l, n) ==> AttendsRows(o, e, q, rows, s, l, n, kvHead, scale)
  {
    if WrittenUpTo(rows, s, l, n) {
      ReadIsHeads(keys, true, rows, s, l, kvHead, |q|);
      ReadIsHeads(values, false, rows, s, l, kvHead, |q|);
    }
  }

  lemma ScoresNext(q: Row, keys: seq<Row>, key: Row, scale: real, x: real)
    requires AllOfSize(keys, |q|) && |key| == |q| && x == Score(q, key, scale)
    ensures AllOfSize(keys + [key], |q|)
    ensures Scores(q, keys + [key], scale) == Scores(q, keys, scale) + [x]
  {
    var a, b := Scores(q, keys + [key], scale), Scores(q, keys, scale) + [x];
    forall i | 0 <= i < |a| ensures a[i] == b[i] {
      if i < |keys| {
        assert (keys + [key])[i] == keys[i] && b[i] == Scores(q, keys, scale)[i];
      } else {
        assert (keys + [key])[i] == key;
      }
    }
    assert a == b;
  }

  lemma ReadNext(read: seq<Row>, row: Row, isKey: bool, rows: Rows, s: int, l: int, kvHead: int, size: nat)
    requires ReadHeads(read, isKey, rows, s, l, kvHead, size) && |row| == size
    requires s >= 0 && l >= 0 && kvHead >= 0 && (s, l, |read|) in rows ==>
               ReadHead(row, isKey, rows[(s, l, |read|)], kvHead, size)
    ensures ReadHeads(read + [row], isKey, rows, s, l, kvHead, size)
  {
    var longer := read + [row];
    if s >= 0 && l >= 0 && kvHead >= 0 {
      forall pos: nat | pos < |longer| && (s, l, pos) in rows
        ensures ReadHead(longer[pos], isKey, rows[(s, l, pos)], kvHead, size) {
        assert pos < |read| ==> longer[pos] == read[pos];
      }
    }
  }

  /** The first loop: scores of the first n cached keys. A missing position or head ends the call. */
  method ReadScores(cache: PagedKVCache, s: int, l: int, q: Row, n: nat, kvHead: int, scale: real, lowest: real)
    returns (r: Result<seq<real>, ErrorCode>, top: real, ghost keys: seq<Row>)
    requires cache.Valid() && |q| == cache.headDim
    ensures r.Err? ==> r.error == OutOfRange
    ensures n > 0 ==> (r.Ok? <==> 0 <= l < |cache.layers| && 0 <= kvHead < cache.heads &&
                                  n <= Entry(cache.State(), s).length)
    ensures r.Ok? ==> |keys| == n && AllOfSize(keys, |q|) && r.value == Scores(q, keys, scale)
    ensures r.Ok? ==> ReadHeads(keys, true, cache.rows, s, l, kvHead, |q|)
  {
    var scores: seq<real> := [];
    top, keys := lowest, [];
    for pos := 0 to n
      invariant |keys| == pos && AllOfSize(keys, |q|) && scores == Scores(q, keys, scale)
      invariant ReadHeads(keys, true, cache.rows, s, l, kvHead, |q|)
      invariant pos > 0 ==> 0 <= l < |cache.layers| && 0 <= kvHead < cache.heads &&
                            pos <= Entry(cache.State(), s).length
    {
      var key := cache.ReadToken(true, s, l, pos, kvHead);
      if key.Err? {
        return Err(OutOfRange), top, keys;
      }
      var dot := DotPlain(q, key.value);
      var x := dot * scale;
      ScoresNext(q, keys, key.value, scale, x);
      ReadNext(keys, key.value, true, cache.rows, s, l, kvHead, |q|);
      scores := scores + [x];
      keys := keys + [key.value];
      top := if top < x then x else top;
    }
    return Ok(scores), top, keys;
  }

  /** The second loop: exponentials and their sum. */
  method ExpSum(e: real -> real, scores: seq<real>, top: real) returns (weights: seq<real>, sum: real)
    ensures weights == Exps(e, scores, top) && sum == Sum(weights)
  {
    weights, sum := [], 0.0;
    for pos := 0 to |scores|
      invariant weights == Exps(e, scores[..pos], top) && sum == Sum(weights)
    {
      assert scores[..pos + 1] == scores[..pos] + [scores[pos]];
      ExpsNext(e, scores[..pos], scores[pos], top);
      var x := e(scores[pos] - top);
      SumNext(weights, x);
      weights := weights + [x];
      sum := sum + x;
    }
    assert scores[..|scores|] == scores;
  }

  /** The third loop: the weighted sum of the cached values. */
  method ReadValues(cache: PagedKVCache, s: int, l: int, n: nat, kvHead: int, e: real -> real, weights: seq<real>,
                    sum: real, ghost scores: seq<real>, ghost top: real)
    returns (o: Row, ghost values: seq<Row>)
    requires cache.Valid() && IsExp(e) && |weights| == |scores| == n && n > 0
    requires weights == Exps(e, scores, top) && sum == Sum(weights)
    requires 0 <= l < |cache.layers| && 0 <= kvHead < cache.heads && n <= Entry(cache.State(), s).length
    ensures s >= 0 && |values| == n && ReadHeads(values, false, cache.rows, s, l, kvHead, cache.headDim)
    ensures o == WeightedSum(Softmax(e, scores), values, cache.headDim)
  {
    o, values := ZeroRow(cache.headDim), [];
    LengthInside(cache.State(), s, 0);
    for pos := 0 to n
      invariant |values| == pos && ReadHeads(values, false, cache.rows, s, l, kvHead, cache.headDim)
      invariant o == WeightedSum(Softmax(e, scores)[..pos], values, cache.headDim)
    {
      var v := cache.ReadToken(false, s, l, pos, kvHead);
      DivideIsScale(e, scores, top, pos);
      var weight := weights[pos] / sum;
      assert Softmax(e, scores)[..pos + 1] == Softmax(e, scores)[..pos] + [weight];
      WeightedSumNext(Softmax(e, scores)[..pos], values, cache.headDim, weight, v.value);
      ReadNext(values, v.value, false, cache.rows, s, l, kvHead, cache.headDim);
      o := AddScaled(o, weight, v.value);
      values := values + [v.value];
    }
    assert Softmax(e, scores)[..n] == Softmax(e, scores);
  }

  /** One head over the first n cached positions. */
  method PagedHead(cache: PagedKVCache, s: int, l: int, q: Row, n: nat, kvHead: int, e: real -> real, scale: real,
                   lowest: real)
    returns (r: Result<Row, ErrorCode>)
    requires cache.Valid() && IsExp(e) && |q| == cache.headDim && n > 0
    ensures r.Err? ==> r.error == OutOfRange
    ensures r.Ok? <==> 0 <= l < |cache.layers| && 0 <= kvHead < cache.heads && n <= Entry(cache.State(), s).length
    ensures r.Ok? ==> s >= 0 && |r.value| == |q|
    ensures r.Ok? && WrittenUpTo(cache.rows, s, l, n) ==> AttendsRows(r.value, e, q, cache.rows, s, l, n, kvHead, scale)
  {
    var read, top, keys := ReadScores(cache, s, l, q, n, kvHead, scale, lowest);
    if read.Err? {
      return Err(read.error);
    }
    var weights, sum := ExpSum(e, read.value, top);
    SumPositive(e, read.value, top);
    LengthInside(cache.State(), s, 0);
    var o, values := ReadValues(cache, s, l, n, kvHead, e, weights, sum, read.value, top);
    HeadRead(keys, values, e, q, cache.rows, s, l, n, kvHead, scale, o);
    return Ok(o);
  }

  /** paged_attention_decode: one query token over everything that the sequence holds. */
  method PagedDecode(cache: PagedKVCache, s: int, l: int, q: seq<Row>, heads: int, headDim: int, e: real -> real,
                     scale: real, lowest: real)
    returns (r: Result<seq<Row>, ErrorCode>)
    requires cache.Valid() && IsExp(e) && (heads > 0 && headDim > 0 ==> |q| == heads && AllOfSize(q, headDim))
    ensures var n := Entry(cache.State(), s).length;
            && (r.Ok? <==> Initialized(cache.State()) && heads > 0 && headDim == cache.headDim &&
                           heads % cache.heads == 0
                           && n > 0 && 0 <= l < |cache.layers|)
            && (r.Ok? ==> s >= 0 && |r.value| == heads && AllOfSize(r.value, headDim))
            && (r.Ok? && WrittenUpTo(cache.rows, s, l, n) ==>
                  HeadsAttend(r.value, e, q, cache.rows, s, l, n, heads / cache.heads, scale))
  {
    if !(cache.blockSize > 0 && cache.maxBlocks > 0) {
      return Err(RuntimeError);
    }
    if heads <= 0 || headDim <= 0 {
      return Err(InvalidArgument);
    }
    if headDim != cache.headDim {
      return Err(ShapeMismatch);
    }
    if heads % cache.heads != 0 {
      return Err(InvalidArgument);
    }
    var n := cache.SequenceLength(s);
    if n <= 0 {
      return Err(InvalidArgument);
    }
    LengthInside(cache.State(), s, 0);
    GroupCovers(heads, cache.heads);
    r := PagedHeads(cache, s, l, q, n, heads, heads / cache.heads, e, scale, lowest);
  }

  lemma HeadsNext(out: seq<Row>, row: Row, e: real -> real, q: seq<Row>, rows: Rows, s: nat, l: nat, n: nat, group: nat,
                  scale: real)
    requires HeadsAttend(out, e, q, rows, s, l, n, group, scale) && |out| < |q|
    requires AttendsRows(row, e, q[|out|], rows, s, l, n, |out| / group, scale)
    ensures HeadsAttend(out + [row], e, q, rows, s, l, n, group, scale)
  {
    var longer := out + [row];
    forall h: nat | h < |longer| ensures AttendsRows(longer[h], e, q[h], rows, s, l, n, h / group, scale) {
      assert h < |out| ==> longer[h] == out[h];
    }
  }

  /** The head loop, over the first n positions. */
  method PagedHeads(cache: PagedKVCache, s: int, l: int, q: seq<Row>, n: nat, heads: nat, group: nat, e: real -> real,
                    scale: real, lowest: real)
    returns (r: Result<seq<Row>, ErrorCode>)
    requires cache.Valid() && IsExp(e) && n > 0 && group > 0 && heads == cache.heads * group > 0
    requires |q| == heads && AllOfSize(q, cache.headDim)
    ensures r.Ok? <==> 0 <= l < |cache.layers| && n <= Entry(cache.State(), s).length
    ensures r.Ok? ==> s >= 0 && |r.value| == heads && AllOfSize(r.value, cache.headDim)
    ensures r.Ok? && WrittenUpTo(cache.rows, s, l, n) ==> HeadsAttend(r.value, e, q, cache.rows, s, l, n, group, scale)
  {
    var out: seq<Row> := [];
    for h := 0 to heads
      invariant |out| == h && AllOfSize(out, cache.headDim)
      invariant h > 0 ==> 0 <= l < |cache.layers| && n <= Entry(cache.State(), s).length && s >= 0
      invariant s >= 0 && l >= 0 && WrittenUpTo(cache.rows, s, l, n) ==>
                  HeadsAttend(out, e, q, cache.rows, s, l, n, group, scale)
    {
      GroupedHead(h, heads, cache.heads, group);
      var row := PagedHead(cache, s, l, q[h], n, h / group, e, scale, lowest);
      if row.Err? {
        return Err(row.error);
      }
      if WrittenUpTo(cache.rows, s, l, n) {
        HeadsNext(out, row.value, e, q, cache.rows, s, l, n, group, scale);
      }
      out := out + [row.value];
    }
    return Ok(out);
  }
}
