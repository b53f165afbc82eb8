/** Attention of whole tokens: every token is a row that holds all its heads side by side. */
module TokenAttentionSpec {
  import opened AttentionSpec
  import opened RealVectorSpec

  /** Head counts, head size and score scale; group query heads share one key head. */
  datatype Shape = Shape(heads: nat, kvHeads: nat, group: nat, n: nat, scale: real)

  /** The query, key and value rows of consecutive tokens in one layer. */
  datatype Tokens = Tokens(q: seq<Row>, k: seq<Row>, v: seq<Row>)

  predicate GoodShape(p: Shape) {
    p.group > 0 && p.n > 0 && p.heads == p.kvHeads * p.group
  }

  function QSize(p: Shape): nat { p.heads * p.n }

  function KvSize(p: Shape): nat { p.kvHeads * p.n }

  ghost predicate HeadAttends(o: Row, e: real -> real, q: Row, k: seq<Row>, v: seq<Row>, h: nat, p: Shape) {
    && p.group > 0 && |k| == |v|
    && h * p.n + p.n <= |o| && h * p.n + p.n <= |q| && HasHead(k, h / p.group, p.n) && HasHead(v, h / p.group, p.n)
    && Head(o, h, p.n) == DecodeHead(e, Head(q, h, p.n), k, v, h / p.group, p.scale)
  }

  /** o is what a token with query row q attends to over the key and value rows k and v. */
  ghost predicate TokenAttends(o: Row, e: real -> real, q: Row, k: seq<Row>, v: seq<Row>, p: Shape) {
    |o| == QSize(p) && forall h: nat :: h < p.heads ==> HeadAttends(o, e, q, k, v, h, p)
  }

  /** Full attention over a chunk of tokens: token t sees all tokens, or those up to itself when causal. */
  ghost predicate ChunkAttends(o: seq<Row>, e: real -> real, q: seq<Row>, k: seq<Row>, v: seq<Row>, causal: bool,
                               p: Shape) {
    && |o| == |q| == |k| == |v|
    && forall t: nat :: t < |o| ==>
         TokenAttends(o[t], e, q[t], if causal then k[..t + 1] else k, if causal then v[..t + 1] else v, p)
  }

  // ---------------------------------------------------------------- buffers between the layouts

  /** buf holds the heads of the tokens x in [heads, tokens] order; head h of the buffer is head h / group of the
      token. */
  ghost predicate InterleavedAt(buf: seq<Row>, x: seq<Row>, s: nat, h: nat, group: nat, n: nat) {
    && group > 0 && s < |x| && h * |x| + s < |buf| && h / group * n + n <= |x[s]|
    && buf[h * |x| + s] == Head(x[s], h / group, n)
  }

  /** Done for the first s tokens and the first h heads of the next. */
  ghost predicate Interleaved(buf: seq<Row>, x: seq<Row>, s: nat, h: nat, heads: nat, group: nat, n: nat) {
    && |buf| == heads * |x| && AllOfSize(buf, n)
    && forall t: nat, g: nat :: g < heads && (t < s || (t == s && g < h)) ==> InterleavedAt(buf, x, t, g, group, n)
  }

  /** Row o of a token takes head g from entry g * len + s of the buffer. */
  ghost predicate TokenOf(o: Row, buf: seq<Row>, s: nat, h: nat, len: nat, n: nat) {
    |o| == h * n && forall g: nat :: g < h ==> TokenOfAt(o, buf, s, g, len, n)
  }

  ghost predicate TokenOfAt(o: Row, buf: seq<Row>, s: nat, g: nat, len: nat, n: nat) {
    g * n + n <= |o| && g * len + s < |buf| && Head(o, g, n) == buf[g * len + s]
  }
}

module TokenAttention {
  import opened Arithmetic
  import opened Sequences
  import opened AttentionKernels
  import opened AttentionSpec
  import opened RealVectorSpec
  import opened TokenAttentionSpec
  import opened Wrappers

  /** The argument checks of the attention kernel: a shape comes out exactly when the counts are positive, the query
      heads are a multiple of the key heads, and the row sizes are those of the heads. */
  function CheckShape(heads: int, kvHeads: int, headDim: int, qHidden: int, kvHidden: int,
                      scale: real): (r: Result<Shape, ErrorCode>)
    ensures r.Ok? <==> heads > 0 && kvHeads > 0 && headDim > 0 && heads % kvHeads == 0
                       && qHidden == heads * headDim && kvHidden == kvHeads * headDim
    ensures r.Ok? ==> GoodShape(r.value) && QSize(r.value) == qHidden && KvSize(r.value) == kvHidden
    ensures r.Err? ==> (r.error == InvalidArgument <==>
                          heads <= 0 || kvHeads <= 0 || headDim <= 0 || heads % kvHeads != 0)
  {
    if heads <= 0 || kvHeads <= 0 || headDim <= 0 then Err(InvalidArgument)
    else if heads % kvHeads != 0 then Err(InvalidArgument)
    else if qHidden != heads * headDim then Err(ShapeMismatch)
    else if kvHidden != kvHeads * headDim then Err(ShapeMismatch)
    else
      GroupCovers(heads, kvHeads);
      Ok(Shape(heads, kvHeads, heads / kvHeads, headDim, scale))
  }

  lemma GroupCovers(heads: nat, kvHeads: nat)
    requires heads > 0 && kvHeads > 0 && heads % kvHeads == 0
    ensures heads / kvHeads > 0 && heads == kvHeads * (heads / kvHeads)
  {
    var g := heads / kvHeads;
    assert heads == kvHeads * g + heads % kvHeads;
    if g == 0 {
      assert false;
    }
  }

  /** Query heads j * group to j * group + group - 1 share key head j. */
  lemma HeadsShareKeys(o: Row, e: real -> real, q: Row, k: seq<Row>, v: seq<Row>, p: Shape, j: nat, m: nat)
    requires GoodShape(p) && TokenAttends(o, e, q, k, v, p) && j < p.kvHeads && m < p.group
    ensures j * p.group + m < p.heads
    ensures var h := j * p.group + m;
            && h * p.n + p.n <= |o| && h * p.n + p.n <= |q| && |k| == |v| && HasHead(k, j, p.n) && HasHead(v, j, p.n)
            && Head(o, h, p.n) == DecodeHead(e, Head(q, h, p.n), k, v, j, p.scale)
  {
    var h := j * p.group + m;
    SlotBelow(j, p.group, m, p.kvHeads);
    InSlot(j, p.group, m);
    assert HeadAttends(o, e, q, k, v, h, p);
  }

  // ---------------------------------------------------------------- layouts

  lemma InterleaveStep(buf: seq<Row>, x: seq<Row>, s: nat, h: nat, heads: nat, group: nat, n: nat)
    requires Interleaved(buf, x, s, h, heads, group, n) && s < |x| && h < heads && group > 0
    requires h / group * n + n <= |x[s]|
    ensures h * |x| + s < |buf|
    ensures Interleaved(buf[h * |x| + s := Head(x[s], h / group, n)], x, s, h + 1, heads, group, n)
  {
    SlotBelow(h, |x|, s, heads);
    var buf' := buf[h * |x| + s := Head(x[s], h / group, n)];
    forall t: nat, g: nat | g < heads && (t < s || (t == s && g < h + 1))
      ensures InterleavedAt(buf', x, t, g, group, n) {
      if t != s || g != h {
        assert InterleavedAt(buf, x, t, g, group, n);
        SlotsDiffer(h, s, g, t, |x|);
      }
    }
  }

  /** The copy loops that bring tokens into [heads, tokens] order, repeating each key head for its group. */
  method Interleave(x: seq<Row>, heads: nat, kvHeads: nat, group: nat, n: nat) returns (buf: seq<Row>)
    requires group > 0 && heads == kvHeads * group && AllOfSize(x, kvHeads * n)
    ensures Interleaved(buf, x, |x|, 0, heads, group, n)
  {
    buf := seq(heads * |x|, _ => ZeroRow(n));
    for s := 0 to |x|
      invariant Interleaved(buf, x, s, 0, heads, group, n)
    {
      for h := 0 to heads
        invariant Interleaved(buf, x, s, h, heads, group, n)
      {
        GroupedHead(h, heads, kvHeads, group);
        HeadFitsBelow(h / group, kvHeads, n);
        InterleaveStep(buf, x, s, h, heads, group, n);
        buf := buf[h * |x| + s := Head(x[s], h / group, n)];
      }
      InterleaveTurn(buf, x, s, heads, group, n);
    }
  }

  lemma InterleaveTurn(buf: seq<Row>, x: seq<Row>, s: nat, heads: nat, group: nat, n: nat)
    requires Interleaved(buf, x, s, heads, heads, group, n)
    ensures Interleaved(buf, x, s + 1, 0, heads, group, n)
  {
  }

  lemma HeadAppended(o: Row, row: Row, h: nat, g: nat, n: nat)
    requires |o| == h * n && |row| == n && g <= h
    ensures |o + row| == (h + 1) * n && g * n + n <= |o + row|
    ensures Head(o + row, g, n) == if g == h then row else if g * n + n <= |o| then Head(o, g, n) else []
  {
    assert (h + 1) * n == h * n + n;
    Monotone(g, h, n);
    if g < h {
      Monotone(g + 1, h, n);
      assert (g + 1) * n == g * n + n;
    }
  }

  /** The copy loops that bring one token back from [heads, tokens] order. */
  method TokenFrom(buf: seq<Row>, s: nat, heads: nat, len: nat, n: nat) returns (o: Row)
    requires |buf| == heads * len && AllOfSize(buf, n) && s < len
    ensures TokenOf(o, buf, s, heads, len, n)
  {
    o := [];
    for h := 0 to heads
      invariant TokenOf(o, buf, s, h, len, n)
    {
      SlotBelow(h, len, s, heads);
      var row := buf[h * len + s];
      forall g: nat | g < h + 1 ensures TokenOfAt(o + row, buf, s, g, len, n) {
        assert g < h ==> TokenOfAt(o, buf, s, g, len, n);
        HeadAppended(o, row, h, g, n);
      }
      HeadAppended(o, row, h, h, n);
      o := o + row;
    }
  }

  // ---------------------------------------------------------------- from buffers to tokens

  lemma HeadsPrefix(x: seq<Row>, head: nat, n: nat, k: nat)
    requires HasHead(x, head, n) && k <= |x|
    ensures HasHead(x[..k], head, n) && Heads(x, head, n)[..k] == Heads(x[..k], head, n)
  {
  }

  /** The block of one head in the buffer is that head of all tokens. */
  lemma BlockIsHeads(buf: seq<Row>, x: seq<Row>, h: nat, heads: nat, group: nat, n: nat)
    requires Interleaved(buf, x, |x|, 0, heads, group, n) && h < heads && group > 0 && HasHead(x, h / group, n)
    ensures HeadFits(h, |x|, |buf|) && HeadBlock(buf, h, |x|) == Heads(x, h / group, n)
  {
    HeadFitsBelow(h, heads, |x|);
    var a, b := HeadBlock(buf, h, |x|), Heads(x, h / group, n);
    forall s: nat | s < |x| ensures a[s] == b[s] {
      BlockEntry(buf, x, s, h, heads, group, n);
    }
    assert a == b;
  }

  lemma BlockEntry(buf: seq<Row>, x: seq<Row>, s: nat, h: nat, heads: nat, group: nat, n: nat)
    requires Interleaved(buf, x, |x|, 0, heads, group, n) && h < heads && s < |x| && group > 0
    requires HasHead(x, h / group, n)
    requires HeadFits(h, |x|, |buf|)
    ensures HeadBlock(buf, h, |x|)[s] == Heads(x, h / group, n)[s]
  {
    assert InterleavedAt(buf, x, s, h, group, n);
  }

  /** One head of one token: what the kernel computed on the buffers is attention of the token's head. */
  lemma SdpaIsHead(e: real -> real, q: seq<Row>, k: seq<Row>, v: seq<Row>, qb: seq<Row>, kb: seq<Row>, vb: seq<Row>,
                   h: nat, t: nat, causal: bool, p: Shape)
    requires GoodShape(p) && |q| == |k| == |v| && t < |q| && h < p.heads
    requires AllOfSize(q, QSize(p)) && AllOfSize(k, KvSize(p)) && AllOfSize(v, KvSize(p))
    requires Interleaved(qb, q, |q|, 0, p.heads, 1, p.n)
    requires Interleaved(kb, k, |k|, 0, p.heads, p.group, p.n) && Interleaved(vb, v, |v|, 0, p.heads, p.group, p.n)
    ensures HeadFits(h, |q|, |qb|) && HeadFits(h, |k|, |kb|) && HeadFits(h, |k|, |vb|)
    ensures h * p.n + p.n <= |q[t]|
    ensures var ks, vs := if causal then k[..t + 1] else k, if causal then v[..t + 1] else v;
            && HasHead(ks, h / p.group, p.n) && HasHead(vs, h / p.group, p.n)
            && SdpaRow(e, qb, kb, vb, h, t, |q|, |k|, p.n, causal, p.scale)
               == DecodeHead(e, Head(q[t], h, p.n), ks, vs, h / p.group, p.scale)
  {
    GroupedHead(h, p.heads, p.kvHeads, p.group);
    HeadsFitRows(k, p.kvHeads, h / p.group, p.n);
    HeadsFitRows(v, p.kvHeads, h / p.group, p.n);
    HeadFitsBelow(h, p.heads, p.n);
    var seen := if causal then t + 1 else |k|;
    BlockPrefix(kb, k, h, p.heads, p.group, p.n, seen);
    BlockPrefix(vb, v, h, p.heads, p.group, p.n, seen);
    HeadFitsBelow(h, p.heads, |q|);
    assert InterleavedAt(qb, q, t, h, 1, p.n);
    WholeSlices(k);
    WholeSlices(v);
    SdpaValue(e, qb, kb, vb, h, t, |q|, causal, p, Head(q[t], h, p.n), k[..seen], v[..seen], h / p.group);
  }

  lemma SdpaValue(e: real -> real, qb: seq<Row>, kb: seq<Row>, vb: seq<Row>, h: nat, t: nat, len: nat, causal: bool,
                  p: Shape, head: Row, ks: seq<Row>, vs: seq<Row>, kvHead: nat)
    requires t < len && HeadFits(h, len, |qb|) && HeadFits(h, len, |kb|) && HeadFits(h, len, |vb|)
    requires AllOfSize(qb, p.n) && AllOfSize(kb, p.n) && AllOfSize(vb, p.n) && |head| == p.n && |ks| == |vs|
    requires HasHead(ks, kvHead, p.n) && HasHead(vs, kvHead, p.n)
    requires qb[h * len + t] == head
    requires var seen := if causal then t + 1 else len;
             HeadBlock(kb, h, len)[..seen] == Heads(ks, kvHead, p.n) &&
             HeadBlock(vb, h, len)[..seen] == Heads(vs, kvHead, p.n)
    ensures SdpaRow(e, qb, kb, vb, h, t, len, len, p.n, causal, p.scale) == DecodeHead(e, head, ks, vs, kvHead, p.scale)
  {
  }

  lemma BlockPrefix(buf: seq<Row>, x: seq<Row>, h: nat, heads: nat, group: nat, n: nat, seen: nat)
    requires Interleaved(buf, x, |x|, 0, heads, group, n) && h < heads && group > 0 && HasHead(x, h / group, n)
    requires seen <= |x|
    ensures HeadFits(h, |x|, |buf|) && HasHead(x[..seen], h / group, n)
    ensures HeadBlock(buf, h, |x|)[..seen] == Heads(x[..seen], h / group, n)
  {
    BlockIsHeads(buf, x, h, heads, group, n);
    HeadsPrefix(x, h / group, n, seen);
  }

  lemma TokenDone(e: real -> real, q: seq<Row>, k: seq<Row>, v: seq<Row>, qb: seq<Row>, kb: seq<Row>, vb: seq<Row>,
                  out: seq<Row>, o: Row, t: nat, causal: bool, p: Shape)
    requires GoodShape(p) && |q| == |k| == |v| && t < |q|
    requires AllOfSize(q, QSize(p)) && AllOfSize(k, KvSize(p)) && AllOfSize(v, KvSize(p))
    requires Interleaved(qb, q, |q|, 0, p.heads, 1, p.n)
    requires Interleaved(kb, k, |k|, 0, p.heads, p.group, p.n) && Interleaved(vb, v, |v|, 0, p.heads, p.group, p.n)
    requires SdpaRows(out, e, qb, kb, vb, p.heads, 0, |q|, |k|, p.n, causal, p.scale)
    requires TokenOf(o, out, t, p.heads, |q|, p.n)
    ensures TokenAttends(o, e, q[t], if causal then k[..t + 1] else k, if causal then v[..t + 1] else v, p)
  {
    var ks, vs := if causal then k[..t + 1] else k, if causal then v[..t + 1] else v;
    forall h: nat | h < p.heads ensures HeadAttends(o, e, q[t], ks, vs, h, p) {
      SdpaIsHead(e, q, k, v, qb, kb, vb, h, t, causal, p);
      assert SdpaRowAt(out, e, qb, kb, vb, h, t, |q|, |k|, p.n, causal, p.scale);
      assert TokenOfAt(o, out, t, h, |q|, p.n);
    }
  }

  /** The body shared by the path without a cache and the prefill path: interleave, attend, and bring the tokens
      back. */
  method AttendChunk(e: real -> real, q: seq<Row>, k: seq<Row>, v: seq<Row>, causal: bool, p: Shape, tile: nat,
                     width: nat)
    returns (o: seq<Row>)
    requires IsExp(e) && GoodShape(p) && tile > 0 && width > 0 && |q| == |k| == |v|
    requires AllOfSize(q, QSize(p)) && AllOfSize(k, KvSize(p)) && AllOfSize(v, KvSize(p))
    ensures ChunkAttends(o, e, q, k, v, causal, p)
  {
    var qb := Interleave(q, p.heads, p.heads, 1, p.n);
    var kb := Interleave(k, p.heads, p.kvHeads, p.group, p.n);
    var vb := Interleave(v, p.heads, p.kvHeads, p.group, p.n);
    var out := FlashSdpa(e, qb, kb, vb, p.heads, |q|, |k|, p.n, causal, p.scale, tile, width);
    o := [];
    for s := 0 to |q|
      invariant |o| == s
      invariant forall t: nat :: t < s ==>
                  TokenAttends(o[t], e, q[t], if causal then k[..t + 1] else k, if causal then v[..t + 1] else v, p)
    {
      var row := TokenFrom(out, s, p.heads, |q|, p.n);
      TokenDone(e, q, k, v, qb, kb, vb, out, row, s, causal, p);
      o := o + [row];
    }
  }

  // ---------------------------------------------------------------- uniqueness

  lemma SameAt(a: Row, b: Row, h: nat, n: nat, d: nat)
    requires SameHead(a, b, h, n) && d < n
    ensures h * n + d < |a| && h * n + d < |b| && a[h * n + d] == b[h * n + d]
  {
    assert Head(a, h, n)[d] == a[h * n + d] && Head(b, h, n)[d] == b[h * n + d];
  }

  lemma RowsEqualByHeads(a: Row, b: Row, heads: nat, n: nat)
    requires |a| == |b| == heads * n && n > 0
    requires forall h: nat :: h < heads ==> SameHead(a, b, h, n)
    ensures a == b
  {
    forall i | 0 <= i < |a| ensures a[i] == b[i] {
      GroupedHead(i, |a|, heads, n);
      SameAt(a, b, i / n, n, i % n);
      assert i == i / n * n + i % n;
    }
  }

  ghost predicate SameHead(a: Row, b: Row, h: nat, n: nat) {
    h * n + n <= |a| && h * n + n <= |b| && Head(a, h, n) == Head(b, h, n)
  }

  /** The query and the visible rows determine the result: two ways of computing it agree. */
  lemma AttentionUnique(a: Row, b: Row, e: real -> real, q: Row, k: seq<Row>, v: seq<Row>, p: Shape)
    requires p.n > 0 && TokenAttends(a, e, q, k, v, p) && TokenAttends(b, e, q, k, v, p)
    ensures a == b
  {
    forall h: nat | h < p.heads ensures SameHead(a, b, h, p.n) {
      assert HeadAttends(a, e, q, k, v, h, p) && HeadAttends(b, e, q, k, v, h, p);
    }
    RowsEqualByHeads(a, b, p.heads, p.n);
  }
}
