/** The attention kernels of src/runtime/kernels/cpu_kernels.cpp, one query row at a time. */
module AttentionKernels {
  import opened Arithmetic
  import opened AttentionProofs
  import opened AttentionSpec
  import opened RealVectorSpec
  import opened RealVectors
  import opened Sequences
  import opened Wrappers

  // ---------------------------------------------------------------- the steps of one tile

  /** The scores of one tile and their maximum; masked keys are skipped. */
  method TileScores(q: Row, keys: seq<Row>, scale: real, kt: nat, end: nat, limit: nat, width: nat)
    returns (row: seq<Option<real>>, top: Option<real>)
    requires AllOfSize(keys, |q|) && kt <= end <= |keys| && kt < limit && width > 0
    ensures |row| == end - kt && Masked(row, Scores(q, keys, scale), kt, limit)
    ensures IsMaxOf(top, Scores(q, keys, scale)[kt..Seen(end, limit)])
  {
    row, top := [], None;
    ghost var s := Scores(q, keys, scale);
    for ki := kt to end
      invariant |row| == ki - kt && Masked(row, s, kt, limit)
      invariant IsMaxOf(top, s[kt..Seen(ki, limit)])
    {
      if ki >= limit {
        row := row + [None];
      } else {
        var dot := DotLanes(q, keys[ki], width);
        var x := dot * scale;
        assert s[ki] == x;
        assert s[kt..ki + 1] == s[kt..ki] + [x];
        MaxNext(top, s[kt..ki], x);
        row := row + [Some(x)];
        top := MaxOf(top, x);
      }
    }
  }

  /** The exponentials of a tile and their sum. */
  method TileExps(e: real -> real, row: seq<Option<real>>, m: real, ghost s: seq<real>, ghost from: nat,
                  ghost limit: nat)
    returns (weights: seq<real>, sum: real)
    requires Masked(row, s, from, limit) && from < limit
    ensures WeightsOf(e, weights, row, m)
    ensures sum == PartSum(e, s, from, from + |row|, limit, m)
  {
    weights, sum := [], 0.0;
    for i := 0 to |row|
      invariant |weights| == i && WeightsOf(e, weights, row[..i], m)
      invariant sum == PartSum(e, s, from, from + i, limit, m)
    {
      PartSumNext(e, s, from, from + i, limit, m);
      var x := Exponential(e, row[i], m);
      assert row[..i + 1] == row[..i] + [row[i]];
      weights := weights + [x];
      sum := sum + x;
    }
    assert row[..|row|] == row;
  }

  /** Adds the weighted values of a tile to the output row. */
  method TileAccumulate(e: real -> real, o: Row, row: seq<Option<real>>, weights: seq<real>, values: seq<Row>, kt: nat,
                        width: nat, ghost m: real, ghost s: seq<real>, ghost limit: nat)
    returns (r: Row)
    requires IsExp(e) && Masked(row, s, kt, limit) && width > 0 && WeightsOf(e, weights, row, m)
    requires |s| == |values| && AllOfSize(values, |o|) && o == PartRow(e, s, values, |o|, kt, limit, m)
    ensures r == PartRow(e, s, values, |o|, kt + |row|, limit, m)
  {
    r := o;
    for i := 0 to |row|
      invariant |r| == |o|
      invariant r == PartRow(e, s, values, |o|, kt + i, limit, m)
    {
      PartRowNext(e, s, values, |o|, kt + i, limit, m);
      assert weights[i] == Exponential(e, row[i], m);
      if kt + i < limit {
        Positive(e, s[kt + i] - m);
      }
      if weights[i] != 0.0 {
        r := AddRow(r, weights[i], values[kt + i], width);
      }
    }
  }

  function MaxOption(a: Option<real>, b: Option<real>): Option<real> {
    if b == None then a else MaxOf(a, b.value)
  }

  lemma TileStart(e: real -> real, s: seq<real>, v: seq<Row>, n: nat, kt: nat, limit: nat, m: Option<real>, l: real,
                  o: Row, m': real, alpha: real)
    requires IsExp(e) && kt < |s| == |v| && kt < limit && AllOfSize(v, n) && Online(e, s[..kt], v[..kt], n, m, l, o)
    requires alpha == if m == None then 1.0 else e(m.value - m')
    ensures l * alpha == Sum(Exps(e, s[..kt], m'))
    ensures Scaled(o, alpha) == PartRow(e, s, v, n, kt, limit, m')
    ensures IsMaxOf(m, s[..kt])
  {
    Rescaled(e, s[..kt], v[..kt], n, m, l, o, m');
  }

  lemma TileHasKey(s: seq<real>, kt: nat, end: nat, limit: nat, top: Option<real>)
    requires kt < end <= |s| && kt < limit && IsMaxOf(top, s[kt..Seen(end, limit)])
    ensures top.Some?
  {
  }

  lemma TileEnd(e: real -> real, s: seq<real>, v: seq<Row>, size: nat, kt: nat, end: nat, limit: nat, m: Option<real>,
                top: real, m': real, before: real, sum: real, o: Row)
    requires kt < end <= |s| == |v| && kt < limit && AllOfSize(v, size)
    requires IsMaxOf(m, s[..kt]) && IsMaxOf(Some(top), s[kt..Seen(end, limit)]) && MaxOf(m, top) == Some(m')
    requires before == Sum(Exps(e, s[..kt], m')) && sum == PartSum(e, s, kt, end, limit, m')
    requires o == PartRow(e, s, v, size, end, limit, m')
    ensures Online(e, s[..Seen(end, limit)], v[..Seen(end, limit)], size, Some(m'), before + sum, o)
  {
    var n := Seen(end, limit);
    TileMax(s, kt, n, m, top, m');
    TileSum(e, s, kt, n, m');
  }

  lemma TileMax(s: seq<real>, kt: nat, n: nat, m: Option<real>, top: real, m': real)
    requires kt < n <= |s| && IsMaxOf(m, s[..kt]) && IsMaxOf(Some(top), s[kt..n]) && MaxOf(m, top) == Some(m')
    ensures IsMax(m', s[..n]) && s[..n] != []
  {
    CutRange(s, kt, n);
    MaxJoin(m, s[..kt], top, s[kt..n]);
  }

  /** One turn of the tile loop: rescale what was accumulated to the new maximum and add the tile. The tile has an
      unmasked key, so the maximum is a number. */
  method FlashTile(e: real -> real, q: Row, keys: seq<Row>, values: seq<Row>, scale: real, kt: nat, end: nat,
                   limit: nat, width: nat, m: Option<real>, l: real, o: Row)
    returns (m': Option<real>, l': real, o': Row)
    requires IsExp(e) && width > 0 && kt < end <= |keys| == |values| && kt < limit
    requires AllOfSize(keys, |q|) && AllOfSize(values, |q|)
    requires Online(e, Scores(q, keys, scale)[..kt], values[..kt], |q|, m, l, o)
    ensures Online(e, Scores(q, keys, scale)[..Seen(end, limit)], values[..Seen(end, limit)], |q|, m', l', o')
  {
    ghost var s := Scores(q, keys, scale);
    var row, top := TileScores(q, keys, scale, kt, end, limit, width);
    TileHasKey(s, kt, end, limit, top);
    m' := MaxOption(m, top);
    var top', bound := top.value, m'.value;
    var alpha := if m == None then 1.0 else e(m.value - bound);
    TileStart(e, s, values, |q|, kt, limit, m, l, o, bound, alpha);
    var weights, sum := TileExps(e, row, bound, s, kt, limit);
    var scaled := ScaleRow(o, alpha, width);
    assert kt + |row| == end;
    o' := TileAccumulate(e, scaled, row, weights, values, kt, width, bound, s, limit);
    var rescaled := l * alpha;
    l' := rescaled + sum;
    TileEnd(e, s, values, |q|, kt, end, limit, m, top', bound, rescaled, sum, o');
  }

  /** The online softmax over tiles: for every tile size, mask and vector width it is attention over the unmasked
      keys. */
  method FlashRow(e: real -> real, q: Row, keys: seq<Row>, values: seq<Row>, scale: real, limit: nat, tile: nat,
                  width: nat)
    returns (o: Row)
    requires IsExp(e) && width > 0 && tile > 0 && |keys| == |values|
    requires AllOfSize(keys, |q|) && AllOfSize(values, |q|)
    ensures var n := Min(limit, |keys|);
            |o| == |q| && o == Attend(e, q, keys[..n], values[..n], scale)
  {
    ghost var s, n := Scores(q, keys, scale), Min(limit, |keys|);
    var m: Option<real>, l := None, 0.0;
    o := ZeroRow(|q|);
    var kt := 0;
    while kt < |keys| && kt < limit
      invariant kt <= |keys|
      invariant Online(e, s[..Seen(kt, limit)], values[..Seen(kt, limit)], |q|, m, l, o)
      decreases |keys| - kt
    {
      var end := Min(kt + tile, |keys|);
      m, l, o := FlashTile(e, q, keys, values, scale, kt, end, limit, width, m, l, o);
      kt := end;
    }
    assert Seen(kt, limit) == n;
    FlashEnd(e, q, keys, values, scale, n, m, l, o);
    if l > 0.0 {
      o := ScaleRow(o, 1.0 / l, width);
    }
  }

  /** The final division. */
  lemma FlashEnd(e: real -> real, q: Row, keys: seq<Row>, values: seq<Row>, scale: real, n: nat, m: Option<real>,
                 l: real, o: Row)
    requires IsExp(e) && n <= |keys| == |values| && AllOfSize(keys, |q|) && AllOfSize(values, |q|)
    requires Online(e, Scores(q, keys, scale)[..n], values[..n], |q|, m, l, o)
    ensures l > 0.0 <==> n > 0
    ensures (if l > 0.0 then Scaled(o, 1.0 / l) else o) == Attend(e, q, keys[..n], values[..n], scale)
  {
    ScoresPrefix(q, keys, scale, n);
    if n > 0 {
      NormalizedSum(e, Scores(q, keys, scale)[..n], values[..n], |q|, m.value);
    }
  }

  // ---------------------------------------------------------------- the plain kernel

  /** Masked scores of a whole row, and a bound on them that starts from the lowest number. */
  method RowScores(q: Row, keys: seq<Row>, scale: real, limit: nat, lowest: real, width: nat)
    returns (row: seq<Option<real>>, top: real)
    requires AllOfSize(keys, |q|) && width > 0
    ensures |row| == |keys| && Masked(row, Scores(q, keys, scale), 0, limit)
    ensures forall i :: 0 <= i < Min(limit, |keys|) ==> Scores(q, keys, scale)[i] <= top
  {
    row, top := [], lowest;
    ghost var s := Scores(q, keys, scale);
    for ki := 0 to |keys|
      invariant |row| == ki && Masked(row, s, 0, limit)
      invariant forall i :: 0 <= i < Min(limit, ki) ==> s[i] <= top
    {
      if ki >= limit {
        row := row + [None];
      } else {
        var dot := DotLanes(q, keys[ki], width);
        assert s[ki] == dot * scale;
        row := row + [Some(dot * scale)];
        top := if top < dot * scale then dot * scale else top;
      }
    }
  }

  lemma WeightAt(e: real -> real, row: seq<Option<real>>, weights: seq<real>, sum: real, m: real, s: seq<real>,
                 limit: nat, ki: nat)
    requires IsExp(e) && limit > 0 && |row| == |s| && Masked(row, s, 0, limit) && WeightsOf(e, weights, row, m)
    requires sum == PartSum(e, s, 0, |row|, limit, m) && ki < |s| && sum > 0.0
    ensures weights[ki] / sum == if ki < Min(limit, |s|) then Softmax(e, s[..Min(limit, |s|)])[ki] else 0.0
  {
    var n := Min(limit, |s|);
    assert s[0..n] == s[..n];
    if ki < n {
      DivideIsScale(e, s[..n], m, ki);
    }
  }

  /** Divides the exponentials by their sum, or spreads the weight evenly when nothing was unmasked. */
  method Normalize(e: real -> real, row: seq<Option<real>>, weights: seq<real>, sum: real, ghost m: real,
                   ghost s: seq<real>, ghost limit: nat)
    returns (w: seq<real>)
    requires IsExp(e) && limit > 0 && |row| == |s| && Masked(row, s, 0, limit) && WeightsOf(e, weights, row, m)
    requires sum == PartSum(e, s, 0, |row|, limit, m)
    ensures var n := Min(limit, |s|);
            |w| == |s| && w[..n] == Softmax(e, s[..n]) && forall i :: n <= i < |w| ==> w[i] == 0.0
  {
    ghost var n := Min(limit, |s|);
    assert s[0..n] == s[..n];
    SumPositive(e, s[..n], m);
    if sum <= 0.0 {
      // The uniform weights of the source: with exact sums this happens only when there is no key to weigh.
      assert |row| == 0;
      w := [];
    } else {
      w := [];
      for ki := 0 to |row|
        invariant |w| == ki
        invariant forall i :: 0 <= i < Min(n, ki) ==> w[i] == Softmax(e, s[..n])[i]
        invariant forall i :: n <= i < ki ==> w[i] == 0.0
      {
        WeightAt(e, row, weights, sum, m, s, limit, ki);
        w := w + [weights[ki] / sum];
      }
    }
  }

  /** The weighted values, one column at a time. */
  method WeightedColumns(w: seq<real>, values: seq<Row>, n: nat) returns (o: Row)
    requires |w| == |values| && AllOfSize(values, n)
    ensures o == WeightedSum(w, values, n)
  {
    o := [];
    for d := 0 to n
      invariant |o| == d && forall i :: 0 <= i < d ==> o[i] == WeightedSum(w, values, n)[i]
    {
      var acc := 0.0;
      for ki := 0 to |w|
        invariant acc == ColumnSum(w[..ki], values[..ki], n, d)
      {
        ColumnNext(w, values, n, d, ki);
        acc := acc + w[ki] * values[ki][d];
      }
      assert w[..|w|] == w && values[..|w|] == values;
      WeightedSumAt(w, values, n, d);
      o := o + [acc];
    }
  }

  /** One row of sdpa: all scores, their softmax, then the weighted values. */
  method PlainRow(e: real -> real, q: Row, keys: seq<Row>, values: seq<Row>, scale: real, limit: nat, lowest: real,
                  width: nat)
    returns (o: Row)
    requires IsExp(e) && width > 0 && limit > 0 && |keys| == |values|
    requires AllOfSize(keys, |q|) && AllOfSize(values, |q|)
    ensures var n := Min(limit, |keys|);
            |o| == |q| && o == Attend(e, q, keys[..n], values[..n], scale)
  {
    ghost var s, n := Scores(q, keys, scale), Min(limit, |keys|);
    var row, top := RowScores(q, keys, scale, limit, lowest, width);
    var weights, sum := TileExps(e, row, top, s, 0, limit);
    var w := Normalize(e, row, weights, sum, top, s, limit);
    o := WeightedColumns(w, values, |q|);
    MaskedAttention(e, q, keys, values, scale, w, n);
  }

  lemma SdpaNext(out: seq<Row>, row: Row, e: real -> real, q: seq<Row>, k: seq<Row>, v: seq<Row>, h: nat, qi: nat,
                 qLen: nat, kvLen: nat, n: nat, causal: bool, scale: real)
    requires SdpaRows(out, e, q, k, v, h, qi, qLen, kvLen, n, causal, scale) && qi < qLen && |row| == n
    requires HeadFits(h, qLen, |q|) && HeadFits(h, kvLen, |k|) && HeadFits(h, kvLen, |v|)
    requires AllOfSize(q, n) && AllOfSize(k, n) && AllOfSize(v, n)
    requires row == SdpaRow(e, q, k, v, h, qi, qLen, kvLen, n, causal, scale)
    ensures SdpaRows(out + [row], e, q, k, v, h, qi + 1, qLen, kvLen, n, causal, scale)
  {
    forall h': nat, qi': nat | qi' < qLen && (h' < h || (h' == h && qi' < qi + 1))
      ensures SdpaRowAt(out + [row], e, q, k, v, h', qi', qLen, kvLen, n, causal, scale)
    {
      if h' < h || qi' < qi {
        assert SdpaRowAt(out, e, q, k, v, h', qi', qLen, kvLen, n, causal, scale);
      }
    }
  }

  lemma SdpaHeadDone(out: seq<Row>, e: real -> real, q: seq<Row>, k: seq<Row>, v: seq<Row>, h: nat,
                     qLen: nat, kvLen: nat, n: nat, causal: bool, scale: real)
    requires SdpaRows(out, e, q, k, v, h, qLen, qLen, kvLen, n, causal, scale)
    ensures SdpaRows(out, e, q, k, v, h + 1, 0, qLen, kvLen, n, causal, scale)
  {
    assert (h + 1) * qLen + 0 == h * qLen + qLen;
  }

  lemma HeadFitsBelow(h: nat, heads: nat, len: nat)
    requires h < heads
    ensures HeadFits(h, len, heads * len)
  {
    Monotone(h + 1, heads, len);
    assert (h + 1) * len == h * len + len;
  }

  /** flash_sdpa: every head and every query row. */
  method FlashSdpa(e: real -> real, q: seq<Row>, k: seq<Row>, v: seq<Row>, heads: nat, qLen: nat, kvLen: nat, n: nat,
                   causal: bool, scale: real, tile: nat, width: nat)
    returns (out: seq<Row>)
    requires IsExp(e) && width > 0 && tile > 0
    requires |q| == heads * qLen && |k| == |v| == heads * kvLen && AllOfSize(q, n) && AllOfSize(k, n) && AllOfSize(v, n)
    ensures SdpaRows(out, e, q, k, v, heads, 0, qLen, kvLen, n, causal, scale)
  {
    out := [];
    for h := 0 to heads
      invariant SdpaRows(out, e, q, k, v, h, 0, qLen, kvLen, n, causal, scale)
    {
      HeadFitsBelow(h, heads, qLen);
      HeadFitsBelow(h, heads, kvLen);
      var keys, values := HeadBlock(k, h, kvLen), HeadBlock(v, h, kvLen);
      for qi := 0 to qLen
        invariant SdpaRows(out, e, q, k, v, h, qi, qLen, kvLen, n, causal, scale)
      {
        var row := FlashRow(e, q[h * qLen + qi], keys, values, scale, if causal then qi + 1 else kvLen, tile, width);
        SdpaNext(out, row, e, q, k, v, h, qi, qLen, kvLen, n, causal, scale);
        out := out + [row];
      }
      SdpaHeadDone(out, e, q, k, v, h, qLen, kvLen, n, causal, scale);
    }
  }

  /** sdpa: the same result from the whole score matrix. */
  method Sdpa(e: real -> real, q: seq<Row>, k: seq<Row>, v: seq<Row>, heads: nat, qLen: nat, kvLen: nat, n: nat,
              causal: bool, scale: real, lowest: real, width: nat)
    returns (out: seq<Row>)
    requires IsExp(e) && width > 0
    requires |q| == heads * qLen && |k| == |v| == heads * kvLen && AllOfSize(q, n) && AllOfSize(k, n) && AllOfSize(v, n)
    ensures SdpaRows(out, e, q, k, v, heads, 0, qLen, kvLen, n, causal, scale)
  {
    out := [];
    for h := 0 to heads
      invariant SdpaRows(out, e, q, k, v, h, 0, qLen, kvLen, n, causal, scale)
    {
      HeadFitsBelow(h, heads, qLen);
      HeadFitsBelow(h, heads, kvLen);
      var keys, values := HeadBlock(k, h, kvLen), HeadBlock(v, h, kvLen);
      for qi := 0 to qLen
        invariant SdpaRows(out, e, q, k, v, h, qi, qLen, kvLen, n, causal, scale)
      {
        var row := PlainRow(e, q[h * qLen + qi], keys, values, scale, if causal then qi + 1 else kvLen + 1, lowest,
                            width);
        SdpaNext(out, row, e, q, k, v, h, qi, qLen, kvLen, n, causal, scale);
        out := out + [row];
      }
      SdpaHeadDone(out, e, q, k, v, h, qLen, kvLen, n, causal, scale);
    }
  }

  lemma GroupedHead(h: nat, heads: nat, kvHeads: nat, group: nat)
    requires heads == kvHeads * group && group > 0 && h < heads
    ensures h / group < kvHeads
  {
    var d := h / group;
    assert h == group * d + h % group;
    if d >= kvHeads {
      Monotone(kvHeads, d, group);
      assert false;
    }
  }

  lemma HeadsFitRows(rows: seq<Row>, kvHeads: nat, head: nat, n: nat)
    requires AllOfSize(rows, kvHeads * n) && head < kvHeads
    ensures HasHead(rows, head, n)
  {
    HeadFitsBelow(head, kvHeads, n);
  }

  lemma DecodeNext(out: seq<Row>, row: Row, e: real -> real, q: seq<Row>, k: seq<Row>, v: seq<Row>, h: nat, group: nat,
                   n: nat, scale: real)
    requires DecodeRows(out, e, q, k, v, h, group, n, scale) && h < |q| && |row| == n
    requires HasHead(k, h / group, n) && HasHead(v, h / group, n)
    requires row == DecodeHead(e, q[h], k, v, h / group, scale)
    ensures DecodeRows(out + [row], e, q, k, v, h + 1, group, n, scale)
  {
    forall h': nat | h' < h + 1 ensures DecodeAt(out + [row], e, q, k, v, h', group, n, scale) {
      assert h' < h ==> DecodeAt(out, e, q, k, v, h', group, n, scale);
    }
  }

  /** flash_sdpa_decode: one query token over the cache, with grouped heads. */
  method FlashDecode(e: real -> real, q: seq<Row>, k: seq<Row>, v: seq<Row>, heads: nat, kvHeads: nat, group: nat,
                     n: nat, scale: real, tile: nat, width: nat)
    returns (out: seq<Row>)
    requires IsExp(e) && width > 0 && tile > 0 && |q| == heads == kvHeads * group && group > 0 && |k| == |v|
    requires AllOfSize(q, n) && AllOfSize(k, kvHeads * n) && AllOfSize(v, kvHeads * n)
    ensures DecodeRows(out, e, q, k, v, heads, group, n, scale)
  {
    out := [];
    for h := 0 to heads
      invariant DecodeRows(out, e, q, k, v, h, group, n, scale)
    {
      GroupedHead(h, heads, kvHeads, group);
      HeadsFitRows(k, kvHeads, h / group, n);
      HeadsFitRows(v, kvHeads, h / group, n);
      var keys, values := Heads(k, h / group, n), Heads(v, h / group, n);
      var row := FlashRow(e, q[h], keys, values, scale, |k|, tile, width);
      assert keys[..|k|] == keys && values[..|k|] == values;
      DecodeNext(out, row, e, q, k, v, h, group, n, scale);
      out := out + [row];
    }
  }

  /** sdpa_decode: the same result from all scores of a head at once. */
  method PlainDecode(e: real -> real, q: seq<Row>, k: seq<Row>, v: seq<Row>, heads: nat, kvHeads: nat, group: nat,
                     n: nat, scale: real, lowest: real, width: nat)
    returns (out: seq<Row>)
    requires IsExp(e) && width > 0 && |q| == heads == kvHeads * group && group > 0 && |k| == |v|
    requires AllOfSize(q, n) && AllOfSize(k, kvHeads * n) && AllOfSize(v, kvHeads * n)
    ensures DecodeRows(out, e, q, k, v, heads, group, n, scale)
  {
    out := [];
    for h := 0 to heads
      invariant DecodeRows(out, e, q, k, v, h, group, n, scale)
    {
      GroupedHead(h, heads, kvHeads, group);
      HeadsFitRows(k, kvHeads, h / group, n);
      HeadsFitRows(v, kvHeads, h / group, n);
      var keys, values := Heads(k, h / group, n), Heads(v, h / group, n);
      var row := PlainDecodeRow(e, q[h], keys, values, scale, lowest, width);
      DecodeNext(out, row, e, q, k, v, h, group, n, scale);
      out := out + [row];
    }
  }

  /** One head of sdpa_decode: the sum is inverted once, and whole value rows are added. */
  method PlainDecodeRow(e: real -> real, q: Row, keys: seq<Row>, values: seq<Row>, scale: real, lowest: real,
                        width: nat)
    returns (o: Row)
    requires IsExp(e) && width > 0 && |keys| == |values| && AllOfSize(keys, |q|) && AllOfSize(values, |q|)
    ensures |o| == |q| && o == Attend(e, q, keys, values, scale)
  {
    ghost var s := Scores(q, keys, scale);
    var row, top := RowScores(q, keys, scale, |keys| + 1, lowest, width);
    var weights, sum := TileExps(e, row, top, s, 0, |keys| + 1);
    var w := Normalize(e, row, weights, sum, top, s, |keys| + 1);
    WholeSlices(s);
    WholeSlices(w);
    o := WeightedRows(w, values, |q|, width);
  }

  /** The weighted values, one whole row at a time. */
  method WeightedRows(w: seq<real>, values: seq<Row>, n: nat, width: nat) returns (o: Row)
    requires width > 0 && |w| == |values| && AllOfSize(values, n)
    ensures o == WeightedSum(w, values, n)
  {
    o := ZeroRow(n);
    for ki := 0 to |w|
      invariant |o| == n && o == WeightedSum(w[..ki], values[..ki], n)
    {
      NextSlice(w, ki);
      NextSlice(values, ki);
      WeightedSumNext(w[..ki], values[..ki], n, w[ki], values[ki]);
      o := AddRow(o, w[ki], values[ki], width);
    }
    WholeSlices(w);
    WholeSlices(values);
  }
}
