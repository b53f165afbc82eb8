/** Softmax attention over the reals, with the exponential as a parameter. */
module AttentionSpec {
  import opened Arithmetic
  import opened RealVectorSpec
  import opened Wrappers

  ghost predicate PositiveAt(e: real -> real, x: real) { e(x) > 0.0 }

  ghost predicate MultipliesAt(e: real -> real, x: real, y: real) { e(x + y) == e(x) * e(y) }

  /** All that the kernels need of exp: it is positive and turns sums into products. */
  ghost predicate IsExp(e: real -> real) {
    (forall x: real :: PositiveAt(e, x)) && (forall x: real, y: real :: MultipliesAt(e, x, y))
  }

  predicate AllOfSize(rows: seq<Row>, n: nat) {
    forall i :: 0 <= i < |rows| ==> |rows[i]| == n
  }

  function WeightedSum(w: seq<real>, v: seq<Row>, n: nat): (r: Row)
    requires |w| == |v| && AllOfSize(v, n)
    ensures |r| == n
  {
    if w == [] then ZeroRow(n)
    else AddScaled(WeightedSum(w[..|w| - 1], v[..|v| - 1], n), w[|w| - 1], v[|v| - 1])
  }

  /** The exponentials of the scores after subtracting m. */
  function Exps(e: real -> real, s: seq<real>, m: real): seq<real> {
    seq(|s|, i requires 0 <= i < |s| => e(s[i] - m))
  }

  /** Softmax: each exponential divided by the sum of all. */
  function Softmax(e: real -> real, s: seq<real>): seq<real> {
    var total := Sum(Exps(e, s, 0.0));
    seq(|s|, i requires 0 <= i < |s| => if total == 0.0 then 0.0 else e(s[i] - 0.0) / total)
  }

  function Score(q: Row, key: Row, scale: real): real
    requires |key| == |q|
  {
    Dot(q, key) * scale
  }

  function Scores(q: Row, keys: seq<Row>, scale: real): seq<real>
    requires AllOfSize(keys, |q|)
  {
    seq(|keys|, i requires 0 <= i < |keys| => Score(q, keys[i], scale))
  }

  /** What one query row attends to: the softmax-weighted sum of the value rows. */
  function Attend(e: real -> real, q: Row, keys: seq<Row>, values: seq<Row>, scale: real): Row
    requires |keys| == |values| && AllOfSize(keys, |q|) && AllOfSize(values, |q|)
  {
    WeightedSum(Softmax(e, Scores(q, keys, scale)), values, |q|)
  }

  ghost predicate IsMax(m: real, s: seq<real>) {
    m in s && forall i :: 0 <= i < |s| ==> s[i] <= m
  }

  /** The running state after the keys with scores s: m is their maximum (None before the first key), l the sum of their
      exponentials and o the weighted sum of their values, both relative to m. */
  ghost predicate Online(e: real -> real, s: seq<real>, v: seq<Row>, n: nat, m: Option<real>, l: real, o: Row) {
    && |s| == |v| && AllOfSize(v, n)
    && if s == [] then m == None && l == 0.0 && o == ZeroRow(n)
       else m.Some? && IsMax(m.value, s)
            && l == Sum(Exps(e, s, m.value)) && o == WeightedSum(Exps(e, s, m.value), v, n)
  }

  /** A masked score is None, the source's negative infinity; keys from limit on are masked. */
  ghost predicate Masked(row: seq<Option<real>>, s: seq<real>, from: nat, limit: nat) {
    from + |row| <= |s| && forall i :: 0 <= i < |row| ==> row[i] == if from + i < limit then Some(s[from + i]) else None
  }

  /** How many of the first k keys are not masked. */
  function Seen(k: nat, limit: nat): nat { Min(k, limit) }

  function MaxOf(m: Option<real>, x: real): Option<real> {
    if m == None || m.value < x then Some(x) else m
  }

  ghost predicate IsMaxOf(m: Option<real>, s: seq<real>) {
    if s == [] then m == None else m.Some? && IsMax(m.value, s)
  }

  /** The weight of a score relative to m; a masked score weighs nothing. */
  function Exponential(e: real -> real, x: Option<real>, m: real): real {
    match x
    case None => 0.0
    case Some(v) => e(v - m)
  }

  /** One column of a weighted sum. */
  ghost function ColumnSum(w: seq<real>, v: seq<Row>, n: nat, d: nat): real
    requires |w| == |v| && AllOfSize(v, n) && d < n
  {
    if w == [] then 0.0
    else ColumnSum(w[..|w| - 1], v[..|v| - 1], n, d) + w[|w| - 1] * v[|v| - 1][d]
  }

  ghost predicate WeightsOf(e: real -> real, weights: seq<real>, row: seq<Option<real>>, m: real) {
    |weights| == |row| && forall i :: 0 <= i < |row| ==> weights[i] == Exponential(e, row[i], m)
  }

  /** The sum of the exponentials of the unmasked keys from..k-1. */
  ghost function PartSum(e: real -> real, s: seq<real>, from: nat, k: nat, limit: nat, m: real): real
    requires from <= Seen(k, limit) <= |s|
  {
    Sum(Exps(e, s[from..Seen(k, limit)], m))
  }

  /** The weighted sum of the values of the unmasked keys below k. */
  ghost function PartRow(e: real -> real, s: seq<real>, v: seq<Row>, n: nat, k: nat, limit: nat, m: real): Row
    requires |s| == |v| && AllOfSize(v, n) && Seen(k, limit) <= |s|
  {
    WeightedSum(Exps(e, s[..Seen(k, limit)], m), v[..Seen(k, limit)], n)
  }

  // ---------------------------------------------------------------- buffers of rows

  /** Every row is long enough for the given head. */
  predicate HasHead(rows: seq<Row>, head: nat, n: nat) {
    forall i :: 0 <= i < |rows| ==> head * n + n <= |rows[i]|
  }

  function Heads(rows: seq<Row>, head: nat, n: nat): (r: seq<Row>)
    requires HasHead(rows, head, n)
    ensures |r| == |rows| && AllOfSize(r, n)
  {
    seq(|rows|, i requires 0 <= i < |rows| => Head(rows[i], head, n))
  }

  /** The rows of one head in a [heads, len] buffer of rows. */
  function HeadBlock(rows: seq<Row>, h: nat, len: nat): (r: seq<Row>)
    requires h * len + len <= |rows|
    ensures |r| == len
  {
    rows[h * len..h * len + len]
  }

  predicate HeadFits(h: nat, len: nat, size: nat) { h * len + len <= size }

  /** Row qi of head h of [heads, qLen] queries over [heads, kvLen] keys and values. */
  function SdpaRow(e: real -> real, q: seq<Row>, k: seq<Row>, v: seq<Row>, h: nat, qi: nat, qLen: nat, kvLen: nat,
                   n: nat, causal: bool, scale: real): Row
    requires qi < qLen && HeadFits(h, qLen, |q|) && HeadFits(h, kvLen, |k|) && HeadFits(h, kvLen, |v|)
    requires AllOfSize(q, n) && AllOfSize(k, n) && AllOfSize(v, n)
  {
    var seen := if causal then Min(qi + 1, kvLen) else kvLen;
    Attend(e, q[h * qLen + qi], HeadBlock(k, h, kvLen)[..seen], HeadBlock(v, h, kvLen)[..seen], scale)
  }

  ghost predicate SdpaRowAt(out: seq<Row>, e: real -> real, q: seq<Row>, k: seq<Row>, v: seq<Row>, h: nat, qi: nat,
                            qLen: nat, kvLen: nat, n: nat, causal: bool, scale: real) {
    && qi < qLen && HeadFits(h, qLen, |q|) && HeadFits(h, kvLen, |k|) && HeadFits(h, kvLen, |v|)
    && AllOfSize(q, n) && AllOfSize(k, n) && AllOfSize(v, n)
    && h * qLen + qi < |out| && out[h * qLen + qi] == SdpaRow(e, q, k, v, h, qi, qLen, kvLen, n, causal, scale)
  }

  /** Every query row of the first heads, and the first qi rows of the next. */
  ghost predicate SdpaRows(out: seq<Row>, e: real -> real, q: seq<Row>, k: seq<Row>, v: seq<Row>, heads: nat, rest: nat,
                           qLen: nat, kvLen: nat, n: nat, causal: bool, scale: real) {
    && |out| == heads * qLen + rest && AllOfSize(out, n)
    && forall h: nat, qi: nat :: qi < qLen && (h < heads || (h == heads && qi < rest)) ==>
         SdpaRowAt(out, e, q, k, v, h, qi, qLen, kvLen, n, causal, scale)
  }

  /** One query head over cached rows that hold all key heads side by side. */
  function DecodeHead(e: real -> real, q: Row, k: seq<Row>, v: seq<Row>, kvHead: nat, scale: real): Row
    requires |k| == |v| && HasHead(k, kvHead, |q|) && HasHead(v, kvHead, |q|)
  {
    Attend(e, q, Heads(k, kvHead, |q|), Heads(v, kvHead, |q|), scale)
  }

  /** Which key head a query head shares: group query heads use one key head. */
  ghost predicate DecodeRows(out: seq<Row>, e: real -> real, q: seq<Row>, k: seq<Row>, v: seq<Row>, heads: nat,
                             group: nat, n: nat, scale: real) {
    && group > 0 && |out| == heads <= |q| && |k| == |v| && AllOfSize(q, n) && AllOfSize(out, n)
    && forall h: nat :: h < heads ==> DecodeAt(out, e, q, k, v, h, group, n, scale)
  }

  ghost predicate DecodeAt(out: seq<Row>, e: real -> real, q: seq<Row>, k: seq<Row>, v: seq<Row>, h: nat, group: nat,
                           n: nat, scale: real) {
    && group > 0 && h < |out| && h < |q| && |k| == |v| && |q[h]| == n && HasHead(k, h / group, n)
    && HasHead(v, h / group, n)
    && out[h] == DecodeHead(e, q[h], k, v, h / group, scale)
  }
}

/** Facts about softmax sums. */
module AttentionProofs {
  import opened AttentionSpec
  import opened RealVectorSpec
  import opened Sequences
  import opened Wrappers

  lemma Positive(e: real -> real, x: real)
    requires IsExp(e)
    ensures e(x) > 0.0
  {
    assert PositiveAt(e, x);
  }

  lemma Multiplies(e: real -> real, x: real, y: real)
    requires IsExp(e)
    ensures e(x + y) == e(x) * e(y)
  {
    assert MultipliesAt(e, x, y);
  }

  lemma {:induction false} SumPositive(e: real -> real, s: seq<real>, m: real)
    requires IsExp(e)
    ensures s == [] ==> Sum(Exps(e, s, m)) == 0.0
    ensures s != [] ==> Sum(Exps(e, s, m)) > 0.0
  {
    if s != [] {
      var n := |s| - 1;
      SumPositive(e, s[..n], m);
      assert Exps(e, s, m)[..n] == Exps(e, s[..n], m);
      Positive(e, s[n] - m);
    }
  }

  /** Changing the subtracted maximum multiplies every exponential by the same factor. */
  lemma ExpsShift(e: real -> real, s: seq<real>, m: real, m': real)
    requires IsExp(e)
    ensures Exps(e, s, m') == Scaled(Exps(e, s, m), e(m - m'))
  {
    forall i | 0 <= i < |s| ensures Exps(e, s, m')[i] == Scaled(Exps(e, s, m), e(m - m'))[i] {
      Multiplies(e, s[i] - m, m - m');
      assert s[i] - m + (m - m') == s[i] - m';
    }
  }

  lemma ScaledPrefix(w: seq<real>, a: real, k: nat)
    requires k <= |w|
    ensures Scaled(w, a)[..k] == Scaled(w[..k], a)
  {
    forall i | 0 <= i < k ensures Scaled(w, a)[..k][i] == Scaled(w[..k], a)[i] {
      assert Scaled(w, a)[i] == w[i] * a;
    }
  }

  lemma {:induction false} SumScaled(w: seq<real>, a: real)
    ensures Sum(Scaled(w, a)) == Sum(w) * a
  {
    if w != [] {
      var n := |w| - 1;
      SumScaled(w[..n], a);
      ScaledPrefix(w, a, n);
      Distributes(Sum(w[..n]), w[n], a);
    }
  }

  lemma Distributes(x: real, y: real, a: real)
    ensures (x + y) * a == x * a + y * a
  {
  }

  lemma ScaleAdded(x: Row, w: real, v: Row, a: real)
    requires |x| == |v|
    ensures Scaled(AddScaled(x, w, v), a) == AddScaled(Scaled(x, a), w * a, v)
  {
    forall d | 0 <= d < |x| ensures Scaled(AddScaled(x, w, v), a)[d] == AddScaled(Scaled(x, a), w * a, v)[d] {
      Distributes(x[d], w * v[d], a);
      assert w * v[d] * a == w * a * v[d];
    }
  }

  lemma {:induction false} WeightedSumScaled(w: seq<real>, v: seq<Row>, n: nat, a: real)
    requires |w| == |v| && AllOfSize(v, n)
    ensures WeightedSum(Scaled(w, a), v, n) == Scaled(WeightedSum(w, v, n), a)
  {
    if w == [] {
      assert Scaled(ZeroRow(n), a) == ZeroRow(n);
    } else {
      var k := |w| - 1;
      var wk, vk := w[k], v[k];
      var x := WeightedSum(w[..k], v[..k], n);
      var u := Scaled(w, a);
      WeightedSumScaled(w[..k], v[..k], n, a);
      ScaledPrefix(w, a, k);
      ScaleAdded(x, wk, vk, a);
      assert |u| == k + 1 && u[k] == wk * a;
      calc {
        WeightedSum(u, v, n);
        AddScaled(WeightedSum(Scaled(w[..k], a), v[..k], n), wk * a, vk);
        AddScaled(Scaled(x, a), wk * a, vk);
        Scaled(AddScaled(x, wk, vk), a);
        Scaled(WeightedSum(w, v, n), a);
      }
    }
  }

  lemma Cancel(x: real, c: real, total: real)
    requires c > 0.0 && total > 0.0
    ensures total * c > 0.0 && x * c * (1.0 / (total * c)) == x / total
  {
    assert x * c * (1.0 / (total * c)) == (x * c) / (total * c);
    assert (x * c) / (total * c) == x / total;
  }

  lemma SoftmaxAt(e: real -> real, s: seq<real>, i: nat, x: seq<real>, c: real, total: real)
    requires i < |s| == |x| && total == Sum(Exps(e, s, 0.0)) && total > 0.0 && c > 0.0
    requires x == Scaled(Exps(e, s, 0.0), c)
    ensures total * c > 0.0 && Scaled(x, 1.0 / (total * c))[i] == Softmax(e, s)[i]
  {
    Cancel(e(s[i] - 0.0), c, total);
    assert x[i] == Exps(e, s, 0.0)[i] * c;
  }

  /** Whatever is subtracted from the scores, dividing by the sum gives the softmax. */
  lemma Normalized(e: real -> real, s: seq<real>, m: real)
    requires IsExp(e) && s != []
    ensures Sum(Exps(e, s, m)) > 0.0
    ensures Scaled(Exps(e, s, m), 1.0 / Sum(Exps(e, s, m))) == Softmax(e, s)
  {
    SumPositive(e, s, m);
    SumPositive(e, s, 0.0);
    ExpsShift(e, s, 0.0, m);
    var c, total, x := e(0.0 - m), Sum(Exps(e, s, 0.0)), Exps(e, s, m);
    Positive(e, 0.0 - m);
    SumScaled(Exps(e, s, 0.0), c);
    var y := Scaled(x, 1.0 / (total * c));
    forall i | 0 <= i < |s| ensures y[i] == Softmax(e, s)[i] {
      SoftmaxAt(e, s, i, x, c, total);
    }
    assert y == Softmax(e, s);
    assert Sum(x) == total * c;
    assert y == Scaled(x, 1.0 / Sum(x));
  }

  /** Softmax weights are positive and add up to one. */
  lemma SoftmaxIsDistribution(e: real -> real, s: seq<real>)
    requires IsExp(e) && s != []
    ensures Sum(Softmax(e, s)) == 1.0 && forall i :: 0 <= i < |s| ==> Softmax(e, s)[i] > 0.0
  {
    Normalized(e, s, 0.0);
    var total := Sum(Exps(e, s, 0.0));
    SumScaled(Exps(e, s, 0.0), 1.0 / total);
    forall i | 0 <= i < |s| ensures Softmax(e, s)[i] > 0.0 {
      Positive(e, s[i] - 0.0);
    }
  }

  /** Dividing the weighted sum of the exponentials by their sum is attention. */
  lemma NormalizedSum(e: real -> real, s: seq<real>, v: seq<Row>, n: nat, m: real)
    requires IsExp(e) && s != [] && |s| == |v| && AllOfSize(v, n)
    ensures Sum(Exps(e, s, m)) > 0.0
    ensures Scaled(WeightedSum(Exps(e, s, m), v, n), 1.0 / Sum(Exps(e, s, m))) == WeightedSum(Softmax(e, s), v, n)
  {
    Normalized(e, s, m);
    WeightedSumScaled(Exps(e, s, m), v, n, 1.0 / Sum(Exps(e, s, m)));
  }

  lemma ScaledByOne(x: Row)
    ensures Scaled(x, 1.0) == x
  {
  }

  lemma WeightedSumNext(w: seq<real>, v: seq<Row>, n: nat, x: real, row: Row)
    requires |w| == |v| && AllOfSize(v, n) && |row| == n
    ensures WeightedSum(w + [x], v + [row], n) == AddScaled(WeightedSum(w, v, n), x, row)
  {
    assert (w + [x])[..|w|] == w && (v + [row])[..|v|] == v;
  }

  lemma SumNext(w: seq<real>, x: real)
    ensures Sum(w + [x]) == Sum(w) + x
  {
    assert (w + [x])[..|w|] == w;
  }

  lemma ExpsNext(e: real -> real, s: seq<real>, x: real, m: real)
    ensures Exps(e, s + [x], m) == Exps(e, s, m) + [e(x - m)]
  {
  }

  /** Rescaling the running sums to a new maximum. */
  lemma Rescaled(e: real -> real, s: seq<real>, v: seq<Row>, n: nat, m: Option<real>, l: real, o: Row, m': real)
    requires IsExp(e) && Online(e, s, v, n, m, l, o)
    ensures var alpha := if m == None then 1.0 else e(m.value - m');
            && l * alpha == Sum(Exps(e, s, m'))
            && Scaled(o, alpha) == WeightedSum(Exps(e, s, m'), v, n)
  {
    if s == [] {
      ScaledByOne(o);
    } else {
      ExpsShift(e, s, m.value, m');
      SumScaled(Exps(e, s, m.value), e(m.value - m'));
      WeightedSumScaled(Exps(e, s, m.value), v, n, e(m.value - m'));
    }
  }

  lemma ScoresPrefix(q: Row, keys: seq<Row>, scale: real, n: nat)
    requires AllOfSize(keys, |q|) && n <= |keys|
    ensures AllOfSize(keys[..n], |q|) && Scores(q, keys, scale)[..n] == Scores(q, keys[..n], scale)
  {
    var a, b := Scores(q, keys, scale)[..n], Scores(q, keys[..n], scale);
    forall i | 0 <= i < n ensures a[i] == b[i] {
      assert a[i] == Scores(q, keys, scale)[i] && keys[..n][i] == keys[i];
    }
    assert a == b;
  }

  lemma MaxNext(m: Option<real>, s: seq<real>, x: real)
    requires IsMaxOf(m, s)
    ensures IsMaxOf(MaxOf(m, x), s + [x])
  {
    var t := s + [x];
    assert t[|s|] == x;
    if s != [] && m.value >= x {
      var i :| 0 <= i < |s| && s[i] == m.value;
      assert t[i] == m.value;
    }
  }

  lemma MaxJoin(a: Option<real>, s: seq<real>, b: real, t: seq<real>)
    requires IsMaxOf(a, s) && IsMax(b, t)
    ensures IsMaxOf(MaxOf(a, b), s + t)
  {
    var u := s + t;
    var j :| 0 <= j < |t| && t[j] == b;
    assert u[|s| + j] == b;
    if s != [] && a.value >= b {
      var i :| 0 <= i < |s| && s[i] == a.value;
      assert u[i] == a.value;
    }
  }

  lemma ExpsJoin(e: real -> real, s: seq<real>, t: seq<real>, m: real)
    ensures Exps(e, s + t, m) == Exps(e, s, m) + Exps(e, t, m)
  {
  }

  lemma {:induction false} SumJoin(x: seq<real>, y: seq<real>)
    ensures Sum(x + y) == Sum(x) + Sum(y)
  {
    if y == [] {
      assert x + y == x;
    } else {
      var n := |y| - 1;
      assert (x + y)[..|x + y| - 1] == x + y[..n];
      SumJoin(x, y[..n]);
    }
  }

  lemma PartSumNext(e: real -> real, s: seq<real>, from: nat, k: nat, limit: nat, m: real)
    requires from <= Seen(k, limit) && k < |s|
    ensures from <= Seen(k + 1, limit) <= |s|
    ensures PartSum(e, s, from, k + 1, limit, m) ==
            PartSum(e, s, from, k, limit, m) + Exponential(e, if k < limit then Some(s[k]) else None, m)
  {
    if k < limit {
      var before, x := s[from..k], s[k];
      assert s[from..k + 1] == before + [x];
      ExpsNext(e, before, x, m);
      SumNext(Exps(e, before, m), e(x - m));
    }
  }

  lemma PartRowNext(e: real -> real, s: seq<real>, v: seq<Row>, n: nat, k: nat, limit: nat, m: real)
    requires |s| == |v| && AllOfSize(v, n) && k < |s|
    ensures PartRow(e, s, v, n, k + 1, limit, m) ==
            if k < limit then AddScaled(PartRow(e, s, v, n, k, limit, m), e(s[k] - m), v[k])
            else PartRow(e, s, v, n, k, limit, m)
  {
    if k < limit {
      var x, row := s[k], v[k];
      assert s[..k + 1] == s[..k] + [x] && v[..k + 1] == v[..k] + [row];
      ExpsNext(e, s[..k], x, m);
      WeightedSumNext(Exps(e, s[..k], m), v[..k], n, e(x - m), row);
    }
  }

  /** Joining a tile: the rescaled running sum and the tile's sum are the running sum over both. */
  lemma TileSum(e: real -> real, s: seq<real>, kt: nat, n: nat, m: real)
    requires kt <= n <= |s|
    ensures Sum(Exps(e, s[..n], m)) == Sum(Exps(e, s[..kt], m)) + Sum(Exps(e, s[kt..n], m))
  {
    CutRange(s, kt, n);
    ExpsJoin(e, s[..kt], s[kt..n], m);
    SumJoin(Exps(e, s[..kt], m), Exps(e, s[kt..n], m));
  }

  lemma {:induction false} WeightedSumAt(w: seq<real>, v: seq<Row>, n: nat, d: nat)
    requires |w| == |v| && AllOfSize(v, n) && d < n
    ensures WeightedSum(w, v, n)[d] == ColumnSum(w, v, n, d)
  {
    if w != [] {
      WeightedSumAt(w[..|w| - 1], v[..|v| - 1], n, d);
    }
  }

  lemma {:induction false} ZeroWeights(w: seq<real>, v: seq<Row>, n: nat, k: nat)
    requires |w| == |v| && AllOfSize(v, n) && k <= |w| && forall i :: k <= i < |w| ==> w[i] == 0.0
    ensures WeightedSum(w, v, n) == WeightedSum(w[..k], v[..k], n)
  {
    if |w| > k {
      var j := |w| - 1;
      ZeroWeights(w[..j], v[..j], n, k);
      assert w[..j][..k] == w[..k] && v[..j][..k] == v[..k];
      AddNothing(WeightedSum(w[..j], v[..j], n), v[j]);
    } else {
      assert w[..k] == w && v[..k] == v;
    }
  }

  lemma AddNothing(x: Row, v: Row)
    requires |x| == |v|
    ensures AddScaled(x, 0.0, v) == x
  {
    forall d | 0 <= d < |x| ensures AddScaled(x, 0.0, v)[d] == x[d] {
    }
  }

  lemma ColumnNext(w: seq<real>, v: seq<Row>, n: nat, d: nat, k: nat)
    requires |w| == |v| && AllOfSize(v, n) && d < n && k < |w|
    ensures ColumnSum(w[..k + 1], v[..k + 1], n, d) == ColumnSum(w[..k], v[..k], n, d) + w[k] * v[k][d]
  {
    assert w[..k + 1][..k] == w[..k] && v[..k + 1][..k] == v[..k];
  }

  /** A row of weights that is the softmax of the unmasked scores, and zero elsewhere, gives attention. */
  lemma MaskedAttention(e: real -> real, q: Row, keys: seq<Row>, values: seq<Row>, scale: real, w: seq<real>, n: nat)
    requires |keys| == |values| == |w| && AllOfSize(keys, |q|) && AllOfSize(values, |q|) && n <= |keys|
    requires w[..n] == Softmax(e, Scores(q, keys, scale)[..n]) && forall i :: n <= i < |w| ==> w[i] == 0.0
    ensures WeightedSum(w, values, |q|) == Attend(e, q, keys[..n], values[..n], scale)
  {
    ZeroWeights(w, values, |q|, n);
    ScoresPrefix(q, keys, scale, n);
  }

  lemma DivideIsScale(e: real -> real, s: seq<real>, m: real, i: nat)
    requires IsExp(e) && i < |s|
    ensures Sum(Exps(e, s, m)) > 0.0 && e(s[i] - m) / Sum(Exps(e, s, m)) == Softmax(e, s)[i]
  {
    Normalized(e, s, m);
    var total := Sum(Exps(e, s, m));
    assert Scaled(Exps(e, s, m), 1.0 / total)[i] == e(s[i] - m) * (1.0 / total);
    assert e(s[i] - m) * (1.0 / total) == e(s[i] - m) / total;
  }
}
