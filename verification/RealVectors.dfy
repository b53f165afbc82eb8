/** Rows of reals: dot products, scaling and addition, and the lane-wise loops that compute them. */
module RealVectorSpec {
  import opened Arithmetic

  type Row = seq<real>

  function ZeroRow(n: nat): Row { seq(n, _ => 0.0) }

  function Scaled(x: Row, a: real): Row {
    seq(|x|, d requires 0 <= d < |x| => x[d] * a)
  }

  function AddScaled(x: Row, w: real, v: Row): Row
    requires |v| == |x|
  {
    seq(|x|, d requires 0 <= d < |x| => x[d] + w * v[d])
  }

  function Sum(x: seq<real>): real {
    if x == [] then 0.0 else Sum(x[..|x| - 1]) + x[|x| - 1]
  }

  function Dot(a: Row, b: Row): real
    requires |a| == |b|
  {
    if a == [] then 0.0 else Dot(a[..|a| - 1], b[..|b| - 1]) + a[|a| - 1] * b[|b| - 1]
  }

  /** The part of a row that belongs to one head. */
  function Head(row: Row, head: nat, n: nat): (r: Row)
    requires head * n + n <= |row|
    ensures |r| == n
  {
    row[head * n..head * n + n]
  }

  /** Row t of a flat buffer of rows of h floats. */
  function RowOf(buffer: seq<real>, t: nat, h: nat): (r: Row)
    requires t * h + h <= |buffer|
    ensures |r| == h
  {
    var start := t * h;
    buffer[start..start + h]
  }

  /** The first n rows of a flat buffer of rows of h floats. */
  function RowsOf(buffer: seq<real>, n: nat, h: nat): (r: seq<Row>)
    requires n * h <= |buffer|
    ensures |r| == n && forall t :: 0 <= t < n ==> |r[t]| == h
  {
    seq(n, t requires 0 <= t < n => (RowInBuffer(t, n, h); RowOf(buffer, t, h)))
  }

  function Splice(storage: seq<real>, i: nat, row: Row): seq<real>
    requires i + |row| <= |storage|
  {
    storage[..i] + row + storage[i + |row|..]
  }
}

module RealVectors {
  import opened RealVectorSpec

  lemma {:induction false} DotSplit(a: Row, b: Row, c: Row, d: Row)
    requires |a| == |b| && |c| == |d|
    ensures Dot(a + c, b + d) == Dot(a, b) + Dot(c, d)
  {
    if c == [] {
      assert a + c == a && b + d == b;
    } else {
      var n := |c| - 1;
      assert (a + c)[..|a + c| - 1] == a + c[..n] && (b + d)[..|b + d| - 1] == b + d[..n];
      DotSplit(a, b, c[..n], d[..n]);
    }
  }

  lemma DotNext(a: Row, b: Row, d: nat)
    requires d < |a| == |b|
    ensures Dot(a[..d + 1], b[..d + 1]) == Dot(a[..d], b[..d]) + a[d] * b[d]
  {
    assert a[..d + 1][..d] == a[..d] && b[..d + 1][..d] == b[..d];
  }

  lemma {:induction false} LanesAdd(lanes: seq<real>, a: Row, b: Row, sums: seq<real>)
    requires |lanes| == |a| == |b| == |sums|
    requires forall j :: 0 <= j < |lanes| ==> sums[j] == lanes[j] + a[j] * b[j]
    ensures Sum(sums) == Sum(lanes) + Dot(a, b)
  {
    if lanes != [] {
      var n := |lanes| - 1;
      LanesAdd(lanes[..n], a[..n], b[..n], sums[..n]);
    }
  }

  lemma {:induction false} SumOfZeros(n: nat)
    ensures Sum(ZeroRow(n)) == 0.0
  {
    if n > 0 {
      assert ZeroRow(n)[..n - 1] == ZeroRow(n - 1);
      SumOfZeros(n - 1);
    }
  }

  lemma LaneStep(lanes: seq<real>, a: Row, b: Row, pa: Row, pb: Row, sums: seq<real>)
    requires |a| == |b| && |pa| == |pb| == |lanes| == |sums|
    requires forall j :: 0 <= j < |lanes| ==> sums[j] == lanes[j] + pa[j] * pb[j]
    requires Sum(lanes) == Dot(a, b)
    ensures Sum(sums) == Dot(a + pa, b + pb)
  {
    LanesAdd(lanes, pa, pb, sums);
    DotSplit(a, b, pa, pb);
  }

  lemma ScaledAt(x: Row, a: real, y: Row)
    requires |y| == |x| && forall j :: 0 <= j < |x| ==> y[j] == x[j] * a
    ensures y == Scaled(x, a)
  {
    forall j | 0 <= j < |x| ensures y[j] == Scaled(x, a)[j] {
    }
  }

  lemma AddedAt(x: Row, w: real, v: Row, y: Row)
    requires |y| == |x| == |v| && forall j :: 0 <= j < |x| ==> y[j] == x[j] + w * v[j]
    ensures y == AddScaled(x, w, v)
  {
    forall j | 0 <= j < |x| ensures y[j] == AddScaled(x, w, v)[j] {
    }
  }

  /** One vector multiply-add. */
  method AddLanes(lanes: seq<real>, pa: Row, pb: Row) returns (sums: seq<real>)
    requires |lanes| == |pa| == |pb|
    ensures |sums| == |lanes| && forall j :: 0 <= j < |lanes| ==> sums[j] == lanes[j] + pa[j] * pb[j]
  {
    sums := seq(|lanes|, j requires 0 <= j < |lanes| => lanes[j] + pa[j] * pb[j]);
  }

  /** The vector part of a dot product: d of the positions are summed over the lanes. */
  method WholeLanes(a: Row, b: Row, width: nat) returns (dot: real, d: nat)
    requires |a| == |b| && width > 0
    ensures d <= |a| && dot == Dot(a[..d], b[..d])
  {
    var lanes := ZeroRow(width);
    SumOfZeros(width);
    d := 0;
    while d + width <= |a|
      invariant d <= |a| && |lanes| == width
      invariant Sum(lanes) == Dot(a[..d], b[..d])
    {
      var pa, pb := a[d..d + width], b[d..d + width];
      var sums := AddLanes(lanes, pa, pb);
      LaneStep(lanes, a[..d], b[..d], pa, pb, sums);
      assert a[..d] + pa == a[..d + width] && b[..d] + pb == b[..d + width];
      lanes := sums;
      d := d + width;
    }
    dot := SumLanes(lanes);
  }

  /** The vector dot product: whole lanes first, then their sum, then the tail one by one. */
  method DotLanes(a: Row, b: Row, width: nat) returns (dot: real)
    requires |a| == |b| && width > 0
    ensures dot == Dot(a, b)
  {
    var d: nat;
    dot, d := WholeLanes(a, b, width);
    while d < |a|
      invariant d <= |a| && dot == Dot(a[..d], b[..d])
    {
      DotNext(a, b, d);
      dot := dot + a[d] * b[d];
      d := d + 1;
    }
    assert a[..d] == a && b[..d] == b;
  }

  method SumLanes(lanes: seq<real>) returns (sum: real)
    ensures sum == Sum(lanes)
  {
    sum := 0.0;
    for j := 0 to |lanes|
      invariant sum == Sum(lanes[..j])
    {
      assert lanes[..j + 1][..j] == lanes[..j];
      sum := sum + lanes[j];
    }
    assert lanes[..|lanes|] == lanes;
  }

  /** The plain dot product loop. */
  method DotPlain(a: Row, b: Row) returns (dot: real)
    requires |a| == |b|
    ensures dot == Dot(a, b)
  {
    dot := 0.0;
    for d := 0 to |a|
      invariant dot == Dot(a[..d], b[..d])
    {
      DotNext(a, b, d);
      dot := dot + a[d] * b[d];
    }
    assert a[..|a|] == a && b[..|b|] == b;
  }

  /** The loops that scale a row in place, lanes first. */
  method ScaleRow(x: Row, a: real, width: nat) returns (y: Row)
    requires width > 0
    ensures y == Scaled(x, a)
  {
    y := x;
    var d := 0;
    while d + width <= |x|
      invariant 0 <= d <= |x| == |y|
      invariant forall j :: 0 <= j < |x| ==> y[j] == if j < d then x[j] * a else x[j]
    {
      y := seq(|y|, j requires 0 <= j < |y| => if d <= j < d + width then y[j] * a else y[j]);
      d := d + width;
    }
    while d < |x|
      invariant 0 <= d <= |x| == |y|
      invariant forall j :: 0 <= j < |x| ==> y[j] == if j < d then x[j] * a else x[j]
    {
      y := y[d := y[d] * a];
      d := d + 1;
    }
    ScaledAt(x, a, y);
  }

  /** The loops that add a weighted row in place, lanes first. */
  method AddRow(x: Row, w: real, v: Row, width: nat) returns (y: Row)
    requires |v| == |x| && width > 0
    ensures y == AddScaled(x, w, v)
  {
    y := x;
    var d := 0;
    while d + width <= |x|
      invariant 0 <= d <= |x| == |y|
      invariant forall j :: 0 <= j < |x| ==> y[j] == if j < d then x[j] + w * v[j] else x[j]
    {
      y := seq(|y|, j requires 0 <= j < |y| => if d <= j < d + width then y[j] + w * v[j] else y[j]);
      d := d + width;
    }
    while d < |x|
      invariant 0 <= d <= |x| == |y|
      invariant forall j :: 0 <= j < |x| ==> y[j] == if j < d then x[j] + w * v[j] else x[j]
    {
      y := y[d := y[d] + w * v[d]];
      d := d + 1;
    }
    AddedAt(x, w, v, y);
  }
}
