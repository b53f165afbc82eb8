/** Mixed-radix positions: row-major linear positions against multi-indices. */
module MixedRadix {
  import opened Arithmetic

  function Size(dims: seq<nat>): nat {
    if dims == [] then 1 else dims[0] * Size(dims[1..])
  }

  ghost predicate InDims(dims: seq<nat>, index: seq<nat>) {
    |index| == |dims| && forall i :: 0 <= i < |dims| ==> index[i] < dims[i]
  }

  /** The row-major position of a multi-index. */
  function Linear(dims: seq<nat>, index: seq<nat>): nat
    requires |index| == |dims|
  {
    if dims == [] then 0 else index[0] * Size(dims[1..]) + Linear(dims[1..], index[1..])
  }

  /** The multi-index at a row-major position. */
  function Index(dims: seq<nat>, linear: nat): (r: seq<nat>)
    ensures |r| == |dims|
  {
    if dims == [] then []
    else
      var stride := Size(dims[1..]);
      if stride == 0 then seq(|dims|, _ => 0) else [linear / stride] + Index(dims[1..], linear % stride)
  }

  lemma Positives(a: nat, b: nat)
    requires a * b > 0
    ensures a > 0 && b > 0
  {
  }

  lemma SizeTail(dims: seq<nat>)
    requires Size(dims) > 0 && dims != []
    ensures Size(dims[1..]) > 0 && dims[0] > 0
  {
    Positives(dims[0], Size(dims[1..]));
  }

  lemma QuotientBelow(linear: nat, d: nat, stride: nat)
    requires stride > 0 && linear < d * stride
    ensures linear / stride < d
  {
    var q := linear / stride;
    assert linear == stride * q + linear % stride;
    if q >= d {
      Monotone(d, q, stride);
      assert false;
    }
  }

  lemma DivModOf(q: nat, r: nat, stride: nat)
    requires r < stride
    ensures (q * stride + r) / stride == q && (q * stride + r) % stride == r
  {
    var x := q * stride + r;
    assert x == stride * (x / stride) + x % stride;
    assert stride * (q - x / stride) == x % stride - r;
    ScaledBounds(stride, q - x / stride);
  }

  lemma FirstDigit(dims: seq<nat>, linear: nat) returns (digit: nat, rem: nat)
    requires dims != [] && linear < Size(dims)
    ensures digit < dims[0] && rem < Size(dims[1..]) && digit * Size(dims[1..]) + rem == linear
    ensures Index(dims, linear) == [digit] + Index(dims[1..], rem)
  {
    SizeTail(dims);
    var stride := Size(dims[1..]);
    digit, rem := linear / stride, linear % stride;
    QuotientBelow(linear, dims[0], stride);
    QuotientTimes(linear, stride);
  }

  /** Every position below the size has a multi-index inside the dims, and it is that position's. */
  lemma {:induction false} IndexThenLinear(dims: seq<nat>, linear: nat)
    requires linear < Size(dims)
    ensures InDims(dims, Index(dims, linear)) && Linear(dims, Index(dims, linear)) == linear
    decreases |dims|
  {
    if dims != [] {
      var digit, rem := FirstDigit(dims, linear);
      IndexThenLinear(dims[1..], rem);
      DigitInFront(dims, digit, Index(dims[1..], rem));
    }
  }

  lemma QuotientTimes(x: nat, d: nat)
    requires d > 0
    ensures x / d * d + x % d == x
  {
  }

  lemma DigitInFront(dims: seq<nat>, digit: nat, rest: seq<nat>)
    requires dims != [] && digit < dims[0] && InDims(dims[1..], rest)
    ensures InDims(dims, [digit] + rest)
    ensures Linear(dims, [digit] + rest) == digit * Size(dims[1..]) + Linear(dims[1..], rest)
  {
    assert ([digit] + rest)[1..] == rest;
  }

  /** Every multi-index inside the dims has a position below the size, and it is that position's multi-index. */
  lemma {:induction false} LinearThenIndex(dims: seq<nat>, index: seq<nat>)
    requires InDims(dims, index)
    ensures Linear(dims, index) < Size(dims) && Index(dims, Linear(dims, index)) == index
  {
    if dims != [] {
      assert InDims(dims[1..], index[1..]);
      LinearThenIndex(dims[1..], index[1..]);
      var stride, r := Size(dims[1..]), Linear(dims[1..], index[1..]);
      SlotBelow(index[0], stride, r, dims[0]);
      DivModOf(index[0], r, stride);
      assert index == [index[0]] + index[1..];
    }
  }

  // ---------------------------------------------------------------- swapping two axes

  function Swap(s: seq<nat>, a: nat, b: nat): (r: seq<nat>)
    requires a < |s| && b < |s|
    ensures |r| == |s|
  {
    s[a := s[b]][b := s[a]]
  }

  lemma SwapTwice(s: seq<nat>, a: nat, b: nat)
    requires a < |s| && b < |s|
    ensures Swap(Swap(s, a, b), a, b) == s
  {
  }

  lemma SwapInDims(dims: seq<nat>, index: seq<nat>, a: nat, b: nat)
    requires a < |dims| && b < |dims| && InDims(dims, index)
    ensures InDims(Swap(dims, a, b), Swap(index, a, b))
  {
  }

  lemma {:induction false} SizeWithout(s: seq<nat>, i: nat, v: nat)
    requires i < |s|
    ensures Size(s[i := v]) * s[i] == Size(s) * v
  {
    var t := s[i := v];
    if i == 0 {
      assert t[1..] == s[1..];
      assert v * Size(s[1..]) * s[0] == s[0] * Size(s[1..]) * v;
    } else {
      SizeWithout(s[1..], i - 1, v);
      assert t[1..] == s[1..][i - 1 := v];
      var x, y := Size(t[1..]), Size(s[1..]);
      Regroup(s[0], x, s[i], y, v);
    }
  }

  lemma Regroup(a: nat, x: nat, p: nat, y: nat, v: nat)
    requires x * p == y * v
    ensures a * x * p == a * y * v
  {
    assert a * x * p == a * (x * p) && a * y * v == a * (y * v);
  }

  lemma {:induction false} ZeroSize(s: seq<nat>, i: nat)
    requires i < |s| && s[i] == 0
    ensures Size(s) == 0
  {
    if i > 0 {
      ZeroSize(s[1..], i - 1);
      assert s[0] * 0 == 0;
    }
  }

  lemma CancelFactor(x: nat, y: nat, p: nat)
    requires p > 0 && x * p == y * p
    ensures x == y
  {
    assert p * (x - y) == 0;
    ScaledBounds(p, x - y);
  }

  lemma SwapSize(s: seq<nat>, a: nat, b: nat)
    requires a < |s| && b < |s|
    ensures Size(Swap(s, a, b)) == Size(s)
  {
    var m := s[a := s[b]];
    SizeWithout(s, a, s[b]);
    SizeWithout(m, b, s[a]);
    if s[b] == 0 {
      ZeroSize(s, b);
      ZeroSize(Swap(s, a, b), a);
    } else {
      assert Swap(s, a, b) == m[b := s[a]] && m[b] == s[b];
      CancelFactor(Size(Swap(s, a, b)), Size(s), s[b]);
    }
  }

  // ---------------------------------------------------------------- digits from the right

  lemma {:induction false} SizeLast(dims: seq<nat>)
    requires dims != []
    ensures Size(dims) == Size(dims[..|dims| - 1]) * dims[|dims| - 1]
  {
    var n := |dims| - 1;
    if n == 0 {
      assert dims[..0] == [] && dims[1..] == [];
    } else {
      SizeLast(dims[1..]);
      assert dims[1..][..n - 1] == dims[..n][1..];
      var x := Size(dims[..n][1..]);
      assert dims[0] * (x * dims[n]) == dims[0] * x * dims[n];
    }
  }

  lemma {:induction false} LinearLast(dims: seq<nat>, index: seq<nat>)
    requires dims != [] && |index| == |dims|
    ensures Linear(dims, index) ==
            Linear(dims[..|dims| - 1], index[..|dims| - 1]) * dims[|dims| - 1] + index[|dims| - 1]
  {
    var n := |dims| - 1;
    if n == 0 {
      assert dims[..0] == [] && index[..0] == [] && dims[1..] == [] && index[1..] == [];
    } else {
      var inner, innerIndex := dims[..n], index[..n];
      LinearLast(dims[1..], index[1..]);
      SizeLast(dims[1..]);
      assert dims[1..][..n - 1] == inner[1..] && index[1..][..n - 1] == innerIndex[1..];
      assert inner[0] == dims[0] && innerIndex[0] == index[0];
      Spread(index[0], Size(inner[1..]), dims[n], Linear(inner[1..], innerIndex[1..]));
    }
  }

  lemma Spread(a: nat, x: nat, d: nat, y: nat)
    ensures a * (x * d) + y * d == (a * x + y) * d
  {
    assert a * (x * d) == a * x * d;
  }

  /** The last digit is the remainder by the last dim; the others are the digits of the quotient. */
  lemma IndexFromRight(dims: seq<nat>, linear: nat)
    requires dims != [] && linear < Size(dims)
    ensures var n, d := |dims| - 1, dims[|dims| - 1];
            && d > 0 && linear / d < Size(dims[..n])
            && Index(dims, linear) == Index(dims[..n], linear / d) + [linear % d]
  {
    var n := |dims| - 1;
    var index := Index(dims, linear);
    IndexThenLinear(dims, linear);
    LinearLast(dims, index);
    DivModOf(Linear(dims[..n], index[..n]), index[n], dims[n]);
    LinearThenIndex(dims[..n], index[..n]);
    assert index == index[..n] + [index[n]];
  }
}

/** The rank-n transpose of src/runtime/kernels/cpu_kernels.cpp and the index arithmetic of its CUDA counterpart. */
module Transposes {
  import opened MixedRadix
  import opened Sequences

  /** Where the element at a position of the output comes from. */
  function Source(dims: seq<nat>, a: nat, b: nat, linear: nat): nat
    requires a < |dims| && b < |dims|
  {
    Linear(dims, Swap(Index(Swap(dims, a, b), linear), a, b))
  }

  lemma SourceBelow(dims: seq<nat>, a: nat, b: nat, linear: nat)
    requires a < |dims| && b < |dims| && linear < Size(dims)
    ensures Source(dims, a, b, linear) < Size(dims)
  {
    var out := Swap(dims, a, b);
    SwapSize(dims, a, b);
    IndexThenLinear(out, linear);
    SwapInDims(out, Index(out, linear), a, b);
    SwapTwice(dims, a, b);
    LinearThenIndex(dims, Swap(Index(out, linear), a, b));
  }

  ghost predicate IsTransposed<T(!new)>(y: seq<T>, x: seq<T>, dims: seq<nat>, a: nat, b: nat)
    requires a < |dims| && b < |dims|
  {
    |y| == |x| == Size(dims) && forall p: nat :: p < |y| ==>
                                  Source(dims, a, b, p) < |x| && y[p] == x[Source(dims, a, b, p)]
  }

  /** Element law: the output at a multi-index is the input at the multi-index with the two axes exchanged. */
  lemma TransposedAt<T(!new)>(y: seq<T>, x: seq<T>, dims: seq<nat>, a: nat, b: nat, index: seq<nat>)
    requires a < |dims| && b < |dims| && IsTransposed(y, x, dims, a, b) && InDims(Swap(dims, a, b), index)
    ensures Linear(Swap(dims, a, b), index) < |y| && Linear(dims, Swap(index, a, b)) < |x|
    ensures y[Linear(Swap(dims, a, b), index)] == x[Linear(dims, Swap(index, a, b))]
  {
    var out := Swap(dims, a, b);
    SwapSize(dims, a, b);
    LinearThenIndex(out, index);
    assert Source(dims, a, b, Linear(out, index)) == Linear(dims, Swap(index, a, b));
  }

  lemma SourceTwice(dims: seq<nat>, a: nat, b: nat, p: nat)
    requires a < |dims| && b < |dims| && p < Size(dims)
    ensures Source(dims, a, b, Source(Swap(dims, a, b), a, b, p)) == p
  {
    var out, index := Swap(dims, a, b), Index(dims, p);
    SwapTwice(dims, a, b);
    IndexThenLinear(dims, p);
    SwapInDims(dims, index, a, b);
    LinearThenIndex(out, Swap(index, a, b));
    SwapTwice(index, a, b);
  }

  /** Transposing twice with the same axes restores the input. */
  lemma TransposeTwice<T(!new)>(x: seq<T>, y: seq<T>, z: seq<T>, dims: seq<nat>, a: nat, b: nat)
    requires a < |dims| && b < |dims|
    requires IsTransposed(y, x, dims, a, b) && IsTransposed(z, y, Swap(dims, a, b), a, b)
    ensures z == x
  {
    SwapSize(dims, a, b);
    forall p: nat | p < |z| ensures z[p] == x[p] {
      SourceTwice(dims, a, b, p);
    }
  }

  // ---------------------------------------------------------------- the CPU loops

  /** Strides from the last axis to the first. */
  method Strides(dims: seq<nat>) returns (strides: seq<nat>)
    requires dims != []
    ensures |strides| == |dims| && forall i :: 0 <= i < |dims| ==> strides[i] == Size(dims[i + 1..])
  {
    strides := seq(|dims|, _ => 1);
    var i := |dims| - 2;
    assert dims[|dims|..] == [];
    while i >= 0
      invariant -1 <= i < |dims| - 1 || i == -1
      invariant |strides| == |dims|
      invariant forall j :: i < j < |dims| ==> strides[j] == Size(dims[j + 1..])
    {
      assert dims[i + 1..][1..] == dims[i + 2..];
      SizeOfRest(dims, i);
      strides := strides[i := strides[i + 1] * dims[i + 1]];
      i := i - 1;
    }
  }

  lemma SizeOfRest(dims: seq<nat>, i: nat)
    requires i + 1 < |dims|
    ensures Size(dims[i + 1..]) == Size(dims[i + 2..]) * dims[i + 1]
  {
    assert dims[i + 1..][1..] == dims[i + 2..];
  }

  lemma {:induction false} PositiveRest(dims: seq<nat>, i: nat)
    requires Size(dims) > 0 && i <= |dims|
    ensures Size(dims[i..]) > 0
  {
    if i > 0 {
      PositiveRest(dims, i - 1);
      SizeTail(dims[i - 1..]);
      assert dims[i - 1..][1..] == dims[i..];
    } else {
      assert dims[0..] == dims;
    }
  }

  lemma DigitStep(dims: seq<nat>, i: nat, rem: nat)
    requires Size(dims) > 0 && i < |dims|
    ensures var stride := Size(dims[i + 1..]);
            stride > 0 && Index(dims[i..], rem) == [rem / stride] + Index(dims[i + 1..], rem % stride)
  {
    PositiveRest(dims, i + 1);
    assert dims[i..][1..] == dims[i + 1..];
  }

  /** The digit loop: quotient by the stride, remainder to the next axis. */
  method Digits(dims: seq<nat>, strides: seq<nat>, linear: nat) returns (index: seq<nat>)
    requires linear < Size(dims) && |strides| == |dims|
    requires forall i :: 0 <= i < |dims| ==> strides[i] == Size(dims[i + 1..])
    ensures index == Index(dims, linear)
  {
    index := [];
    var rem := linear;
    assert dims[0..] == dims;
    for i := 0 to |dims|
      invariant |index| == i
      invariant index + Index(dims[i..], rem) == Index(dims, linear)
    {
      var stride := strides[i];
      DigitStep(dims, i, rem);
      ghost var rest := Index(dims[i + 1..], rem % stride);
      assert index + ([rem / stride] + rest) == index + [rem / stride] + rest;
      index := index + [rem / stride];
      rem := rem % stride;
    }
    assert index + [] == index;
  }

  /** The position loop: the sum of digit times stride. */
  method Position(dims: seq<nat>, strides: seq<nat>, index: seq<nat>) returns (src: nat)
    requires |index| == |strides| == |dims|
    requires forall i :: 0 <= i < |dims| ==> strides[i] == Size(dims[i + 1..])
    ensures src == Linear(dims, index)
  {
    src := 0;
    assert dims[0..] == dims && index[0..] == index;
    for i := 0 to |dims|
      invariant src + Linear(dims[i..], index[i..]) == Linear(dims, index)
    {
      assert dims[i..][1..] == dims[i + 1..] && index[i..][1..] == index[i + 1..];
      src := src + index[i] * strides[i];
    }
  }

  /** transpose: for every rank, dims and pair of axes. */
  method Transpose<T(!new)>(x: array<T>, y: array<T>, dims: seq<nat>, a: nat, b: nat)
    requires a < |dims| && b < |dims| && x != y && x.Length == y.Length == Size(dims)
    modifies y
    ensures IsTransposed(y[..], x[..], dims, a, b)
  {
    if a == b {
      SameAxis(x[..], dims, a);
      CopyAll(x, y);
      return;
    }
    var out := Swap(dims, a, b);
    SwapSize(dims, a, b);
    var inStrides := Strides(dims);
    var outStrides := Strides(out);
    var total := out[0] * outStrides[0];
    assert out[1..] == out[0 + 1..];
    for linear := 0 to total
      invariant total == y.Length
      invariant Filled(y[..], x[..], dims, a, b, linear)
    {
      var src := SourceOf(dims, out, inStrides, outStrides, a, b, linear);
      SourceBelow(dims, a, b, linear);
      FilledNext(y[..], x[..], dims, a, b, linear);
      y[linear] := x[src];
    }
  }

  /** The first n output elements are in place. */
  ghost predicate Filled<T(!new)>(y: seq<T>, x: seq<T>, dims: seq<nat>, a: nat, b: nat, n: nat)
    requires a < |dims| && b < |dims|
  {
    n <= |y| == |x| == Size(dims) && forall p: nat :: p < n ==>
                                       Source(dims, a, b, p) < |x| && y[p] == x[Source(dims, a, b, p)]
  }

  lemma FilledNext<T(!new)>(y: seq<T>, x: seq<T>, dims: seq<nat>, a: nat, b: nat, n: nat)
    requires a < |dims| && b < |dims| && Filled(y, x, dims, a, b, n) && n < |y| && Source(dims, a, b, n) < |x|
    ensures Filled(y[n := x[Source(dims, a, b, n)]], x, dims, a, b, n + 1)
  {
  }

  /** The loop body: where output element linear comes from. */
  method SourceOf(dims: seq<nat>, out: seq<nat>, inStrides: seq<nat>, outStrides: seq<nat>, a: nat, b: nat, linear: nat)
    returns (src: nat)
    requires a < |dims| && b < |dims| && out == Swap(dims, a, b) && linear < Size(out)
    requires |inStrides| == |outStrides| == |dims|
    requires forall i :: 0 <= i < |dims| ==> inStrides[i] == Size(dims[i + 1..])
    requires forall i :: 0 <= i < |dims| ==> outStrides[i] == Size(out[i + 1..])
    ensures src == Source(dims, a, b, linear)
  {
    var outIndex := Digits(out, outStrides, linear);
    src := Position(dims, inStrides, Swap(outIndex, a, b));
  }

  /** The plain copy for equal axes. */
  method CopyAll<T>(x: array<T>, y: array<T>)
    requires x != y && x.Length == y.Length
    modifies y
    ensures y[..] == x[..]
  {
    for i := 0 to x.Length
      invariant y[..i] == x[..i]
    {
      y[i] := x[i];
    }
    assert y[..] == x[..];
  }

  lemma SameAxis<T(!new)>(x: seq<T>, dims: seq<nat>, a: nat)
    requires a < |dims| && |x| == Size(dims)
    ensures IsTransposed(x, x, dims, a, a)
  {
    assert Swap(dims, a, a) == dims;
    forall p: nat | p < |x| ensures Source(dims, a, a, p) == p {
      IndexThenLinear(dims, p);
      assert Swap(Index(dims, p), a, a) == Index(dims, p);
    }
  }

  // ---------------------------------------------------------------- the CUDA index loop

  function Total(s: seq<nat>): nat {
    if s == [] then 0 else Total(s[1..]) + s[0]
  }

  lemma {:induction false} TotalUpdate(s: seq<nat>, i: nat, v: nat)
    requires i < |s|
    ensures Total(s[i := v]) + s[i] == Total(s) + v
  {
    var t := s[i := v];
    if i == 0 {
      assert t[1..] == s[1..];
    } else {
      TotalUpdate(s[1..], i - 1, v);
      assert t[1..] == s[1..][i - 1 := v];
    }
  }

  lemma TotalSwap(s: seq<nat>, a: nat, b: nat)
    requires a < |s| && b < |s|
    ensures Total(Swap(s, a, b)) == Total(s)
  {
    TotalUpdate(s, a, s[b]);
    TotalUpdate(s[a := s[b]], b, s[a]);
  }

  function Axis(i: nat, a: nat, b: nat): nat {
    if i == a then b else if i == b then a else i
  }

  /** What each output axis adds to the source position, in the order of the output axes. */
  function Terms(dims: seq<nat>, index: seq<nat>, a: nat, b: nat): seq<nat>
    requires |index| == |dims| && a < |dims| && b < |dims|
  {
    seq(|dims|, i requires 0 <= i < |dims| => index[i] * Size(dims[Axis(i, a, b) + 1..]))
  }

  function InTerms(dims: seq<nat>, index: seq<nat>): seq<nat>
    requires |index| == |dims|
  {
    seq(|dims|, i requires 0 <= i < |dims| => index[i] * Size(dims[i + 1..]))
  }

  lemma {:induction false} LinearIsTotal(dims: seq<nat>, index: seq<nat>)
    requires |index| == |dims|
    ensures Linear(dims, index) == Total(InTerms(dims, index))
  {
    if dims != [] {
      LinearIsTotal(dims[1..], index[1..]);
      var t := InTerms(dims, index);
      forall i | 0 <= i < |dims| - 1 ensures t[1..][i] == InTerms(dims[1..], index[1..])[i] {
        assert dims[1..][i + 1..] == dims[i + 2..];
      }
      assert t[1..] == InTerms(dims[1..], index[1..]);
    }
  }

  lemma TermsAreSwapped(dims: seq<nat>, index: seq<nat>, a: nat, b: nat)
    requires |index| == |dims| && a < |dims| && b < |dims|
    ensures Total(Terms(dims, index, a, b)) == Linear(dims, Swap(index, a, b))
  {
    var t := Terms(dims, index, a, b);
    var u := InTerms(dims, Swap(index, a, b));
    forall i | 0 <= i < |dims| ensures u[i] == Swap(t, a, b)[i] {
      TermAt(dims, index, a, b, i);
    }
    assert u == Swap(t, a, b);
    TotalSwap(t, a, b);
    LinearIsTotal(dims, Swap(index, a, b));
  }

  lemma TermAt(dims: seq<nat>, index: seq<nat>, a: nat, b: nat, i: nat)
    requires |index| == |dims| && a < |dims| && b < |dims| && i < |dims|
    ensures InTerms(dims, Swap(index, a, b))[i] == Swap(Terms(dims, index, a, b), a, b)[i]
  {
    var t, j := Terms(dims, index, a, b), Axis(i, a, b);
    assert Swap(index, a, b)[i] == index[j] && Axis(j, a, b) == i;
    assert t[j] == index[j] * Size(dims[i + 1..]);
    assert Swap(t, a, b)[i] == t[j];
  }

  /** The kernel peels digits off from the last axis and adds each times the stride of the exchanged axis; the position
      is the one that the CPU computes. */
  method CudaSource(dims: seq<nat>, a: nat, b: nat, linear: nat) returns (src: nat)
    requires a < |dims| && b < |dims| && linear < Size(dims)
    ensures src == Source(dims, a, b, linear)
  {
    var rem := linear;
    src := 0;
    var i: nat := |dims|;
    PeelStart(dims, a, b, linear);
    while i > 0
      invariant i <= |dims| && Peeled(dims, a, b, linear, i, rem, src)
    {
      i := i - 1;
      rem, src := PeelOne(dims, a, b, linear, i, rem, src);
    }
    PeelEnd(dims, a, b, linear, rem, src);
  }

  /** The loop body: one digit, added times the stride of the exchanged axis. */
  method PeelOne(dims: seq<nat>, a: nat, b: nat, ghost linear: nat, i: nat, rem: nat, src: nat)
    returns (rem': nat, src': nat)
    requires a < |dims| && b < |dims| && i < |dims| && Peeled(dims, a, b, linear, i + 1, rem, src)
    ensures Peeled(dims, a, b, linear, i, rem', src')
  {
    var axis := Axis(i, a, b);
    var outDim := dims[axis];
    var stride := StrideOf(dims, axis);
    PeelPositive(dims, a, b, linear, i, rem, src, outDim);
    var digit: nat, rest: nat := rem % outDim, rem / outDim;
    var added := digit * stride;
    PeelStep(dims, a, b, linear, i, rem, src, outDim, stride, digit, rest, added);
    src', rem' := src + added, rest;
  }

  /** The digits from i on have been peeled off and added. */
  ghost predicate Peeled(dims: seq<nat>, a: nat, b: nat, linear: nat, i: nat, rem: nat, src: nat)
    requires a < |dims| && b < |dims| && i <= |dims|
  {
    var out, index := Swap(dims, a, b), Index(Swap(dims, a, b), linear);
    && rem < Size(out[..i]) && Index(out[..i], rem) == index[..i]
    && src == Total(Terms(dims, index, a, b)[i..])
  }

  lemma PeelStart(dims: seq<nat>, a: nat, b: nat, linear: nat)
    requires a < |dims| && b < |dims| && linear < Size(dims)
    ensures Peeled(dims, a, b, linear, |dims|, linear, 0)
  {
    var out := Swap(dims, a, b);
    SwapSize(dims, a, b);
    WholeSlices(out);
    WholeSlices(Index(out, linear));
    WholeSlices(Terms(dims, Index(out, linear), a, b));
  }

  lemma PeelPositive(dims: seq<nat>, a: nat, b: nat, linear: nat, i: nat, rem: nat, src: nat, outDim: nat)
    requires a < |dims| && b < |dims| && i < |dims| && Peeled(dims, a, b, linear, i + 1, rem, src)
    requires outDim == dims[Axis(i, a, b)]
    ensures outDim > 0
  {
    PeelDigit(Swap(dims, a, b), Index(Swap(dims, a, b), linear), i, rem);
  }

  lemma PeelStep(dims: seq<nat>, a: nat, b: nat, linear: nat, i: nat, rem: nat, src: nat, outDim: nat, stride: nat,
                 digit: nat, rest: nat, added: nat)
    requires a < |dims| && b < |dims| && i < |dims| && Peeled(dims, a, b, linear, i + 1, rem, src)
    requires outDim == dims[Axis(i, a, b)] > 0 && stride == Size(dims[Axis(i, a, b) + 1..])
    requires digit == rem % outDim && rest == rem / outDim && added == digit * stride
    ensures Peeled(dims, a, b, linear, i, rest, src + added)
  {
    var out, index := Swap(dims, a, b), Index(Swap(dims, a, b), linear);
    PeelDigit(out, index, i, rem);
    AddTerm(dims, index, a, b, i, digit, stride);
  }

  lemma PeelEnd(dims: seq<nat>, a: nat, b: nat, linear: nat, rem: nat, src: nat)
    requires a < |dims| && b < |dims| && Peeled(dims, a, b, linear, 0, rem, src)
    ensures src == Source(dims, a, b, linear)
  {
    var index := Index(Swap(dims, a, b), linear);
    assert Terms(dims, index, a, b)[0..] == Terms(dims, index, a, b);
    TermsAreSwapped(dims, index, a, b);
  }

  lemma AddTerm(dims: seq<nat>, index: seq<nat>, a: nat, b: nat, i: nat, digit: nat, stride: nat)
    requires |index| == |dims| && a < |dims| && b < |dims| && i < |dims|
    requires digit == index[i] && stride == Size(dims[Axis(i, a, b) + 1..])
    ensures Total(Terms(dims, index, a, b)[i..]) == Total(Terms(dims, index, a, b)[i + 1..]) + digit * stride
  {
    var terms := Terms(dims, index, a, b);
    assert terms[i..][1..] == terms[i + 1..];
  }

  lemma PeelDigit(out: seq<nat>, index: seq<nat>, i: nat, rem: nat)
    requires i < |out| == |index| && rem < Size(out[..i + 1]) && Index(out[..i + 1], rem) == index[..i + 1]
    ensures out[i] > 0 && rem / out[i] < Size(out[..i]) && Index(out[..i], rem / out[i]) == index[..i]
    ensures rem % out[i] == index[i]
  {
    var front := out[..i + 1];
    IndexFromRight(front, rem);
    assert front[..i] == out[..i] && front[i] == out[i];
    assert index[..i + 1] == index[..i] + [index[i]];
  }

  /** The inner stride loop of the kernel. */
  method StrideOf(dims: seq<nat>, axis: nat) returns (stride: nat)
    requires axis < |dims|
    ensures stride == Size(dims[axis + 1..])
  {
    stride := 1;
    var j := |dims| - 1;
    assert dims[|dims|..] == [];
    while j > axis
      invariant axis <= j < |dims|
      invariant stride == Size(dims[j + 1..])
    {
      SizeOfRest(dims, j - 1);
      stride := stride * dims[j];
      j := j - 1;
    }
  }
}
