/** Matrix products over exact arithmetic: the plain definition and the layouts of the kernels. */
module GemmSpec {
  import opened RealVectorSpec
  import opened Bytes

  predicate IsMatrix(x: seq<Row>, rows: nat, cols: nat) {
    |x| == rows && forall i :: 0 <= i < rows ==> |x[i]| == cols
  }

  /** The sum of a[i] * b[i][n] over i below k. */
  function PartialDot(a: Row, b: seq<Row>, n: nat, k: nat): real
    requires k <= |a| && k <= |b| && forall i :: 0 <= i < |b| ==> n < |b[i]|
  {
    if k == 0 then 0.0 else PartialDot(a, b, n, k - 1) + a[k - 1] * b[k - 1][n]
  }

  function Column(b: seq<Row>, n: nat): (r: Row)
    requires forall i :: 0 <= i < |b| ==> n < |b[i]|
    ensures |r| == |b|
  {
    seq(|b|, i requires 0 <= i < |b| => b[i][n])
  }

  /** The element of the product after k of the inner positions. */
  ghost predicate ProductAt(value: real, a: seq<Row>, b: seq<Row>, m: nat, n: nat, k: nat) {
    && m < |a| && k <= |a[m]| && k <= |b| && (forall i :: 0 <= i < |b| ==> n < |b[i]|)
    && value == PartialDot(a[m], b, n, k)
  }

  /** A row-major buffer as a matrix. */
  function Matrix(flat: seq<real>, rows: nat, cols: nat): (r: seq<Row>)
    requires |flat| == rows * cols
    ensures IsMatrix(r, rows, cols)
  {
    RowsOf(flat, rows, cols)
  }

  // ---------------------------------------------------------------- Q8_0 blocks

  const BLOCK_SIZE: nat := 34
  const BLOCK_ELEMS: nat := 32

  function Signed(b: Byte): int {
    if b < 128 then b as int else b as int - 256
  }

  function Blocks(elements: nat): nat { (elements + BLOCK_ELEMS - 1) / BLOCK_ELEMS }

  /** The element at an index: its block's scale times its signed byte. The scale is any function of the block's two
      bytes. */
  function Q8Value(bytes: seq<Byte>, scale: (Byte, Byte) -> real, index: nat): real
    requires index / BLOCK_ELEMS * BLOCK_SIZE + BLOCK_SIZE <= |bytes|
  {
    var start := index / BLOCK_ELEMS * BLOCK_SIZE;
    scale(bytes[start], bytes[start + 1]) * (Signed(bytes[start + 2 + index % BLOCK_ELEMS]) as real)
  }

  predicate HoldsElements(bytes: seq<Byte>, n: nat) { Blocks(n) * BLOCK_SIZE <= |bytes| }

  lemma BlockInside(bytes: seq<Byte>, n: nat, index: nat)
    requires HoldsElements(bytes, n) && index < n
    ensures index / BLOCK_ELEMS * BLOCK_SIZE + BLOCK_SIZE <= |bytes|
  {
    assert index / 32 < (n + 31) / 32;
  }

  /** The dequantized elements. */
  function Dequantized(bytes: seq<Byte>, scale: (Byte, Byte) -> real, n: nat): (r: seq<real>)
    requires HoldsElements(bytes, n)
    ensures |r| == n
  {
    seq(n, i requires 0 <= i < n => (BlockInside(bytes, n, i); Q8Value(bytes, scale, i)))
  }
}

/** src/runtime/kernels/cpu_kernels.cpp: the matrix product kernels. */
module Gemm {
  import opened Arithmetic
  import opened Bytes
  import opened GemmSpec
  import opened RealVectorSpec
  import opened RealVectors

  // ---------------------------------------------------------------- the plain definition

  /** The element of a product is the dot product of a row and a column. */
  lemma {:induction false} PartialIsDot(a: Row, b: seq<Row>, n: nat, k: nat)
    requires k <= |a| && k <= |b| && forall i :: 0 <= i < |b| ==> n < |b[i]|
    ensures PartialDot(a, b, n, k) == Dot(a[..k], Column(b, n)[..k])
  {
    if k > 0 {
      PartialIsDot(a, b, n, k - 1);
      DotNext(a[..k], Column(b, n)[..k], k - 1);
      assert a[..k][..k - 1] == a[..k - 1] && Column(b, n)[..k][..k - 1] == Column(b, n)[..k - 1];
      assert a[..k][..k - 1 + 1] == a[..k] && Column(b, n)[..k][..k - 1 + 1] == Column(b, n)[..k];
    }
  }

  // ---------------------------------------------------------------- signed bytes

  /** A byte below 128 stands for itself, every other one for the number that is 256 less; so 0xFF is -1 and 0x80 is
      -128. */
  lemma SignedBytes(b: Byte)
    ensures -128 <= Signed(b) <= 127 && (Signed(b) == b as int || Signed(b) == b as int - 256)
    ensures Signed(0x00) == 0 && Signed(0x7F) == 127 && Signed(0x80) == -128 && Signed(0xFF) == -1
  {
  }

  /** A block is two bytes for its scale and 32 signed bytes: where the factors of an element lie. */
  lemma Q8Bytes(bytes: seq<Byte>, scale: (Byte, Byte) -> real, index: nat)
    requires 34 * (index / 32) + 34 <= |bytes|
    ensures index / BLOCK_ELEMS * BLOCK_SIZE == 34 * (index / 32)
    ensures var start, b := 34 * (index / 32), bytes[34 * (index / 32) + 2 + index % 32];
            Q8Value(bytes, scale, index) ==
            scale(bytes[start], bytes[start + 1]) * (if b < 128 then b as int else b as int - 256) as real
  {
    var start := index / BLOCK_ELEMS * BLOCK_SIZE;
    assert start == 34 * (index / 32);
    assert Signed(bytes[start + 2 + index % 32]) ==
           var b := bytes[34 * (index / 32) + 2 + index % 32]; if b < 128 then b as int else b as int - 256;
  }

  // ---------------------------------------------------------------- row-major buffers

  lemma MatrixElement(flat: seq<real>, rows: nat, cols: nat, i: nat, j: nat)
    requires |flat| == rows * cols && i < rows && j < cols
    ensures i * cols + j < |flat| && Matrix(flat, rows, cols)[i][j] == flat[i * cols + j]
  {
    RowInBuffer(i, rows, cols);
  }

  /** A row of the matrix is a contiguous part of the buffer. */
  lemma MatrixRow(flat: seq<real>, rows: nat, cols: nat, i: nat)
    requires |flat| == rows * cols && i < rows
    ensures i * cols + cols <= |flat| && Matrix(flat, rows, cols)[i] == flat[i * cols..i * cols + cols]
  {
    RowInBuffer(i, rows, cols);
  }

  lemma InOtherRow(i: nat, j: nat, m: nat, cols: nat)
    requires i != m && j < cols
    ensures i * cols + j < m * cols || i * cols + j >= m * cols + cols
  {
    if i < m {
      SlotBelow(i, cols, j, m);
    } else {
      Monotone(m + 1, i, cols);
      assert (m + 1) * cols == m * cols + cols;
    }
  }

  /** Writing from lo = m * cols + from up to hi = m * cols + to touches those elements of row m and no other. */
  lemma WritesInRow(flat: seq<real>, flat': seq<real>, rows: nat, cols: nat, m: nat, from: nat, to: nat, lo: nat,
                    hi: nat)
    requires |flat| == |flat'| == rows * cols && m < rows && from <= to <= cols
    requires lo == m * cols + from && hi == m * cols + to
    requires forall p :: 0 <= p < |flat| && !(lo <= p < hi) ==> flat'[p] == flat[p]
    ensures SameOutside(Matrix(flat, rows, cols), Matrix(flat', rows, cols), rows, cols, m, 1, from, to - from)
  {
    forall i: nat, j: nat | i < rows && j < cols && !(i == m && from <= j < to)
      ensures Matrix(flat', rows, cols)[i][j] == Matrix(flat, rows, cols)[i][j]
    {
      ElementStays(flat, flat', rows, cols, i, j, m, from, to, lo, hi);
    }
  }

  lemma ElementStays(flat: seq<real>, flat': seq<real>, rows: nat, cols: nat, i: nat, j: nat, m: nat, from: nat,
                     to: nat, lo: nat, hi: nat)
    requires |flat| == |flat'| == rows * cols && i < rows && j < cols && !(i == m && from <= j < to) && to <= cols
    requires lo == m * cols + from && hi == m * cols + to
    requires forall p :: 0 <= p < |flat| && !(lo <= p < hi) ==> flat'[p] == flat[p]
    ensures Matrix(flat', rows, cols)[i][j] == Matrix(flat, rows, cols)[i][j]
  {
    MatrixElement(flat, rows, cols, i, j);
    MatrixElement(flat', rows, cols, i, j);
    var p := i * cols + j;
    if i != m {
      InOtherRow(i, j, m, cols);
    }
    assert !(lo <= p < hi);
  }

  /** What the buffer holds, as a matrix. */
  ghost function View(c: array<real>, rows: nat, cols: nat): (r: seq<Row>)
    requires c.Length == rows * cols
    reads c
    ensures IsMatrix(r, rows, cols)
  {
    Matrix(c[..], rows, cols)
  }

  /** Outside rows m..m+tm-1 and columns n..n+tn-1 the matrix is unchanged. */
  ghost predicate SameOutside(x: seq<Row>, y: seq<Row>, rows: nat, cols: nat, m: nat, tm: nat, n: nat, tn: nat)
    requires IsMatrix(x, rows, cols) && IsMatrix(y, rows, cols)
  {
    forall i, j :: 0 <= i < rows && 0 <= j < cols && !(m <= i < m + tm && n <= j < n + tn) ==> y[i][j] == x[i][j]
  }

  /** Rows m..m+tm-1 and columns n..n+tn-1 hold the sums over the first k inner positions. */
  ghost predicate SumsAt(x: seq<Row>, a: seq<Row>, b: seq<Row>, rows: nat, cols: nat, m: nat, tm: nat, n: nat, tn: nat,
                         k: nat)
    requires IsMatrix(x, rows, cols) && m + tm <= rows && n + tn <= cols
  {
    forall i, j :: m <= i < m + tm && n <= j < n + tn ==> ProductAt(x[i][j], a, b, i, j, k)
  }

  // ---------------------------------------------------------------- sgemm: tiles

  /** Columns from..to-1 of row m have been added; the others are as before. */
  lemma AddedRange(flat: seq<real>, flat': seq<real>, av: real, bv: seq<real>, a: seq<Row>, b: seq<Row>, rows: nat,
                   cols: nat, m: nat, k: nat, from: nat, to: nat, lo: nat, bAt: nat)
    requires |flat| == |flat'| == rows * cols && m < rows && from <= to <= cols && k < |b|
    requires IsMatrix(a, rows, |b|) && IsMatrix(b, |b|, cols) && |bv| == |b| * cols && b == Matrix(bv, |b|, cols)
    requires av == a[m][k]
    requires SumsAt(Matrix(flat, rows, cols), a, b, rows, cols, m, 1, from, to - from, k)
    requires lo == m * cols + from && bAt == k * cols + from
    requires Added(flat, flat', lo, to - from, av, bv, bAt)
    ensures SumsAt(Matrix(flat', rows, cols), a, b, rows, cols, m, 1, from, to - from, k + 1)
    ensures SameOutside(Matrix(flat, rows, cols), Matrix(flat', rows, cols), rows, cols, m, 1, from, to - from)
  {
    WritesInRow(flat, flat', rows, cols, m, from, to, lo, lo + (to - from));
    forall j: nat | from <= j < to ensures ProductAt(Matrix(flat', rows, cols)[m][j], a, b, m, j, k + 1) {
      ElementAdded(flat, flat', av, bv, |b|, rows, cols, m, k, from, to, j, lo, bAt);
      ProductNext(Matrix(flat, rows, cols)[m][j], Matrix(flat', rows, cols)[m][j], a, b, m, j, k);
    }
  }

  lemma ProductNext(value: real, value': real, a: seq<Row>, b: seq<Row>, m: nat, n: nat, k: nat)
    requires ProductAt(value, a, b, m, n, k) && k < |a[m]| && k < |b| && value' == value + a[m][k] * b[k][n]
    ensures ProductAt(value', a, b, m, n, k + 1)
  {
  }

  /** n elements from lo on have grown by av times the elements of bv from bAt on. */
  ghost predicate Added(flat: seq<real>, flat': seq<real>, lo: nat, n: nat, av: real, bv: seq<real>, bAt: nat) {
    && |flat'| == |flat| && lo + n <= |flat| && bAt + n <= |bv|
    && forall p :: 0 <= p < |flat| ==>
         flat'[p] == if lo <= p < lo + n then flat[p] + av * bv[bAt + (p - lo)] else flat[p]
  }

  lemma ElementAdded(flat: seq<real>, flat': seq<real>, av: real, bv: seq<real>, inner: nat, rows: nat, cols: nat,
                     m: nat, k: nat, from: nat, to: nat, j: nat, lo: nat, bAt: nat)
    requires |flat| == |flat'| == rows * cols && |bv| == inner * cols && m < rows && k < inner && from <= j < to <= cols
    requires lo == m * cols + from && bAt == k * cols + from && Added(flat, flat', lo, to - from, av, bv, bAt)
    ensures Matrix(flat', rows, cols)[m][j] == Matrix(flat, rows, cols)[m][j] + av * Matrix(bv, inner, cols)[k][j]
  {
    MatrixElement(flat, rows, cols, m, j);
    MatrixElement(flat', rows, cols, m, j);
    MatrixElement(bv, inner, cols, k, j);
    var p := lo + (j - from);
    assert flat'[p] == flat[p] + av * bv[bAt + (p - lo)];
  }

  /** One fused multiply-add of width lanes. */
  method AddVector(c: array<real>, at: nat, av: real, b: seq<real>, bAt: nat, width: nat)
    requires at + width <= c.Length && bAt + width <= |b|
    modifies c
    ensures forall p :: 0 <= p < c.Length ==>
              c[p] == if at <= p < at + width then old(c[p]) + av * b[bAt + (p - at)] else old(c[p])
  {
    forall p | at <= p < at + width {
      c[p] := c[p] + av * b[bAt + (p - at)];
    }
  }

  /** The multiply-add over one row of a tile: vector steps first, then the tail. */
  method AddScaledRow(c: array<real>, av: real, bv: seq<real>, ghost a: seq<Row>, ghost b: seq<Row>, ghost rows: nat,
                      cols: nat, m: nat, k: nat, n: nat, tn: nat, width: nat)
    requires width > 0 && c.Length == rows * cols && m < rows && n + tn <= cols && k < |b|
    requires IsMatrix(a, rows, |b|) && |bv| == |b| * cols && b == Matrix(bv, |b|, cols) && av == a[m][k]
    requires SumsAt(View(c, rows, cols), a, b, rows, cols, m, 1, n, tn, k)
    modifies c
    ensures SumsAt(View(c, rows, cols), a, b, rows, cols, m, 1, n, tn, k + 1)
    ensures SameOutside(old(View(c, rows, cols)), View(c, rows, cols), rows, cols, m, 1, n, tn)
  {
    ghost var before := c[..];
    MatrixRow(before, rows, cols, m);
    MatrixRow(bv, |b|, cols, k);
    var cRow, bRow := m * cols + n, k * cols + n;
    AddRun(c, cRow, av, bv, bRow, tn, width);
    AddedRange(before, c[..], av, bv, a, b, rows, cols, m, k, n, n + tn, cRow, bRow);
  }

  /** The inner loops on two contiguous runs. */
  method AddRun(c: array<real>, cRow: nat, av: real, bv: seq<real>, bRow: nat, tn: nat, width: nat)
    requires width > 0 && cRow + tn <= c.Length && bRow + tn <= |bv|
    modifies c
    ensures Added(old(c[..]), c[..], cRow, tn, av, bv, bRow)
  {
    var jj := 0;
    while jj + width <= tn
      invariant 0 <= jj <= tn && Added(old(c[..]), c[..], cRow, jj, av, bv, bRow)
    {
      AddVector(c, cRow + jj, av, bv, bRow + jj, width);
      jj := jj + width;
    }
    while jj < tn
      invariant 0 <= jj <= tn && Added(old(c[..]), c[..], cRow, jj, av, bv, bRow)
    {
      c[cRow + jj] := c[cRow + jj] + av * bv[bRow + jj];
      jj := jj + 1;
    }
  }

  lemma SumsRow(x: seq<Row>, y: seq<Row>, a: seq<Row>, b: seq<Row>, rows: nat, cols: nat, m: nat, tm: nat, ii: nat,
                n: nat, tn: nat, k: nat, k': nat)
    requires IsMatrix(x, rows, cols) && IsMatrix(y, rows, cols) && m + tm <= rows && n + tn <= cols && ii < tm
    requires SumsAt(x, a, b, rows, cols, m, ii, n, tn, k') && SumsAt(x, a, b, rows, cols, m + ii, tm - ii, n, tn, k)
    requires SumsAt(y, a, b, rows, cols, m + ii, 1, n, tn, k') && SameOutside(x, y, rows, cols, m + ii, 1, n, tn)
    ensures SumsAt(y, a, b, rows, cols, m, ii + 1, n, tn, k')
    ensures SumsAt(y, a, b, rows, cols, m + ii + 1, tm - ii - 1, n, tn, k)
  {
  }

  lemma SameTwice(x: seq<Row>, y: seq<Row>, z: seq<Row>, rows: nat, cols: nat, m: nat, tm: nat, n: nat, tn: nat,
                  m': nat, tm': nat, n': nat, tn': nat)
    requires IsMatrix(x, rows, cols) && IsMatrix(y, rows, cols) && IsMatrix(z, rows, cols)
    requires SameOutside(x, y, rows, cols, m, tm, n, tn) && SameOutside(y, z, rows, cols, m', tm', n', tn')
    requires m <= m' && m' + tm' <= m + tm && n <= n' && n' + tn' <= n + tn
    ensures SameOutside(x, z, rows, cols, m, tm, n, tn)
  {
  }

  /** One row of one tile over tk inner positions. */
  method TileRow(c: array<real>, av: seq<real>, bv: seq<real>, ghost a: seq<Row>, ghost b: seq<Row>, rows: nat,
                 inner: nat, cols: nat, m: nat, k: nat, tk: nat, n: nat, tn: nat, width: nat)
    requires Operands(av, bv, a, b, rows, inner, cols) && width > 0 && c.Length == rows * cols
    requires m < rows && n + tn <= cols && k + tk <= inner
    requires SumsAt(View(c, rows, cols), a, b, rows, cols, m, 1, n, tn, k)
    modifies c
    ensures SumsAt(View(c, rows, cols), a, b, rows, cols, m, 1, n, tn, k + tk)
    ensures SameOutside(old(View(c, rows, cols)), View(c, rows, cols), rows, cols, m, 1, n, tn)
  {
    for kk := 0 to tk
      invariant SumsAt(View(c, rows, cols), a, b, rows, cols, m, 1, n, tn, k + kk)
      invariant SameOutside(old(View(c, rows, cols)), View(c, rows, cols), rows, cols, m, 1, n, tn)
    {
      ghost var now := View(c, rows, cols);
      MatrixElement(av, rows, inner, m, k + kk);
      AddScaledRow(c, av[m * inner + (k + kk)], bv, a, b, rows, cols, m, k + kk, n, tn, width);
      SameTwice(old(View(c, rows, cols)), now, View(c, rows, cols), rows, cols, m, 1, n, tn, m, 1, n, tn);
    }
  }

  /** The row-major operands and the matrices that they hold. */
  ghost predicate Operands(av: seq<real>, bv: seq<real>, a: seq<Row>, b: seq<Row>, rows: nat, inner: nat, cols: nat) {
    && |av| == rows * inner && |bv| == inner * cols && a == Matrix(av, rows, inner) && b == Matrix(bv, inner, cols)
    && IsMatrix(a, rows, inner) && IsMatrix(b, inner, cols)
  }

  /** One tile over tk inner positions. */
  method Tile(c: array<real>, av: seq<real>, bv: seq<real>, ghost a: seq<Row>, ghost b: seq<Row>, rows: nat, inner: nat,
              cols: nat, m: nat, tm: nat, k: nat, tk: nat, n: nat, tn: nat, width: nat)
    requires Operands(av, bv, a, b, rows, inner, cols) && width > 0 && c.Length == rows * cols
    requires m + tm <= rows && n + tn <= cols && k + tk <= inner
    requires SumsAt(View(c, rows, cols), a, b, rows, cols, m, tm, n, tn, k)
    modifies c
    ensures SumsAt(View(c, rows, cols), a, b, rows, cols, m, tm, n, tn, k + tk)
    ensures SameOutside(old(View(c, rows, cols)), View(c, rows, cols), rows, cols, m, tm, n, tn)
  {
    for ii := 0 to tm
      invariant SumsAt(View(c, rows, cols), a, b, rows, cols, m, ii, n, tn, k + tk)
      invariant SumsAt(View(c, rows, cols), a, b, rows, cols, m + ii, tm - ii, n, tn, k)
      invariant SameOutside(old(View(c, rows, cols)), View(c, rows, cols), rows, cols, m, tm, n, tn)
    {
      ghost var now := View(c, rows, cols);
      TileRow(c, av, bv, a, b, rows, inner, cols, m + ii, k, tk, n, tn, width);
      SumsRow(now, View(c, rows, cols), a, b, rows, cols, m, tm, ii, n, tn, k, k + tk);
      SameTwice(old(View(c, rows, cols)), now, View(c, rows, cols), rows, cols, m, tm, n, tn, m + ii, 1, n, tn);
    }
  }

  /** All inner positions of one tile, tile by tile. */
  method TileColumn(c: array<real>, av: seq<real>, bv: seq<real>, ghost a: seq<Row>, ghost b: seq<Row>, rows: nat,
                    inner: nat, cols: nat, m: nat, tm: nat, n: nat, tn: nat, tile: nat, width: nat)
    requires Operands(av, bv, a, b, rows, inner, cols) && width > 0 && tile > 0 && c.Length == rows * cols
    requires m + tm <= rows && n + tn <= cols && SumsAt(View(c, rows, cols), a, b, rows, cols, m, tm, n, tn, 0)
    modifies c
    ensures SumsAt(View(c, rows, cols), a, b, rows, cols, m, tm, n, tn, inner)
    ensures SameOutside(old(View(c, rows, cols)), View(c, rows, cols), rows, cols, m, tm, n, tn)
  {
    var k := 0;
    while k < inner
      invariant 0 <= k <= inner && SumsAt(View(c, rows, cols), a, b, rows, cols, m, tm, n, tn, k)
      invariant SameOutside(old(View(c, rows, cols)), View(c, rows, cols), rows, cols, m, tm, n, tn)
    {
      ghost var now := View(c, rows, cols);
      var tk := Min(tile, inner - k);
      Tile(c, av, bv, a, b, rows, inner, cols, m, tm, k, tk, n, tn, width);
      SameTwice(old(View(c, rows, cols)), now, View(c, rows, cols), rows, cols, m, tm, n, tn, m, tm, n, tn);
      k := k + tk;
    }
  }

  /** One band of tiles, from left to right. */
  method TileBand(c: array<real>, av: seq<real>, bv: seq<real>, ghost a: seq<Row>, ghost b: seq<Row>, rows: nat,
                  inner: nat, cols: nat, m: nat, tm: nat, tile: nat, width: nat)
    requires Operands(av, bv, a, b, rows, inner, cols) && width > 0 && tile > 0 && c.Length == rows * cols
    requires m + tm <= rows && SumsAt(View(c, rows, cols), a, b, rows, cols, m, tm, 0, cols, 0)
    modifies c
    ensures SumsAt(View(c, rows, cols), a, b, rows, cols, m, tm, 0, cols, inner)
    ensures SameOutside(old(View(c, rows, cols)), View(c, rows, cols), rows, cols, m, tm, 0, cols)
  {
    var n := 0;
    while n < cols
      invariant 0 <= n <= cols
      invariant SumsAt(View(c, rows, cols), a, b, rows, cols, m, tm, 0, n, inner)
      invariant SumsAt(View(c, rows, cols), a, b, rows, cols, m, tm, n, cols - n, 0)
      invariant SameOutside(old(View(c, rows, cols)), View(c, rows, cols), rows, cols, m, tm, 0, cols)
    {
      ghost var now := View(c, rows, cols);
      var tn := Min(tile, cols - n);
      TileColumn(c, av, bv, a, b, rows, inner, cols, m, tm, n, tn, tile, width);
      SumsColumns(now, View(c, rows, cols), a, b, rows, cols, m, tm, n, tn, inner);
      SameTwice(old(View(c, rows, cols)), now, View(c, rows, cols), rows, cols, m, tm, 0, cols, m, tm, n, tn);
      n := n + tn;
    }
  }

  lemma SumsColumns(x: seq<Row>, y: seq<Row>, a: seq<Row>, b: seq<Row>, rows: nat, cols: nat, m: nat, tm: nat, n: nat,
                    tn: nat, k: nat)
    requires IsMatrix(x, rows, cols) && IsMatrix(y, rows, cols) && m + tm <= rows && n + tn <= cols
    requires SumsAt(x, a, b, rows, cols, m, tm, 0, n, k) && SumsAt(x, a, b, rows, cols, m, tm, n, cols - n, 0)
    requires SumsAt(y, a, b, rows, cols, m, tm, n, tn, k) && SameOutside(x, y, rows, cols, m, tm, n, tn)
    ensures SumsAt(y, a, b, rows, cols, m, tm, 0, n + tn, k)
    ensures SumsAt(y, a, b, rows, cols, m, tm, n + tn, cols - n - tn, 0)
  {
  }

  lemma SumsBands(x: seq<Row>, y: seq<Row>, a: seq<Row>, b: seq<Row>, rows: nat, cols: nat, m: nat, tm: nat, k: nat)
    requires IsMatrix(x, rows, cols) && IsMatrix(y, rows, cols) && m + tm <= rows
    requires SumsAt(x, a, b, rows, cols, 0, m, 0, cols, k) && SumsAt(x, a, b, rows, cols, m, rows - m, 0, cols, 0)
    requires SumsAt(y, a, b, rows, cols, m, tm, 0, cols, k) && SameOutside(x, y, rows, cols, m, tm, 0, cols)
    ensures SumsAt(y, a, b, rows, cols, 0, m + tm, 0, cols, k)
    ensures SumsAt(y, a, b, rows, cols, m + tm, rows - m - tm, 0, cols, 0)
  {
  }

  lemma ZeroSums(flat: seq<real>, a: seq<Row>, b: seq<Row>, rows: nat, inner: nat, cols: nat)
    requires |flat| == rows * cols && (forall p :: 0 <= p < |flat| ==> flat[p] == 0.0)
    requires IsMatrix(a, rows, inner) && IsMatrix(b, inner, cols)
    ensures SumsAt(Matrix(flat, rows, cols), a, b, rows, cols, 0, rows, 0, cols, 0)
  {
    forall i: nat, j: nat | i < rows && j < cols ensures ProductAt(Matrix(flat, rows, cols)[i][j], a, b, i, j, 0) {
      ZeroElement(flat, rows, cols, i, j);
    }
  }

  lemma ZeroElement(flat: seq<real>, rows: nat, cols: nat, i: nat, j: nat)
    requires |flat| == rows * cols && (forall p :: 0 <= p < |flat| ==> flat[p] == 0.0) && i < rows && j < cols
    ensures Matrix(flat, rows, cols)[i][j] == 0.0
  {
    MatrixElement(flat, rows, cols, i, j);
  }

  /** sgemm_impl: for every size, tile and vector width the tiled loops over row-major buffers compute the plain
      product. */
  method Sgemm(av: seq<real>, bv: seq<real>, c: array<real>, rows: nat, inner: nat, cols: nat, tile: nat, width: nat)
    requires width > 0 && tile > 0 && |av| == rows * inner && |bv| == inner * cols && c.Length == rows * cols
    modifies c
    ensures SumsAt(View(c, rows, cols), Matrix(av, rows, inner), Matrix(bv, inner, cols), rows, cols, 0, rows, 0, cols,
                   inner)
  {
    ghost var a, b := Matrix(av, rows, inner), Matrix(bv, inner, cols);
    forall p | 0 <= p < c.Length {
      c[p] := 0.0;
    }
    ZeroSums(c[..], a, b, rows, inner, cols);
    var m := 0;
    while m < rows
      invariant 0 <= m <= rows
      invariant SumsAt(View(c, rows, cols), a, b, rows, cols, 0, m, 0, cols, inner)
      invariant SumsAt(View(c, rows, cols), a, b, rows, cols, m, rows - m, 0, cols, 0)
    {
      ghost var now := View(c, rows, cols);
      var tm := Min(tile, rows - m);
      TileBand(c, av, bv, a, b, rows, inner, cols, m, tm, tile, width);
      SumsBands(now, View(c, rows, cols), a, b, rows, cols, m, tm, inner);
      m := m + tm;
    }
  }

  // ---------------------------------------------------------------- sgemm_nt: dot products

  ghost predicate DotAt(value: real, a: seq<Row>, b: seq<Row>, m: nat, n: nat) {
    m < |a| && n < |b| && |a[m]| == |b[n]| && value == Dot(a[m], b[n])
  }

  /** Rows below m and the first n elements of row m hold their dot products. */
  ghost predicate DotsUpTo(x: seq<Row>, a: seq<Row>, b: seq<Row>, rows: nat, cols: nat, m: nat, n: nat)
    requires IsMatrix(x, rows, cols)
  {
    forall i, j :: 0 <= i < rows && 0 <= j < cols && (i < m || (i == m && j < n)) ==> DotAt(x[i][j], a, b, i, j)
  }

  /** The next element of a row is written. */
  method PutDot(c: array<real>, dot: real, ghost a: seq<Row>, ghost b: seq<Row>, ghost rows: nat, cols: nat, m: nat,
                n: nat)
    requires c.Length == rows * cols && m < rows && n < cols && DotAt(dot, a, b, m, n)
    requires DotsUpTo(View(c, rows, cols), a, b, rows, cols, m, n)
    modifies c
    ensures DotsUpTo(View(c, rows, cols), a, b, rows, cols, m, n + 1)
  {
    ghost var before := c[..];
    MatrixElement(before, rows, cols, m, n);
    c[m * cols + n] := dot;
    WritesInRow(before, c[..], rows, cols, m, n, n + 1, m * cols + n, m * cols + n + 1);
    MatrixElement(c[..], rows, cols, m, n);
  }

  /** The lane-wise dot product of row m of one buffer and row n of another. */
  method RowDot(av: seq<real>, bv: seq<real>, rows: nat, inner: nat, cols: nat, m: nat, n: nat, width: nat)
    returns (dot: real)
    requires width > 0 && |av| == rows * inner && |bv| == cols * inner && m < rows && n < cols
    ensures DotAt(dot, Matrix(av, rows, inner), Matrix(bv, cols, inner), m, n)
  {
    MatrixRow(av, rows, inner, m);
    MatrixRow(bv, cols, inner, n);
    dot := DotLanes(av[m * inner..m * inner + inner], bv[n * inner..n * inner + inner], width);
  }

  /** sgemm_nt_impl: four columns at a time, then the rest; every element is a lane-wise dot product of two rows. */
  method SgemmNt(av: seq<real>, bv: seq<real>, c: array<real>, rows: nat, inner: nat, cols: nat, width: nat)
    requires width > 0 && |av| == rows * inner && |bv| == cols * inner && c.Length == rows * cols
    modifies c
    ensures DotsUpTo(View(c, rows, cols), Matrix(av, rows, inner), Matrix(bv, cols, inner), rows, cols, rows, 0)
  {
    for m := 0 to rows
      invariant DotsUpTo(View(c, rows, cols), Matrix(av, rows, inner), Matrix(bv, cols, inner), rows, cols, m, 0)
    {
      DotRow(c, av, bv, rows, inner, cols, m, width);
    }
  }

  /** One row of sgemm_nt. */
  method DotRow(c: array<real>, av: seq<real>, bv: seq<real>, rows: nat, inner: nat, cols: nat, m: nat, width: nat)
    requires width > 0 && |av| == rows * inner && |bv| == cols * inner && c.Length == rows * cols && m < rows
    requires DotsUpTo(View(c, rows, cols), Matrix(av, rows, inner), Matrix(bv, cols, inner), rows, cols, m, 0)
    modifies c
    ensures DotsUpTo(View(c, rows, cols), Matrix(av, rows, inner), Matrix(bv, cols, inner), rows, cols, m + 1, 0)
  {
    ghost var a, b := Matrix(av, rows, inner), Matrix(bv, cols, inner);
    var n := 0;
    while n + 3 < cols
      invariant 0 <= n <= cols && DotsUpTo(View(c, rows, cols), a, b, rows, cols, m, n)
    {
      FourDots(c, av, bv, a, b, rows, inner, cols, m, n, width);
      n := n + 4;
    }
    while n < cols
      invariant 0 <= n <= cols && DotsUpTo(View(c, rows, cols), a, b, rows, cols, m, n)
    {
      var dot := RowDot(av, bv, rows, inner, cols, m, n, width);
      PutDot(c, dot, a, b, rows, cols, m, n);
      n := n + 1;
    }
  }

  /** Four elements at once. */
  method FourDots(c: array<real>, av: seq<real>, bv: seq<real>, ghost a: seq<Row>, ghost b: seq<Row>, rows: nat,
                  inner: nat, cols: nat, m: nat, n: nat, width: nat)
    requires width > 0 && |av| == rows * inner && |bv| == cols * inner && c.Length == rows * cols && m < rows
    requires n + 3 < cols
    requires a == Matrix(av, rows, inner) && b == Matrix(bv, cols, inner)
    requires DotsUpTo(View(c, rows, cols), a, b, rows, cols, m, n)
    modifies c
    ensures DotsUpTo(View(c, rows, cols), a, b, rows, cols, m, n + 4)
  {
    var dot0 := RowDot(av, bv, rows, inner, cols, m, n, width);
    var dot1 := RowDot(av, bv, rows, inner, cols, m, n + 1, width);
    var dot2 := RowDot(av, bv, rows, inner, cols, m, n + 2, width);
    var dot3 := RowDot(av, bv, rows, inner, cols, m, n + 3, width);
    PutDot(c, dot0, a, b, rows, cols, m, n);
    PutDot(c, dot1, a, b, rows, cols, m, n + 1);
    PutDot(c, dot2, a, b, rows, cols, m, n + 2);
    PutDot(c, dot3, a, b, rows, cols, m, n + 3);
  }

  function Transposed(b: seq<Row>, cols: nat): (r: seq<Row>)
    requires IsMatrix(b, |b|, cols)
    ensures |r| == cols
  {
    seq(cols, n requires 0 <= n < cols => Column(b, n))
  }

  /** The two layouts agree: multiplying by a matrix is the transposed kernel on its transpose. */
  lemma TransposedAgrees(value: real, value': real, a: seq<Row>, b: seq<Row>, cols: nat, m: nat, n: nat)
    requires m < |a| && n < cols && IsMatrix(b, |b|, cols) && |a[m]| == |b|
    requires ProductAt(value, a, b, m, n, |b|) && DotAt(value', a, Transposed(b, cols), m, n)
    ensures value == value'
  {
    PartialIsDot(a[m], b, n, |b|);
    assert a[m][..|b|] == a[m] && Column(b, n)[..|b|] == Column(b, n);
  }

  // ---------------------------------------------------------------- Q8_0

  /** dequantize_to_f32 for Q8_0: block by block, the last one cut off at the element count. */
  method Dequantize(bytes: seq<Byte>, scale: (Byte, Byte) -> real, n: nat) returns (dst: seq<real>)
    requires HoldsElements(bytes, n)
    ensures dst == Dequantized(bytes, scale, n)
  {
    dst := [];
    for b := 0 to Blocks(n)
      invariant |dst| == Min(b * BLOCK_ELEMS, n) && dst == Dequantized(bytes, scale, n)[..|dst|]
    {
      var start := b * BLOCK_SIZE;
      var s := scale(bytes[start], bytes[start + 1]);
      var base := b * BLOCK_ELEMS;
      var count := Min(BLOCK_ELEMS, n - base);
      for i := 0 to count
        invariant |dst| == base + i && dst == Dequantized(bytes, scale, n)[..|dst|]
      {
        DequantizedAt(bytes, scale, n, b, i);
        var x := Signed(bytes[start + 2 + i]) as real * s;
        DequantizedNext(bytes, scale, n, base + i, x);
        dst := dst + [x];
      }
    }
    assert Dequantized(bytes, scale, n)[..n] == Dequantized(bytes, scale, n);
  }

  lemma DequantizedNext(bytes: seq<Byte>, scale: (Byte, Byte) -> real, n: nat, k: nat, x: real)
    requires HoldsElements(bytes, n) && k < n && x == Dequantized(bytes, scale, n)[k]
    ensures Dequantized(bytes, scale, n)[..k + 1] == Dequantized(bytes, scale, n)[..k] + [x]
  {
  }

  lemma DequantizedAt(bytes: seq<Byte>, scale: (Byte, Byte) -> real, n: nat, b: nat, i: nat)
    requires HoldsElements(bytes, n) && i < BLOCK_ELEMS && b * BLOCK_ELEMS + i < n
    ensures b * BLOCK_SIZE + BLOCK_SIZE <= |bytes|
    ensures var start := b * BLOCK_SIZE;
            Dequantized(bytes, scale, n)[b * BLOCK_ELEMS + i] ==
            Signed(bytes[start + 2 + i]) as real * scale(bytes[start], bytes[start + 1])
  {
    BlockOf(b, i);
    BlockInside(bytes, n, b * BLOCK_ELEMS + i);
  }

  lemma BlockOf(b: nat, i: nat)
    requires i < BLOCK_ELEMS
    ensures (b * BLOCK_ELEMS + i) / BLOCK_ELEMS == b && (b * BLOCK_ELEMS + i) % BLOCK_ELEMS == i
  {
  }

  /** Rows below m and the first n elements of row m hold their products. */
  ghost predicate ProductsUpTo(x: seq<Row>, a: seq<Row>, b: seq<Row>, rows: nat, inner: nat, cols: nat, m: nat, n: nat)
    requires IsMatrix(x, rows, cols)
  {
    forall i, j :: 0 <= i < rows && 0 <= j < cols && (i < m || (i == m && j < n)) ==>
      ProductAt(x[i][j], a, b, i, j, inner)
  }

  method PutProduct(c: array<real>, value: real, ghost a: seq<Row>, ghost b: seq<Row>, ghost rows: nat,
                    ghost inner: nat, cols: nat, m: nat, n: nat)
    requires c.Length == rows * cols && m < rows && n < cols && ProductAt(value, a, b, m, n, inner)
    requires ProductsUpTo(View(c, rows, cols), a, b, rows, inner, cols, m, n)
    modifies c
    ensures ProductsUpTo(View(c, rows, cols), a, b, rows, inner, cols, m, n + 1)
  {
    ghost var before := c[..];
    MatrixElement(before, rows, cols, m, n);
    c[m * cols + n] := value;
    WritesInRow(before, c[..], rows, cols, m, n, n + 1, m * cols + n, m * cols + n + 1);
    MatrixElement(c[..], rows, cols, m, n);
  }

  /** The block GEMM: every element is read from its block. */
  method SgemmQ8(av: seq<real>, bytes: seq<Byte>, scale: (Byte, Byte) -> real, c: array<real>, rows: nat, inner: nat,
                 cols: nat)
    requires |av| == rows * inner && HoldsElements(bytes, inner * cols) && c.Length == rows * cols
    modifies c
    ensures ProductsUpTo(View(c, rows, cols), Matrix(av, rows, inner),
                         Matrix(Dequantized(bytes, scale, inner * cols), inner, cols), rows, inner, cols, rows, 0)
  {
    ghost var a, b := Matrix(av, rows, inner), Matrix(Dequantized(bytes, scale, inner * cols), inner, cols);
    for m := 0 to rows
      invariant ProductsUpTo(View(c, rows, cols), a, b, rows, inner, cols, m, 0)
    {
      MatrixRow(av, rows, inner, m);
      for n := 0 to cols
        invariant ProductsUpTo(View(c, rows, cols), a, b, rows, inner, cols, m, n)
      {
        var acc := Q8Product(av[m * inner..m * inner + inner], bytes, scale, inner, cols, n);
        PutProduct(c, acc, a, b, rows, inner, cols, m, n);
      }
    }
  }

  lemma Q8Element(bytes: seq<Byte>, scale: (Byte, Byte) -> real, rows: nat, cols: nat, i: nat, j: nat, p: nat)
    requires HoldsElements(bytes, rows * cols) && i < rows && j < cols && p == i * cols + j
    ensures p / BLOCK_ELEMS * BLOCK_SIZE + BLOCK_SIZE <= |bytes|
    ensures Matrix(Dequantized(bytes, scale, rows * cols), rows, cols)[i][j] == Q8Value(bytes, scale, p)
  {
    MatrixElement(Dequantized(bytes, scale, rows * cols), rows, cols, i, j);
    BlockInside(bytes, rows * cols, p);
  }

  /** The inner loop of the block GEMM. */
  method Q8Product(a: Row, bytes: seq<Byte>, scale: (Byte, Byte) -> real, inner: nat, cols: nat, n: nat)
    returns (acc: real)
    requires |a| == inner && n < cols && HoldsElements(bytes, inner * cols)
    ensures acc == PartialDot(a, Matrix(Dequantized(bytes, scale, inner * cols), inner, cols), n, inner)
  {
    acc := 0.0;
    ghost var b := Matrix(Dequantized(bytes, scale, inner * cols), inner, cols);
    for k := 0 to inner
      invariant acc == PartialDot(a, b, n, k)
    {
      var x := Q8At(bytes, scale, inner, cols, k, n);
      acc := MultiplyAdd(acc, a, b, n, k, x);
    }
  }

  /** One term more of the sum. */
  method MultiplyAdd(acc: real, a: Row, ghost b: seq<Row>, ghost n: nat, k: nat, x: real) returns (acc': real)
    requires k < |a| && k < |b| && (forall i :: 0 <= i < |b| ==> n < |b[i]|) && x == b[k][n]
    requires acc == PartialDot(a, b, n, k)
    ensures acc' == PartialDot(a, b, n, k + 1)
  {
    acc' := acc + a[k] * x;
  }

  /** Element (i, j) of the quantized matrix. */
  method Q8At(bytes: seq<Byte>, scale: (Byte, Byte) -> real, rows: nat, cols: nat, i: nat, j: nat) returns (x: real)
    requires HoldsElements(bytes, rows * cols) && i < rows && j < cols
    ensures x == Matrix(Dequantized(bytes, scale, rows * cols), rows, cols)[i][j]
  {
    var p := i * cols + j;
    Q8Element(bytes, scale, rows, cols, i, j, p);
    x := Q8Value(bytes, scale, p);
  }

  /** The transposed block GEMM: contiguous runs of block elements against a row. */
  method SgemmNtQ8(av: seq<real>, bytes: seq<Byte>, scale: (Byte, Byte) -> real, c: array<real>, rows: nat, inner: nat,
                   cols: nat)
    requires |av| == rows * inner && HoldsElements(bytes, cols * inner) && c.Length == rows * cols
    modifies c
    ensures DotsUpTo(View(c, rows, cols), Matrix(av, rows, inner),
                     Matrix(Dequantized(bytes, scale, cols * inner), cols, inner), rows, cols, rows, 0)
  {
    ghost var a, b := Matrix(av, rows, inner), Matrix(Dequantized(bytes, scale, cols * inner), cols, inner);
    for m := 0 to rows
      invariant DotsUpTo(View(c, rows, cols), a, b, rows, cols, m, 0)
    {
      MatrixRow(av, rows, inner, m);
      for n := 0 to cols
        invariant DotsUpTo(View(c, rows, cols), a, b, rows, cols, m, n)
      {
        var dot := Q8Dot(av[m * inner..m * inner + inner], bytes, scale, cols, n);
        PutDot(c, dot, a, b, rows, cols, m, n);
      }
    }
  }

  lemma NextProduct(a: Row, row: Row, i: nat, x: real)
    requires i < |a| == |row| && row[i] == x
    ensures Dot(a[..i + 1], row[..i + 1]) == Dot(a[..i], row[..i]) + a[i] * x
  {
    DotNext(a, row, i);
  }

  /** q8_0_dot_contiguous: row n of the quantized matrix against a. */
  method Q8Dot(a: Row, bytes: seq<Byte>, scale: (Byte, Byte) -> real, rows: nat, n: nat) returns (acc: real)
    requires n < rows && HoldsElements(bytes, rows * |a|)
    ensures acc == Dot(a, Matrix(Dequantized(bytes, scale, rows * |a|), rows, |a|)[n])
  {
    acc := 0.0;
    ghost var d := Dequantized(bytes, scale, rows * |a|);
    ghost var row := Matrix(d, rows, |a|)[n];
    for i := 0 to |a|
      invariant acc == Dot(a[..i], row[..i])
    {
      var x := Q8At(bytes, scale, rows, |a|, n, i);
      NextProduct(a, row, i, x);
      acc := acc + a[i] * x;
    }
    assert a[..|a|] == a && row[..|a|] == row;
  }
}
