/** The storage of the paged KV cache as a value: block ownership, row addresses and reads and writes of rows. */
module PagedCacheSpec {
  import opened Arithmetic
  import opened RealVectorSpec
  import opened Sequences
  import opened Wrappers

  datatype Layer = Layer(k: seq<real>, v: seq<real>)

  datatype SequenceEntry = SequenceEntry(length: nat, blocks: seq<nat>)

  datatype Cache = Cache(
    heads: nat, headDim: nat, blockSize: nat, maxBlocks: nat,
    layers: seq<Layer>, free: seq<nat>, used: seq<bool>, sequences: seq<SequenceEntry>)

  function KvHidden(c: Cache): nat { c.heads * c.headDim }

  predicate Initialized(c: Cache) { c.blockSize > 0 && c.maxBlocks > 0 }

  /** A sequence id beyond the table stands for an empty sequence. */
  function Entry(c: Cache, s: int): SequenceEntry {
    if 0 <= s < |c.sequences| then c.sequences[s] else SequenceEntry(0, [])
  }

  function CeilDiv(a: nat, b: nat): nat
    requires b > 0
  {
    (a + b - 1) / b
  }

  function BlocksNeeded(total: nat, blockSize: nat): nat
    requires blockSize > 0
  {
    if total == 0 then 0 else CeilDiv(total, blockSize)
  }

  // ---------------------------------------------------------------- ownership

  ghost predicate OwnsAt(c: Cache, b: nat, s: nat, i: nat) {
    s < |c.sequences| && i < |c.sequences[s].blocks| && c.sequences[s].blocks[i] == b
  }

  ghost predicate Owned(c: Cache, b: nat) {
    exists s: nat, i: nat :: OwnsAt(c, b, s, i)
  }

  ghost predicate FreeGood(c: Cache) {
    && |c.used| == c.maxBlocks && NoDuplicates(c.free)
    && forall b: nat :: b in c.free <==> b < c.maxBlocks && !c.used[b]
  }

  ghost predicate OwnedGood(c: Cache) {
    && |c.used| == c.maxBlocks
    && (forall b: nat, s: nat, i: nat :: OwnsAt(c, b, s, i) ==> b < c.maxBlocks && c.used[b])
    && (forall b: nat, s: nat, i: nat, t: nat, j: nat :: OwnsAt(c, b, s, i) && OwnsAt(c, b, t, j) ==> s == t && i == j)
    && (forall b: nat :: b < c.maxBlocks && c.used[b] ==> Owned(c, b))
  }

  /** Free blocks and block tables partition 0..maxBlocks-1, and the used flags say which is which. */
  ghost predicate Partitioned(c: Cache) {
    FreeGood(c) && OwnedGood(c)
  }

  ghost predicate LengthsFit(c: Cache) {
    forall s :: 0 <= s < |c.sequences| ==> c.sequences[s].length <= |c.sequences[s].blocks| * c.blockSize
  }

  ghost predicate StorageSized(c: Cache) {
    forall l :: 0 <= l < |c.layers| ==>
      |c.layers[l].k| == |c.layers[l].v| == c.maxBlocks * (c.blockSize * KvHidden(c))
  }

  ghost predicate Good(c: Cache) {
    && Partitioned(c) && LengthsFit(c) && StorageSized(c)
    && (Initialized(c) ==> c.heads > 0 && c.headDim > 0)
    && (!Initialized(c) ==> c.layers == [] && c.sequences == [])
  }

  // ---------------------------------------------------------------- rows

  /** Position pos of a sequence lies in one of its blocks. */
  predicate HasRow(c: Cache, s: nat, pos: nat) {
    c.blockSize > 0 && pos / c.blockSize < |Entry(c, s).blocks|
  }

  /** The index that mutable_token_ptr computes: block * block_stride + offset * kv_hidden. */
  function FloatIndex(block: nat, offset: nat, blockSize: nat, h: nat): nat {
    block * (blockSize * h) + offset * h
  }

  function RowIndex(c: Cache, s: nat, pos: nat): nat
    requires HasRow(c, s, pos)
  {
    FloatIndex(Entry(c, s).blocks[pos / c.blockSize], pos % c.blockSize, c.blockSize, KvHidden(c))
  }

  predicate RowInside(c: Cache, l: nat, i: nat) {
    l < |c.layers| && i + KvHidden(c) <= |c.layers[l].k| && i + KvHidden(c) <= |c.layers[l].v|
  }

  function ReadK(c: Cache, l: nat, i: nat): Row
    requires RowInside(c, l, i)
  {
    c.layers[l].k[i..i + KvHidden(c)]
  }

  function ReadV(c: Cache, l: nat, i: nat): Row
    requires RowInside(c, l, i)
  {
    c.layers[l].v[i..i + KvHidden(c)]
  }

  /** Writing one K/V row into a layer. */
  function WriteRow(c: Cache, l: nat, i: nat, k: Row, v: Row): Cache
    requires RowInside(c, l, i) && |k| == |v| == KvHidden(c)
  {
    c.(layers := c.layers[l := Layer(Splice(c.layers[l].k, i, k), Splice(c.layers[l].v, i, v))])
  }

  /** A buffer of n rows of h floats. */
  predicate HoldsRows(buffer: seq<real>, n: nat, h: nat) {
    |buffer| == n * h
  }

  // ---------------------------------------------------------------- the abstract cache

  /** Sequence, layer and position to the K/V row last written there. */
  type Rows = map<(nat, nat, nat), (Row, Row)>

  ghost predicate StoredAt(c: Cache, rows: Rows, key: (nat, nat, nat))
    requires key in rows
  {
    && HasRow(c, key.0, key.2)
    && RowInside(c, key.1, RowIndex(c, key.0, key.2))
    && rows[key] == (ReadK(c, key.1, RowIndex(c, key.0, key.2)), ReadV(c, key.1, RowIndex(c, key.0, key.2)))
  }

  /** Every abstract row is stored where the block table says. */
  ghost predicate Stores(c: Cache, rows: Rows) {
    forall key: (nat, nat, nat) :: key in rows ==> StoredAt(c, rows, key)
  }

  ghost predicate InRange(key: (nat, nat, nat), s: nat, l: nat, start: nat, n: nat) {
    key.0 == s && key.1 == l && start <= key.2 < start + n
  }

  ghost predicate WrittenAt(rows: Rows, s: nat, l: nat, start: nat, t: nat, k: seq<real>, v: seq<real>, h: nat) {
    && (s, l, start + t) in rows && t * h + h <= |k| && t * h + h <= |v|
    && rows[(s, l, start + t)] == (RowOf(k, t, h), RowOf(v, t, h))
  }

  /** Writing n rows gives exactly the keys s, l, start..start+n-1 their rows of the buffers, and leaves every other key
      as it was. */
  ghost predicate WrittenRows(rows: Rows, rows': Rows, s: nat, l: nat, start: nat, n: nat, k: seq<real>, v: seq<real>,
                              h: nat) {
    && (forall key: (nat, nat, nat) :: key in rows' <==> key in rows || InRange(key, s, l, start, n))
    && (forall key: (nat, nat, nat) :: key in rows && !InRange(key, s, l, start, n) ==> rows'[key] == rows[key])
    && (forall t: nat :: t < n ==> WrittenAt(rows', s, l, start, t, k, v, h))
  }

  /** The rows that are left when one sequence is freed. */
  ghost function WithoutSequence(rows: Rows, s: nat): Rows {
    map key: (nat, nat, nat) | key in rows && key.0 != s :: rows[key]
  }

  // ---------------------------------------------------------------- operations on values

  function EmptyCache(): Cache { Cache(0, 0, 0, 0, [], [], [], []) }

  /** Blocks n-1 down to 0, so that block 0 is handed out first. */
  function Descending(n: nat): seq<nat> {
    seq(n, i requires 0 <= i < n => n - 1 - i)
  }

  function ClearedCache(layers: nat, heads: nat, headDim: nat, blockSize: nat, maxBlocks: nat): Cache {
    var floats := maxBlocks * (blockSize * (heads * headDim));
    Cache(heads, headDim, blockSize, maxBlocks, seq(layers, _ => Layer(ZeroRow(floats), ZeroRow(floats))),
          Descending(maxBlocks), seq(maxBlocks, _ => false), [])
  }

  /** The sequence table made long enough to hold s. */
  function Extended(c: Cache, s: nat): Cache {
    if s < |c.sequences| then c
    else c.(sequences := c.sequences + seq(s + 1 - |c.sequences|, _ => SequenceEntry(0, [])))
  }

  /** The last free block becomes the next block of sequence s. */
  function TakeOne(c: Cache, s: nat): Cache {
    if s < |c.sequences| && c.free != [] && c.free[|c.free| - 1] < |c.used| then
      var b := c.free[|c.free| - 1];
      c.(free := c.free[..|c.free| - 1], used := c.used[b := true],
         sequences := c.sequences[s := SequenceEntry(c.sequences[s].length, c.sequences[s].blocks + [b])])
    else c
  }

  function Take(c: Cache, s: nat, n: nat): Cache {
    if n == 0 then c else TakeOne(Take(c, s, n - 1), s)
  }

  /** c' has the same rows in the same places as c: only the table of s has grown. */
  ghost predicate GrewOnly(c: Cache, c': Cache, s: nat) {
    && c'.layers == c.layers && SameShape(c, c') && |c'.sequences| >= |c.sequences|
    && (forall t: nat :: Entry(c', t).length == Entry(c, t).length)
    && (forall t: nat :: t != s ==> Entry(c', t) == Entry(c, t))
    && Entry(c, s).blocks <= Entry(c', s).blocks
  }

  ghost predicate SameShape(c: Cache, c': Cache) {
    c'.heads == c.heads && c'.headDim == c.headDim && c'.blockSize == c.blockSize && c'.maxBlocks == c.maxBlocks
  }

  function Missing(c: Cache, s: nat, total: nat): nat
    requires c.blockSize > 0
  {
    var needed, current := BlocksNeeded(total, c.blockSize), |Entry(c, s).blocks|;
    if needed <= current then 0 else needed - current
  }

  /** How many blocks a sequence owns once it has room for end positions. */
  function BlocksFor(c: Cache, s: int, end: nat): nat {
    if c.blockSize == 0 then |Entry(c, s).blocks| else Max(|Entry(c, s).blocks|, BlocksNeeded(end, c.blockSize))
  }

  function ReserveStatus(c: Cache, s: int, total: int): Status {
    if !Initialized(c) then Failure(RuntimeError)
    else if s < 0 || total < 0 then Failure(InvalidArgument)
    else if Missing(c, s, total) > |c.free| then Failure(OutOfRange)
    else Success
  }

  /** What reserving room for total positions of s does: on success the missing blocks are taken; otherwise only the
      sequence table may grow. */
  function AfterReserve(c: Cache, s: int, total: int): Cache {
    if !Initialized(c) || s < 0 then c
    else if ReserveStatus(c, s, total).Success? then Take(Extended(c, s), s, Missing(c, s, total))
    else Extended(c, s)
  }

  function WithLength(c: Cache, s: nat, length: nat): Cache
    requires s < |c.sequences|
  {
    c.(sequences := c.sequences[s := c.sequences[s].(length := length)])
  }

  function WriteStatus(c: Cache, s: int, l: int, start: int, count: int): Status {
    if start < 0 || count < 0 then Failure(InvalidArgument)
    else if l < 0 || l >= |c.layers| then Failure(OutOfRange)
    else if count == 0 then Success
    else ReserveStatus(c, s, start + count)
  }

  /** What a write call leaves: refused arguments change nothing; otherwise the room is reserved, and on success the
      length covers the rows. */
  ghost predicate AfterWrite(c: Cache, c': Cache, s: int, l: int, start: int, count: int) {
    if start < 0 || count <= 0 || l < 0 || l >= |c.layers| then c' == c
    else
      var after := AfterReserve(c, s, start + count);
      if ReserveStatus(c, s, start + count).Success? then
        && 0 <= s < |after.sequences| && |c'.layers| == |c.layers|
        && c' == WithLength(after.(layers := c'.layers), s, Max(Entry(c, s).length, start + count))
      else c' == after
  }

  /** The flags of the given blocks are cleared. */
  ghost predicate Unused(used: seq<bool>, used': seq<bool>, blocks: seq<nat>) {
    && |used'| == |used|
    && forall b :: 0 <= b < |used| ==> used'[b] == (used[b] && b !in blocks)
  }

  /** Every block of s returned to the end of the free list, in table order. */
  function GivenBack(c: Cache, s: nat): Cache {
    if s < |c.sequences| then
      var blocks := c.sequences[s].blocks;
      c.(free := c.free + blocks,
         used := seq(|c.used|, b requires 0 <= b < |c.used| => c.used[b] && b !in blocks),
         sequences := c.sequences[s := SequenceEntry(0, [])])
    else c
  }
}
