/** The paged KV cache: a block allocator with one block table per sequence
    (include/minillm/runtime/cache/paged_kv_cache.h). */
module PagedKVCaches {
  import opened Arithmetic
  import opened PagedCacheProofs
  import opened PagedCacheSpec
  import opened RealVectorSpec
  import opened Sequences
  import opened Wrappers

  class PagedKVCache {
    var heads: nat
    var headDim: nat
    var blockSize: nat
    var maxBlocks: nat
    var layers: seq<Layer>
    var freeBlocks: seq<nat>
    var used: seq<bool>
    var sequences: seq<SequenceEntry>

    /** The rows written so far, as the map that callers may rely on. */
    ghost var rows: Rows

    ghost function State(): Cache
      reads this
    {
      Cache(heads, headDim, blockSize, maxBlocks, layers, freeBlocks, used, sequences)
    }

    ghost predicate Valid()
      reads this
    {
      Good(State()) && Stores(State(), rows)
    }

    constructor ()
      ensures Valid() && State() == EmptyCache() && rows == map[]
    {
      heads, headDim, blockSize, maxBlocks := 0, 0, 0, 0;
      layers, freeBlocks, used, sequences := [], [], [], [];
      rows := map[];
      new;
      EmptyGood();
    }

    method Release()
      modifies this
      ensures Valid() && State() == EmptyCache() && rows == map[]
    {
      heads, headDim, blockSize, maxBlocks := 0, 0, 0, 0;
      layers, freeBlocks, used, sequences := [], [], [], [];
      rows := map[];
      EmptyGood();
    }

    /** The blocks in the order in which reset and init push them. */
    static method PushBlocks(n: nat) returns (blocks: seq<nat>)
      ensures blocks == Descending(n)
    {
      blocks := [];
      var b := n - 1;
      while b >= 0
        invariant -1 <= b < n
        invariant |blocks| == n - 1 - b
        invariant forall i :: 0 <= i < |blocks| ==> blocks[i] == n - 1 - i
      {
        blocks := blocks + [b];
        b := b - 1;
      }
    }

    method Init(numLayers: int, numHeads: int, dim: int, size: int, max: int) returns (st: Status)
      modifies this
      ensures Valid() && rows == map[]
      ensures st == if numLayers <= 0 || numHeads <= 0 || dim <= 0 || size <= 0 || max <= 0
                    then Failure(InvalidArgument) else Success
      ensures State() == if st.Success? then ClearedCache(numLayers, numHeads, dim, size, max) else EmptyCache()
    {
      Release();
      if numLayers <= 0 || numHeads <= 0 || dim <= 0 || size <= 0 || max <= 0 {
        return Failure(InvalidArgument);
      }
      heads, headDim, blockSize, maxBlocks := numHeads, dim, size, max;
      var floats := max * (size * (numHeads * dim));
      Products(max, size, numHeads, dim);
      layers := seq(numLayers, _ => Layer(ZeroRow(floats), ZeroRow(floats)));
      used := seq(max, _ => false);
      freeBlocks := PushBlocks(max);
      sequences := [];
      assert State() == ClearedCache(numLayers, numHeads, dim, size, max);
      ClearedGood(numLayers, numHeads, dim, size, max);
      return Success;
    }

    /** Storage is zeroed in place: the number of layers and their sizes stay. */
    method Reset()
      requires Valid()
      modifies this
      ensures Valid() && rows == map[]
      ensures State() == if Initialized(old(State()))
                         then ClearedCache(|old(layers)|, old(heads), old(headDim), old(blockSize), old(maxBlocks))
                         else old(State()).(free := Descending(old(maxBlocks)), used := seq(old(maxBlocks), _ => false))
    {
      ghost var before := State();
      var filled := layers;
      layers := seq(|filled|, l requires 0 <= l < |filled| => Layer(ZeroRow(|filled[l].k|), ZeroRow(|filled[l].v|)));
      used := seq(maxBlocks, _ => false);
      freeBlocks := PushBlocks(maxBlocks);
      sequences := [];
      rows := map[];
      if Initialized(before) {
        ResetLayers(before);
        ClearedGood(|layers|, heads, headDim, blockSize, maxBlocks);
        assert State() == ClearedCache(|layers|, heads, headDim, blockSize, maxBlocks);
      } else {
        UninitializedReset(before, State());
      }
    }

    method EnsureSequence(s: int) returns (st: Status)
      requires Valid()
      modifies this
      ensures Valid() && rows == old(rows)
      ensures st == if !Initialized(old(State())) then Failure(RuntimeError)
                    else if s < 0 then Failure(InvalidArgument) else Success
      ensures State() == if st.Success? then Extended(old(State()), s) else old(State())
    {
      if !(blockSize > 0 && maxBlocks > 0) {
        return Failure(RuntimeError);
      }
      if s < 0 {
        return Failure(InvalidArgument);
      }
      ExtendedGood(State(), s);
      GrownStores(State(), Extended(State(), s), s, rows);
      if s >= |sequences| {
        sequences := sequences + seq(s + 1 - |sequences|, _ => SequenceEntry(0, []));
      }
      return Success;
    }

    /** The loop of free_sequence: every block that is still in use becomes free. */
    method ReturnBlocks(blocks: seq<nat>)
      requires NoDuplicates(blocks) && |used| == maxBlocks
      requires forall b :: b in blocks ==> b < maxBlocks && used[b]
      modifies this`freeBlocks, this`used
      ensures freeBlocks == old(freeBlocks) + blocks
      ensures Unused(old(used), used, blocks)
    {
      for i := 0 to |blocks|
        invariant freeBlocks == old(freeBlocks) + blocks[..i]
        invariant Unused(old(used), used, blocks[..i])
      {
        ghost var flags := used;
        var block := blocks[i];
        assert block in blocks && used[block];
        if block < maxBlocks && used[block] {
          used := used[block := false];
          freeBlocks := freeBlocks + [block];
        }
        assert blocks[..i + 1] == blocks[..i] + [block];
        UnusedNext(old(used), flags, blocks[..i], block);
      }
      assert blocks[..|blocks|] == blocks;
    }

    /** Frees the blocks of one sequence; every other sequence keeps its rows, length and blocks. */
    method FreeSequence(s: int)
      requires Valid()
      modifies this
      ensures Valid()
      ensures 0 <= s < |old(sequences)| ==> State() == GivenBack(old(State()), s) &&
                                            rows == WithoutSequence(old(rows), s)
      ensures !(0 <= s < |old(sequences)|) ==> State() == old(State()) && rows == old(rows)
    {
      if s < 0 || s >= |sequences| {
        return;
      }
      ghost var before := State();
      BlocksOfOne(before, s);
      GivenBackGood(before, s, rows);
      ReturnBlocks(sequences[s].blocks);
      sequences := sequences[s := SequenceEntry(0, [])];
      rows := WithoutSequence(rows, s);
      UnusedUnique(before.used, used, before.sequences[s].blocks);
      assert State() == GivenBack(before, s);
    }

    predicate HasSequence(s: int)
      reads this
    {
      0 <= s < |sequences| && (sequences[s].blocks != [] || sequences[s].length > 0)
    }

    function SequenceLength(s: int): (n: nat)
      reads this
      ensures n == Entry(State(), s).length
    {
      if s < 0 || s >= |sequences| then 0 else sequences[s].length
    }

    /** Makes room for total positions, or fails and leaves blocks, tables and lengths alone. */
    method ReserveSequence(s: int, total: int) returns (st: Status)
      requires Valid()
      modifies this
      ensures Valid() && rows == old(rows)
      ensures st == ReserveStatus(old(State()), s, total)
      ensures State() == AfterReserve(old(State()), s, total)
    {
      ghost var before := State();
      var ensured := EnsureSequence(s);
      if ensured.Failure? {
        return ensured;
      }
      if total < 0 {
        return Failure(InvalidArgument);
      }
      ghost var extended := State();
      assert Entry(extended, s) == Entry(before, s);
      var needed, current := BlocksNeeded(total, blockSize), |sequences[s].blocks|;
      if needed <= current {
        return Success;
      }
      var toAllocate := needed - current;
      if toAllocate > |freeBlocks| {
        return Failure(OutOfRange);
      }
      TakeBlocks(s, toAllocate);
      return Success;
    }

    /** One turn of the allocation loop. */
    method TakeBlock(s: nat)
      requires Good(State()) && freeBlocks != [] && s < |sequences|
      modifies this`freeBlocks, this`used, this`sequences
      ensures State() == TakeOne(old(State()), s)
    {
      LastIsFree(State());
      var block := freeBlocks[|freeBlocks| - 1];
      freeBlocks := freeBlocks[..|freeBlocks| - 1];
      used := used[block := true];
      sequences := sequences[s := SequenceEntry(sequences[s].length, sequences[s].blocks + [block])];
    }

    /** The allocation loop: blocks come from the back of the free list. */
    method TakeEach(s: nat, n: nat)
      requires Valid() && Initialized(State()) && s < |sequences| && n <= |freeBlocks|
      modifies this`freeBlocks, this`used, this`sequences
      ensures State() == Take(old(State()), s, n)
    {
      ghost var before := State();
      for i := 0 to n
        invariant State() == Take(before, s, i)
      {
        TakeReady(before, s, i);
        TakeBlock(s);
      }
    }

    /** Taking n blocks moves no row. */
    method TakeBlocks(s: nat, n: nat)
      requires Valid() && Initialized(State()) && s < |sequences| && n <= |freeBlocks|
      modifies this`freeBlocks, this`used, this`sequences
      ensures Valid() && State() == Take(old(State()), s, n)
    {
      ghost var before := State();
      TakeEach(s, n);
      TakeGood(before, s, n);
      GrownStores(before, State(), s, rows);
    }

    /** The new length may be shorter or longer; new positions hold no written row. */
    method SetSequenceLength(s: int, length: int) returns (st: Status)
      requires Valid()
      modifies this
      ensures Valid() && rows == old(rows)
      ensures st == if length < 0 then Failure(InvalidArgument) else ReserveStatus(old(State()), s, length)
      ensures length < 0 ==> State() == old(State())
      ensures length >= 0 ==> var after := AfterReserve(old(State()), s, length);
                State() == if st.Success? && s < |after.sequences| then WithLength(after, s, length) else after
    {
      if length < 0 {
        return Failure(InvalidArgument);
      }
      ghost var before := State();
      st := ReserveSequence(s, length);
      if st.Failure? {
        return st;
      }
      ReservedSequence(before, s, length);
      LengthGood(State(), rows, s, length);
      sequences := sequences[s := sequences[s].(length := length)];
      return Success;
    }

    function PhysicalBlock(s: int, pos: int): (r: Result<nat, ErrorCode>)
      requires blockSize > 0
      reads this
      ensures r.Ok? <==> 0 <= s < |sequences| && pos >= 0 && HasRow(State(), s, pos)
      ensures r.Ok? ==> r.value == Entry(State(), s).blocks[pos / blockSize]
    {
      if s < 0 || s >= |sequences| then Err(NotFound)
      else if pos < 0 then Err(OutOfRange)
      else if pos / blockSize >= |sequences[s].blocks| then Err(OutOfRange)
      else Ok(sequences[s].blocks[pos / blockSize])
    }

    /** Where row pos of a sequence starts in the storage of every layer. */
    function TokenIndex(s: int, l: int, pos: int): (r: Result<nat, ErrorCode>)
      requires blockSize > 0
      reads this
      ensures r.Ok? <==> 0 <= l < |layers| && 0 <= s < |sequences| && pos >= 0 && HasRow(State(), s, pos)
      ensures r.Ok? ==> r.value == RowIndex(State(), s, pos)
    {
      if l < 0 || l >= |layers| then Err(OutOfRange)
      else
        match PhysicalBlock(s, pos)
        case Err(e) => Err(e)
        case Ok(block) => Ok(FloatIndex(block, pos % blockSize, blockSize, heads * headDim))
    }

    /** The two memcpy calls. */
    method CopyRow(l: nat, index: nat, k: Row, v: Row)
      requires l < |layers| && index + |k| <= |layers[l].k| && index + |v| <= |layers[l].v|
      modifies this`layers
      ensures layers == old(layers)[l := Layer(Splice(old(layers)[l].k, index, k), Splice(old(layers)[l].v, index, v))]
    {
      layers := layers[l := layers[l].(k := Splice(layers[l].k, index, k))];
      layers := layers[l := layers[l].(v := Splice(layers[l].v, index, v))];
    }

    /** The body of the write loop: the two pointers and the two copies of one row. */
    method WriteOne(s: nat, l: nat, pos: nat, k: Row, v: Row)
      requires Valid() && HasRow(State(), s, pos) && s < |sequences| && l < |layers|
      requires |k| == |v| == KvHidden(State())
      modifies this`layers, this`rows
      ensures Valid() && rows == old(rows)[(s, l, pos) := (k, v)]
      ensures RowInside(old(State()), l, RowIndex(old(State()), s, pos))
      ensures State() == WriteRow(old(State()), l, RowIndex(old(State()), s, pos), k, v)
    {
      ghost var before := State();
      StoreRow(before, rows, s, l, pos, k, v);
      var index := TokenIndex(s, l, pos).value;
      CopyRow(l, index, k, v);
      rows := rows[(s, l, pos) := (k, v)];
      assert State() == WriteRow(before, l, index, k, v);
    }

    /** The write loop, once room has been reserved. */
    method WriteLoop(s: nat, l: nat, start: nat, k: seq<real>, v: seq<real>, count: nat)
      requires Valid() && s < |sequences| && l < |layers|
      requires start + count <= |sequences[s].blocks| * blockSize && blockSize > 0
      requires HoldsRows(k, count, KvHidden(State())) && HoldsRows(v, count, KvHidden(State()))
      modifies this`layers, this`rows
      ensures Valid() && |layers| == |old(layers)|
      ensures WrittenRows(old(rows), rows, s, l, start, count, k, v, KvHidden(State()))
    {
      ghost var h := KvHidden(State());
      WrittenNothing(rows, s, l, start, k, v, h);
      for t := 0 to count
        invariant Valid() && |layers| == |old(layers)| && KvHidden(State()) == h
        invariant WrittenRows(old(rows), rows, s, l, start, t, k, v, h)
      {
        WriteTurn(old(rows), s, l, start, k, v, count, t);
      }
    }

    /** One turn of the write loop, and what has been written by then. */
    method WriteTurn(ghost rows0: Rows, s: nat, l: nat, start: nat, k: seq<real>, v: seq<real>, ghost count: nat,
                     t: nat)
      requires Valid() && s < |sequences| && l < |layers| && t < count
      requires start + count <= |sequences[s].blocks| * blockSize && blockSize > 0
      requires HoldsRows(k, count, KvHidden(State())) && HoldsRows(v, count, KvHidden(State()))
      requires WrittenRows(rows0, rows, s, l, start, t, k, v, KvHidden(State()))
      modifies this`layers, this`rows
      ensures Valid() && |layers| == |old(layers)| && KvHidden(State()) == old(KvHidden(State()))
      ensures WrittenRows(rows0, rows, s, l, start, t + 1, k, v, KvHidden(State()))
    {
      WrittenTurn(rows0, rows, s, l, start, t, count, k, v, KvHidden(State()));
      WriteNext(s, l, start, k, v, t);
    }

    /** One turn of the write loop. */
    method WriteNext(s: nat, l: nat, start: nat, k: seq<real>, v: seq<real>, t: nat)
      requires Valid() && s < |sequences| && l < |layers|
      requires start + t < |sequences[s].blocks| * blockSize && blockSize > 0
      requires t * KvHidden(State()) + KvHidden(State()) <= |k| && t * KvHidden(State()) + KvHidden(State()) <= |v|
      modifies this`layers, this`rows
      ensures Valid() && |layers| == |old(layers)|
      ensures rows == old(rows)[(s, l, start + t) := (RowOf(k, t, KvHidden(State())), RowOf(v, t, KvHidden(State())))]
    {
      RoomHasRow(State(), s, start + t);
      var width := heads * headDim;
      WriteOne(s, l, start + t, RowOf(k, t, width), RowOf(v, t, width));
    }

    /** Writes count rows at start..start+count-1 of one layer; a failing call writes none. */
    method WriteTokens(s: int, l: int, start: int, k: seq<real>, v: seq<real>, count: int) returns (st: Status)
      requires Valid()
      requires count >= 0 ==> HoldsRows(k, count, KvHidden(State())) && HoldsRows(v, count, KvHidden(State()))
      modifies this
      ensures Valid() && st == WriteStatus(old(State()), s, l, start, count)
      ensures st.Failure? || count == 0 ==> rows == old(rows)
      ensures AfterWrite(old(State()), State(), s, l, start, count)
      ensures st.Success? && count > 0 ==>
                s >= 0 && WrittenRows(old(rows), rows, s, l, start, count, k, v, KvHidden(old(State())))
    {
      if start < 0 || count < 0 {
        return Failure(InvalidArgument);
      }
      if l < 0 || l >= |layers| {
        return Failure(OutOfRange);
      }
      if count == 0 {
        return Success;
      }
      ghost var before := State();
      var end := start + count;
      st := ReserveSequence(s, end);
      if st.Failure? {
        return st;
      }
      ReservedSequence(before, s, end);
      ghost var after := State();
      WriteLoop(s, l, start, k, v, count);
      assert State() == after.(layers := layers);
      var length := if sequences[s].length >= end then sequences[s].length else end;
      LengthGood(State(), rows, s, length);
      sequences := sequences[s := sequences[s].(length := length)];
      ReserveGood(before, s, end);
      return Success;
    }

    /** Appending starts at the length that all layers share. */
    method AppendTokens(s: int, l: int, k: seq<real>, v: seq<real>, count: int) returns (st: Status)
      requires Valid()
      requires count >= 0 ==> HoldsRows(k, count, KvHidden(State())) && HoldsRows(v, count, KvHidden(State()))
      modifies this
      ensures Valid() && st == WriteStatus(old(State()), s, l, Entry(old(State()), s).length, count)
      ensures st.Failure? || count == 0 ==> rows == old(rows)
      ensures AfterWrite(old(State()), State(), s, l, Entry(old(State()), s).length, count)
      ensures st.Success? && count > 0 ==>
                s >= 0 && WrittenRows(old(rows), rows, s, l, Entry(old(State()), s).length, count, k, v,
                                      KvHidden(old(State())))
    {
      st := WriteTokens(s, l, SequenceLength(s), k, v, count);
    }

    /** The floats that key_ptr (isKey) or value_ptr points at, for one KV head. */
    method ReadToken(isKey: bool, s: int, l: int, pos: int, kvHead: int) returns (r: Result<Row, ErrorCode>)
      requires Valid()
      ensures r.Ok? <==> 0 <= l < |layers| && 0 <= kvHead < heads && 0 <= pos < Entry(State(), s).length
      ensures r.Err? ==> r.error == OutOfRange
      ensures r.Ok? ==> s >= 0 && HasRow(State(), s, pos) && |r.value| == headDim
      ensures r.Ok? && (s, l, pos) in rows ==>
                && |rows[(s, l, pos)].0| == |rows[(s, l, pos)].1| == KvHidden(State())
                && kvHead * headDim + headDim <= KvHidden(State())
                && r.value == Head(if isKey then rows[(s, l, pos)].0 else rows[(s, l, pos)].1, kvHead, headDim)
    {
      if l < 0 || l >= |layers| {
        return Err(OutOfRange);
      }
      if kvHead < 0 || kvHead >= heads {
        return Err(OutOfRange);
      }
      if pos < 0 || pos >= SequenceLength(s) {
        return Err(OutOfRange);
      }
      LengthInside(State(), s, pos);
      RowIsInside(State(), s, l, pos);
      RowInBuffer(kvHead, heads, headDim);
      // A position below the length is inside the block table, so the lookup cannot fail here.
      var index := TokenIndex(s, l, pos).value + kvHead * headDim;
      var storage := if isKey then layers[l].k else layers[l].v;
      HeadInside(State(), s, l, pos, kvHead);
      assert (s, l, pos) in rows ==> StoredAt(State(), rows, (s, l, pos));
      return Ok(storage[index..index + headDim]);
    }
  }
}
