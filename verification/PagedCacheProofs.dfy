/** Address arithmetic and ownership steps of the paged KV cache. */
module PagedCacheProofs {
  import opened Arithmetic
  import opened RealVectorSpec
  import opened Sequences
  import opened PagedCacheSpec

  // ---------------------------------------------------------------- addresses

  lemma Distribute(b: nat, size: nat, o: nat, h: nat)
    ensures b * (size * h) + o * h == (b * size + o) * h
  {
    assert b * (size * h) == (b * size) * h;
  }

  /** Rows at different slots do not share a float. */
  lemma RowsApart(x: nat, y: nat, h: nat)
    requires x != y
    ensures x * h + h <= y * h || y * h + h <= x * h
  {
    if x < y {
      Monotone(x + 1, y, h);
      assert (x + 1) * h == x * h + h;
    } else {
      Monotone(y + 1, x, h);
      assert (y + 1) * h == y * h + h;
    }
  }

  lemma RowFits(c: Cache, s: nat, pos: nat)
    requires Good(c) && HasRow(c, s, pos)
    ensures RowIndex(c, s, pos) + KvHidden(c) <= c.maxBlocks * (c.blockSize * KvHidden(c))
  {
    var b, o, size, h := Entry(c, s).blocks[pos / c.blockSize], pos % c.blockSize, c.blockSize, KvHidden(c);
    assert OwnsAt(c, b, s, pos / size);
    SlotBelow(b, size, o, c.maxBlocks);
    Distribute(b, size, o, h);
    Monotone(b * size + o + 1, c.maxBlocks * size, h);
    assert (b * size + o + 1) * h == (b * size + o) * h + h;
    assert c.maxBlocks * (size * h) == (c.maxBlocks * size) * h;
  }

  lemma RowIsInside(c: Cache, s: nat, l: nat, pos: nat)
    requires Good(c) && HasRow(c, s, pos) && l < |c.layers|
    ensures RowInside(c, l, RowIndex(c, s, pos))
  {
    RowFits(c, s, pos);
  }

  lemma DivModBack(p: nat, q: nat, d: nat)
    requires d > 0 && p / d == q / d && p % d == q % d
    ensures p == q
  {
    assert p == d * (p / d) + p % d && q == d * (q / d) + q % d;
  }

  /** Different rows lie in different slots: no block belongs to two table entries. */
  lemma SlotsOfRowsDiffer(c: Cache, s: nat, pos: nat, s': nat, pos': nat)
    requires OwnedGood(c) && HasRow(c, s, pos) && HasRow(c, s', pos') && (s != s' || pos != pos')
    ensures var b, b' := Entry(c, s).blocks[pos / c.blockSize], Entry(c, s').blocks[pos' / c.blockSize];
            b != b' || pos % c.blockSize != pos' % c.blockSize
  {
    var size := c.blockSize;
    var b, b' := Entry(c, s).blocks[pos / size], Entry(c, s').blocks[pos' / size];
    assert OwnsAt(c, b, s, pos / size) && OwnsAt(c, b', s', pos' / size);
    if b == b' && pos % size == pos' % size {
      DivModBack(pos, pos', size);
    }
  }

  lemma SlotRowsApart(b: nat, o: nat, b': nat, o': nat, size: nat, h: nat)
    requires o < size && o' < size && (b != b' || o != o')
    ensures var i, j := b * (size * h) + o * h, b' * (size * h) + o' * h;
            i + h <= j || j + h <= i
  {
    SlotsDiffer(b, o, b', o', size);
    Distribute(b, size, o, h);
    Distribute(b', size, o', h);
    RowsApart(b * size + o, b' * size + o', h);
  }

  /** Different rows of the cache occupy disjoint index ranges. */
  lemma RowsDisjoint(c: Cache, s: nat, pos: nat, s': nat, pos': nat)
    requires OwnedGood(c) && HasRow(c, s, pos) && HasRow(c, s', pos') && (s != s' || pos != pos')
    ensures var i, j, h := RowIndex(c, s, pos), RowIndex(c, s', pos'), KvHidden(c);
            i + h <= j || j + h <= i
  {
    SlotsOfRowsDiffer(c, s, pos, s', pos');
    SlotRowsApart(Entry(c, s).blocks[pos / c.blockSize], pos % c.blockSize,
                  Entry(c, s').blocks[pos' / c.blockSize], pos' % c.blockSize, c.blockSize, KvHidden(c));
  }

  lemma SpliceReads(storage: seq<real>, i: nat, row: Row, j: nat, h: nat)
    requires i + h <= |storage| && j + h <= |storage| && |row| == h
    ensures |Splice(storage, i, row)| == |storage|
    ensures Splice(storage, i, row)[i..i + h] == row
    ensures i + h <= j || j + h <= i ==> Splice(storage, i, row)[j..j + h] == storage[j..j + h]
  {
    var t := Splice(storage, i, row);
    if i + h <= j || j + h <= i {
      forall m | j <= m < j + h ensures t[m] == storage[m] {
      }
    }
  }

  /** Writing at i reads back there and leaves what lies apart from it, and every other layer, as it was. */
  lemma WriteInLayer(c: Cache, l: nat, i: nat, k: Row, v: Row, l': nat, j: nat)
    requires RowInside(c, l, i) && RowInside(c, l', j) && |k| == |v| == KvHidden(c)
    ensures var c' := WriteRow(c, l, i, k, v);
            && RowInside(c', l', j)
            && (l == l' && i == j ==> ReadK(c', l', j) == k && ReadV(c', l', j) == v)
            && (l != l' || i + KvHidden(c) <= j || j + KvHidden(c) <= i ==>
                  ReadK(c', l', j) == ReadK(c, l', j) && ReadV(c', l', j) == ReadV(c, l', j))
  {
    if l == l' && (i == j || i + KvHidden(c) <= j || j + KvHidden(c) <= i) {
      SpliceReads(c.layers[l].k, i, k, j, KvHidden(c));
      SpliceReads(c.layers[l].v, i, v, j, KvHidden(c));
    }
  }

  /** Writing a row changes what is read there and nothing else. */
  lemma WriteRowReads(c: Cache, s: nat, l: nat, pos: nat, k: Row, v: Row, s': nat, l': nat, pos': nat)
    requires Good(c) && HasRow(c, s, pos) && HasRow(c, s', pos') && l < |c.layers| && l' < |c.layers|
    requires |k| == |v| == KvHidden(c)
    ensures RowInside(c, l, RowIndex(c, s, pos)) && RowInside(c, l', RowIndex(c, s', pos'))
    ensures var c' := WriteRow(c, l, RowIndex(c, s, pos), k, v);
            var j := RowIndex(c, s', pos');
            && RowInside(c', l', j)
            && ReadK(c', l', j) == (if s == s' && l == l' && pos == pos' then k else ReadK(c, l', j))
            && ReadV(c', l', j) == (if s == s' && l == l' && pos == pos' then v else ReadV(c, l', j))
  {
    RowIsInside(c, s, l, pos);
    RowIsInside(c, s', l', pos');
    if s != s' || pos != pos' {
      RowsDisjoint(c, s, pos, s', pos');
    }
    WriteInLayer(c, l, RowIndex(c, s, pos), k, v, l', RowIndex(c, s', pos'));
  }

  lemma WriteRowGood(c: Cache, l: nat, i: nat, k: Row, v: Row)
    requires Good(c) && RowInside(c, l, i) && |k| == |v| == KvHidden(c)
    ensures Good(WriteRow(c, l, i, k, v))
  {
    SpliceReads(c.layers[l].k, i, k, i, KvHidden(c));
    SpliceReads(c.layers[l].v, i, v, i, KvHidden(c));
    var c' := WriteRow(c, l, i, k, v);
    OwnershipSame(c, c');
  }

  /** Ownership depends only on the free list, the flags and the block tables. */
  lemma OwnershipSame(c: Cache, c': Cache)
    requires Partitioned(c) && c'.free == c.free && c'.used == c.used && c'.sequences == c.sequences
    requires c'.maxBlocks == c.maxBlocks
    ensures Partitioned(c')
  {
    forall b, s, i ensures OwnsAt(c', b, s, i) <==> OwnsAt(c, b, s, i) {
    }
    forall b | 0 <= b < c.maxBlocks && c'.used[b] ensures Owned(c', b) {
      assert Owned(c, b);
      var s, i :| OwnsAt(c, b, s, i);
      assert OwnsAt(c', b, s, i);
    }
  }

  // ---------------------------------------------------------------- taking blocks

  lemma LastIsFree(c: Cache)
    requires FreeGood(c) && c.free != []
    ensures var b := c.free[|c.free| - 1]; b < c.maxBlocks && b < |c.used| && !c.used[b]
  {
    assert c.free[|c.free| - 1] in c.free;
  }

  lemma TakeOneFree(c: Cache, s: nat)
    requires FreeGood(c) && c.free != [] && s < |c.sequences|
    ensures FreeGood(TakeOne(c, s))
  {
    LastIsFree(c);
    var c' := TakeOne(c, s);
    forall b: nat ensures b in c'.free <==> b < c'.maxBlocks && !c'.used[b] {
      if b in c'.free {
        assert b in c.free;
      }
    }
  }

  lemma TakeOneOwns(c: Cache, s: nat, x: nat, t: nat, i: nat)
    requires FreeGood(c) && c.free != [] && s < |c.sequences|
    ensures OwnsAt(TakeOne(c, s), x, t, i) <==>
            OwnsAt(c, x, t, i) || (t == s && i == |c.sequences[s].blocks| && x == c.free[|c.free| - 1])
  {
    LastIsFree(c);
  }

  lemma TakeOneOwned(c: Cache, s: nat)
    requires Partitioned(c) && c.free != [] && s < |c.sequences|
    ensures OwnedGood(TakeOne(c, s))
  {
    LastIsFree(c);
    var c', last := TakeOne(c, s), c.free[|c.free| - 1];
    forall x: nat, t: nat, i: nat
      ensures OwnsAt(c', x, t, i) <==> OwnsAt(c, x, t, i) || (t == s && i == |c.sequences[s].blocks| && x == last)
    {
      TakeOneOwns(c, s, x, t, i);
    }
    forall b: nat | b < c'.maxBlocks && c'.used[b] ensures Owned(c', b) {
      if b == last {
        assert OwnsAt(c', b, s, |c.sequences[s].blocks|);
      } else {
        assert Owned(c, b);
        var t: nat, i: nat :| OwnsAt(c, b, t, i);
        assert OwnsAt(c', b, t, i);
      }
    }
  }

  lemma TakeOneGrows(c: Cache, s: nat)
    ensures GrewOnly(c, TakeOne(c, s), s)
  {
  }

  lemma GrewTwice(c: Cache, d: Cache, e: Cache, s: nat)
    requires GrewOnly(c, d, s) && GrewOnly(d, e, s)
    ensures GrewOnly(c, e, s)
  {
  }

  lemma GrownLengthsFit(c: Cache, c': Cache, s: nat)
    requires LengthsFit(c) && GrewOnly(c, c', s)
    ensures LengthsFit(c')
  {
    forall t | 0 <= t < |c'.sequences| ensures c'.sequences[t].length <= |c'.sequences[t].blocks| * c'.blockSize {
      assert Entry(c', t).length == Entry(c, t).length;
      if t < |c.sequences| {
        assert Entry(c, t).length <= |Entry(c, t).blocks| * c.blockSize;
      }
      Monotone(|Entry(c, t).blocks|, |Entry(c', t).blocks|, c.blockSize);
    }
  }

  /** Growing one table keeps every invariant that does not speak of ownership. */
  lemma GrownGood(c: Cache, c': Cache, s: nat)
    requires Good(c) && Initialized(c) && GrewOnly(c, c', s) && Partitioned(c')
    ensures Good(c')
  {
    GrownLengthsFit(c, c', s);
  }

  lemma ExtendedGood(c: Cache, s: nat)
    requires Good(c) && Initialized(c)
    ensures Good(Extended(c, s)) && GrewOnly(c, Extended(c, s), s)
  {
    var c' := Extended(c, s);
    forall x: nat, t: nat, i: nat ensures OwnsAt(c', x, t, i) <==> OwnsAt(c, x, t, i) {
    }
    forall b: nat | b < c.maxBlocks && c'.used[b] ensures Owned(c', b) {
      assert Owned(c, b);
      var t: nat, i: nat :| OwnsAt(c, b, t, i);
      assert OwnsAt(c', b, t, i);
    }
    GrownGood(c, c', s);
  }

  /** Taking n of the free blocks: ownership stays a partition, no row moves, and the table of s gains exactly n
      blocks. */
  lemma {:induction false} TakeGood(c: Cache, s: nat, n: nat)
    requires Good(c) && Initialized(c) && n <= |c.free| && s < |c.sequences|
    ensures Good(Take(c, s, n)) && GrewOnly(c, Take(c, s, n), s)
    ensures |Take(c, s, n).free| == |c.free| - n
    ensures |Entry(Take(c, s, n), s).blocks| == |Entry(c, s).blocks| + n
    ensures |Take(c, s, n).sequences| == |c.sequences|
    ensures Take(c, s, n).free == c.free[..|c.free| - n]
  {
    if n > 0 {
      TakeGood(c, s, n - 1);
      var d := Take(c, s, n - 1);
      assert d.free != [];
      LastIsFree(d);
      TakeOneFree(d, s);
      TakeOneOwned(d, s);
      TakeOneGrows(d, s);
      GrewTwice(c, d, TakeOne(d, s), s);
      GrownGood(d, TakeOne(d, s), s);
      assert TakeOne(d, s).free == c.free[..|c.free| - n];
    }
  }

  /** As long as fewer blocks were taken than were free, another one can be taken. */
  lemma TakeReady(c: Cache, s: nat, n: nat)
    requires Good(c) && Initialized(c) && n < |c.free| && s < |c.sequences|
    ensures Good(Take(c, s, n)) && Take(c, s, n).free != [] && s < |Take(c, s, n).sequences|
  {
    TakeGood(c, s, n);
  }

  /** Reserving keeps the cache good, moves no row and fails without touching blocks, tables or lengths. */
  lemma ReserveGood(c: Cache, s: int, total: int)
    requires Good(c)
    ensures Good(AfterReserve(c, s, total))
    ensures s >= 0 ==> GrewOnly(c, AfterReserve(c, s, total), s)
    ensures !ReserveStatus(c, s, total).Success? ==>
              var c' := AfterReserve(c, s, total);
              c'.free == c.free && c'.used == c.used && forall t: nat :: Entry(c', t) == Entry(c, t)
  {
    if Initialized(c) && s >= 0 {
      ExtendedGood(c, s);
      if ReserveStatus(c, s, total).Success? {
        TakeGood(Extended(c, s), s, Missing(c, s, total));
        GrewTwice(c, Extended(c, s), AfterReserve(c, s, total), s);
      }
    }
  }

  lemma CeilCovers(total: nat, size: nat, blocks: nat)
    requires size > 0
    ensures total <= blocks * size <==> BlocksNeeded(total, size) <= blocks
  {
    var q, r := (total + size - 1) / size, (total + size - 1) % size;
    assert total + size - 1 == size * q + r;
    if total > 0 {
      if q <= blocks {
        Monotone(q, blocks, size);
      } else {
        Monotone(blocks + 1, q, size);
        assert (blocks + 1) * size == blocks * size + size;
      }
    }
  }

  /** Reserving succeeds exactly when the sequence already has the room or enough free blocks exist, and then has the
      room. */
  lemma ReserveRoom(c: Cache, s: nat, total: nat)
    requires Good(c) && Initialized(c)
    ensures ReserveStatus(c, s, total).Success? <==>
            total <= (|Entry(c, s).blocks| + |c.free|) * c.blockSize
    ensures ReserveStatus(c, s, total).Success? ==>
            total <= |Entry(AfterReserve(c, s, total), s).blocks| * c.blockSize
  {
    CeilCovers(total, c.blockSize, |Entry(c, s).blocks| + |c.free|);
    ExtendedGood(c, s);
    if ReserveStatus(c, s, total).Success? {
      TakeGood(Extended(c, s), s, Missing(c, s, total));
      CeilCovers(total, c.blockSize, |Entry(AfterReserve(c, s, total), s).blocks|);
    }
  }

  lemma RoomHasRow(c: Cache, s: nat, pos: nat)
    requires c.blockSize > 0 && pos < |Entry(c, s).blocks| * c.blockSize
    ensures HasRow(c, s, pos)
  {
    var n, size := |Entry(c, s).blocks|, c.blockSize;
    assert pos == size * (pos / size) + pos % size;
    if pos / size >= n {
      Monotone(n, pos / size, size);
      assert false;
    }
  }

  // ---------------------------------------------------------------- rows and growth

  lemma GrownRow(c: Cache, c': Cache, s: nat, key: (nat, nat, nat))
    requires GrewOnly(c, c', s) && HasRow(c, key.0, key.2) && RowInside(c, key.1, RowIndex(c, key.0, key.2))
    ensures HasRow(c', key.0, key.2) && RowIndex(c', key.0, key.2) == RowIndex(c, key.0, key.2)
    ensures RowInside(c', key.1, RowIndex(c, key.0, key.2))
    ensures ReadK(c', key.1, RowIndex(c, key.0, key.2)) == ReadK(c, key.1, RowIndex(c, key.0, key.2))
    ensures ReadV(c', key.1, RowIndex(c, key.0, key.2)) == ReadV(c, key.1, RowIndex(c, key.0, key.2))
  {
    if key.0 == s {
      assert Entry(c, s).blocks <= Entry(c', s).blocks;
    } else {
      assert Entry(c', key.0) == Entry(c, key.0);
    }
  }

  /** Growing a block table never moves an existing row. */
  lemma GrownStores(c: Cache, c': Cache, s: nat, rows: Rows)
    requires Stores(c, rows) && GrewOnly(c, c', s)
    ensures Stores(c', rows)
  {
    forall key: (nat, nat, nat) | key in rows
      ensures StoredAt(c', rows, key)
    {
      assert StoredAt(c, rows, key);
      GrownRow(c, c', s, key);
    }
  }

  // ---------------------------------------------------------------- giving blocks back

  lemma BlocksOfOne(c: Cache, s: nat)
    requires OwnedGood(c) && s < |c.sequences|
    ensures NoDuplicates(c.sequences[s].blocks)
    ensures forall b :: b in c.sequences[s].blocks ==> b < c.maxBlocks && c.used[b]
  {
    var blocks := c.sequences[s].blocks;
    forall i, j | 0 <= i < j < |blocks| ensures blocks[i] != blocks[j] {
      if blocks[i] == blocks[j] {
        assert OwnsAt(c, blocks[i], s, i) && OwnsAt(c, blocks[i], s, j);
        assert false;
      }
    }
    forall b | b in blocks ensures b < c.maxBlocks && c.used[b] {
      var i :| 0 <= i < |blocks| && blocks[i] == b;
      assert OwnsAt(c, b, s, i);
    }
  }

  lemma GivenBackFree(c: Cache, s: nat)
    requires Partitioned(c) && s < |c.sequences|
    ensures FreeGood(GivenBack(c, s))
  {
    var c' := GivenBack(c, s);
    BlocksOfOne(c, s);
    var blocks := c.sequences[s].blocks;
    forall b: nat ensures b in c'.free <==> b < c'.maxBlocks && !c'.used[b] {
      assert b in c'.free <==> b in c.free || b in blocks;
    }
    forall i, j | 0 <= i < j < |c'.free| ensures c'.free[i] != c'.free[j] {
      assert i < |c.free| ==> c.free[i] in c.free;
      assert j >= |c.free| ==> blocks[j - |c.free|] in blocks;
    }
  }

  lemma OthersBlock(c: Cache, s: nat, b: nat, t: nat, i: nat)
    requires Partitioned(c) && s < |c.sequences| && OwnsAt(c, b, t, i) && t != s
    ensures b !in c.sequences[s].blocks
  {
    var blocks := c.sequences[s].blocks;
    forall j | 0 <= j < |blocks| ensures blocks[j] != b {
      assert OwnsAt(c, blocks[j], s, j);
    }
  }

  lemma GivenBackOwned(c: Cache, s: nat)
    requires Partitioned(c) && s < |c.sequences|
    ensures OwnedGood(GivenBack(c, s))
  {
    var c' := GivenBack(c, s);
    var blocks := c.sequences[s].blocks;
    forall x: nat, t: nat, i: nat ensures OwnsAt(c', x, t, i) <==> OwnsAt(c, x, t, i) && t != s {
    }
    forall x: nat, t: nat, i: nat | OwnsAt(c', x, t, i) ensures x < c'.maxBlocks && c'.used[x] {
      assert OwnsAt(c, x, t, i);
      OthersBlock(c, s, x, t, i);
    }
    forall b: nat | b < c'.maxBlocks && c'.used[b] ensures Owned(c', b) {
      assert Owned(c, b);
      var t: nat, i: nat :| OwnsAt(c, b, t, i);
      assert t != s;
      assert OwnsAt(c', b, t, i);
    }
  }

  lemma UnusedNext(flags: seq<bool>, flags': seq<bool>, blocks: seq<nat>, b: nat)
    requires Unused(flags, flags', blocks) && b < |flags|
    ensures Unused(flags, flags'[b := false], blocks + [b])
  {
    forall x | 0 <= x < |flags| ensures flags'[b := false][x] == (flags[x] && x !in blocks + [b]) {
      assert x in blocks + [b] <==> x in blocks || x == b;
    }
  }

  lemma UnusedUnique(flags: seq<bool>, flags': seq<bool>, blocks: seq<nat>)
    requires Unused(flags, flags', blocks)
    ensures flags' == seq(|flags|, b requires 0 <= b < |flags| => flags[b] && b !in blocks)
  {
  }

  /** Freeing a sequence returns exactly its blocks; rows of other sequences stay where they are. */
  lemma GivenBackGood(c: Cache, s: nat, rows: Rows)
    requires Good(c) && Stores(c, rows) && s < |c.sequences|
    ensures Good(GivenBack(c, s)) && Stores(GivenBack(c, s), WithoutSequence(rows, s))
  {
    GivenBackFree(c, s);
    GivenBackOwned(c, s);
    var c' := GivenBack(c, s);
    forall key: (nat, nat, nat) | key in WithoutSequence(rows, s)
      ensures StoredAt(c', WithoutSequence(rows, s), key)
    {
      assert StoredAt(c, rows, key);
      assert Entry(c', key.0) == Entry(c, key.0);
    }
  }

  // ---------------------------------------------------------------- writing rows

  /** Writing one row into the storage is writing one key of the abstract map. */
  lemma StoreRow(c: Cache, rows: Rows, s: nat, l: nat, pos: nat, k: Row, v: Row)
    requires Good(c) && Stores(c, rows) && HasRow(c, s, pos) && l < |c.layers| && |k| == |v| == KvHidden(c)
    ensures RowInside(c, l, RowIndex(c, s, pos))
    ensures Good(WriteRow(c, l, RowIndex(c, s, pos), k, v))
    ensures Stores(WriteRow(c, l, RowIndex(c, s, pos), k, v), rows[(s, l, pos) := (k, v)])
  {
    RowIsInside(c, s, l, pos);
    WriteRowGood(c, l, RowIndex(c, s, pos), k, v);
    var c', rows' := WriteRow(c, l, RowIndex(c, s, pos), k, v), rows[(s, l, pos) := (k, v)];
    forall key: (nat, nat, nat) | key in rows' ensures StoredAt(c', rows', key) {
      assert key in rows && key != (s, l, pos) ==> StoredAt(c, rows, key);
      WriteRowReads(c, s, l, pos, k, v, key.0, key.1, key.2);
    }
  }

  lemma WrittenNothing(rows: Rows, s: nat, l: nat, start: nat, k: seq<real>, v: seq<real>, h: nat)
    ensures WrittenRows(rows, rows, s, l, start, 0, k, v, h)
  {
  }

  lemma WrittenNext(rows: Rows, rows': Rows, s: nat, l: nat, start: nat, n: nat, k: seq<real>, v: seq<real>, h: nat)
    requires WrittenRows(rows, rows', s, l, start, n, k, v, h)
    requires n * h + h <= |k| && n * h + h <= |v|
    ensures WrittenRows(rows, rows'[(s, l, start + n) := (RowOf(k, n, h), RowOf(v, n, h))], s, l, start, n + 1, k, v, h)
  {
    var rows'' := rows'[(s, l, start + n) := (RowOf(k, n, h), RowOf(v, n, h))];
    forall key: (nat, nat, nat)
      ensures key in rows'' <==> key in rows || InRange(key, s, l, start, n + 1)
      ensures key in rows && !InRange(key, s, l, start, n + 1) ==> rows''[key] == rows[key]
    {
      assert InRange(key, s, l, start, n + 1) <==> InRange(key, s, l, start, n) || key == (s, l, start + n);
    }
    forall t: nat | t < n + 1 ensures WrittenAt(rows'', s, l, start, t, k, v, h) {
      assert t < n ==> WrittenAt(rows', s, l, start, t, k, v, h);
    }
  }

  lemma WrittenTurn(rows: Rows, rows': Rows, s: nat, l: nat, start: nat, t: nat, n: nat, k: seq<real>, v: seq<real>,
                    h: nat)
    requires t < n && HoldsRows(k, n, h) && HoldsRows(v, n, h) && WrittenRows(rows, rows', s, l, start, t, k, v, h)
    ensures t * h + h <= |k| && t * h + h <= |v|
    ensures WrittenRows(rows, rows'[(s, l, start + t) := (RowOf(k, t, h), RowOf(v, t, h))], s, l, start, t + 1, k, v, h)
  {
    RowInBuffer(t, n, h);
    WrittenNext(rows, rows', s, l, start, t, k, v, h);
  }

  /** A length within the capacity may be set without disturbing anything else. */
  lemma LengthGood(c: Cache, rows: Rows, s: nat, length: nat)
    requires Good(c) && Stores(c, rows) && s < |c.sequences| && length <= |c.sequences[s].blocks| * c.blockSize
    ensures Good(WithLength(c, s, length)) && Stores(WithLength(c, s, length), rows)
  {
    var c' := WithLength(c, s, length);
    forall b: nat, t: nat, i: nat ensures OwnsAt(c', b, t, i) <==> OwnsAt(c, b, t, i) {
    }
    forall b: nat | b < c.maxBlocks && c'.used[b] ensures Owned(c', b) {
      assert Owned(c, b);
      var t: nat, i: nat :| OwnsAt(c, b, t, i);
      assert OwnsAt(c', b, t, i);
    }
    forall key: (nat, nat, nat) | key in rows ensures StoredAt(c', rows, key) {
      assert StoredAt(c, rows, key);
      assert Entry(c', key.0).blocks == Entry(c, key.0).blocks;
    }
  }

  // ---------------------------------------------------------------- empty and cleared caches

  lemma EmptyGood()
    ensures Good(EmptyCache()) && Stores(EmptyCache(), map[])
  {
  }

  lemma ClearedGood(layers: nat, heads: nat, headDim: nat, blockSize: nat, maxBlocks: nat)
    requires heads > 0 && headDim > 0 && blockSize > 0 && maxBlocks > 0
    ensures Good(ClearedCache(layers, heads, headDim, blockSize, maxBlocks))
    ensures Stores(ClearedCache(layers, heads, headDim, blockSize, maxBlocks), map[])
  {
    var c := ClearedCache(layers, heads, headDim, blockSize, maxBlocks);
    forall b: nat ensures b in c.free <==> b < c.maxBlocks && !c.used[b] {
      if b < maxBlocks {
        assert c.free[maxBlocks - 1 - b] == b;
      }
    }
  }

  lemma Products(max: nat, size: nat, heads: nat, dim: nat)
    ensures heads * dim >= 0 && size * (heads * dim) >= 0 && max * (size * (heads * dim)) >= 0
  {
  }

  lemma ResetLayers(c: Cache)
    requires Good(c) && Initialized(c)
    ensures seq(|c.layers|, l requires 0 <= l < |c.layers| => Layer(ZeroRow(|c.layers[l].k|),
                                                                    ZeroRow(|c.layers[l].v|))) ==
            ClearedCache(|c.layers|, c.heads, c.headDim, c.blockSize, c.maxBlocks).layers
  {
  }

  lemma UninitializedReset(c: Cache, c': Cache)
    requires Good(c) && !Initialized(c) && c'.layers == [] && c'.sequences == [] && SameShape(c, c')
    requires c'.free == Descending(c.maxBlocks) && c'.used == seq(c.maxBlocks, _ => false)
    ensures Good(c') && Stores(c', map[])
  {
    forall b: nat ensures b in c'.free <==> b < c'.maxBlocks && !c'.used[b] {
      if b < c'.maxBlocks {
        assert c'.free[c'.maxBlocks - 1 - b] == b;
      }
    }
  }

  lemma ReservedSequence(c: Cache, s: int, total: nat)
    requires Good(c) && ReserveStatus(c, s, total).Success?
    ensures 0 <= s < |AfterReserve(c, s, total).sequences|
    ensures total <= |AfterReserve(c, s, total).sequences[s].blocks| * c.blockSize
    ensures SameShape(c, AfterReserve(c, s, total)) && AfterReserve(c, s, total).layers == c.layers
  {
    ExtendedGood(c, s);
    TakeGood(Extended(c, s), s, Missing(c, s, total));
    ReserveRoom(c, s, total);
    ReserveGood(c, s, total);
  }

  lemma LengthInside(c: Cache, s: int, pos: nat)
    requires Good(c) && pos < Entry(c, s).length
    ensures s >= 0 && Initialized(c) && HasRow(c, s, pos)
  {
    RoomHasRow(c, s, pos);
  }

  lemma SubSlice(s: seq<real>, i: nat, h: nat, a: nat, d: nat)
    requires i + h <= |s| && a + d <= h
    ensures s[i..i + h][a..a + d] == s[i + a..i + a + d]
  {
    var x, y := s[i..i + h][a..a + d], s[i + a..i + a + d];
    forall j | 0 <= j < d ensures x[j] == y[j] {
      assert s[i..i + h][a + j] == s[i + a + j];
    }
  }

  /** The floats of one head are a part of the row. */
  lemma HeadInside(c: Cache, s: nat, l: nat, pos: nat, head: nat)
    requires Good(c) && HasRow(c, s, pos) && l < |c.layers| && head < c.heads
    ensures RowInside(c, l, RowIndex(c, s, pos)) && head * c.headDim + c.headDim <= KvHidden(c)
    ensures RowIndex(c, s, pos) + head * c.headDim + c.headDim <= |c.layers[l].k|
    ensures RowIndex(c, s, pos) + head * c.headDim + c.headDim <= |c.layers[l].v|
    ensures var i, d := RowIndex(c, s, pos), c.headDim;
            && c.layers[l].k[i + head * d..i + head * d + d] == Head(ReadK(c, l, i), head, d)
            && c.layers[l].v[i + head * d..i + head * d + d] == Head(ReadV(c, l, i), head, d)
  {
    RowIsInside(c, s, l, pos);
    RowInBuffer(head, c.heads, c.headDim);
    var i, d := RowIndex(c, s, pos), c.headDim;
    SubSlice(c.layers[l].k, i, KvHidden(c), head * d, d);
    SubSlice(c.layers[l].v, i, KvHidden(c), head * d, d);
  }
}
