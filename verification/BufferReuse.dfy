/**
  Second part of the memory planner (src/runtime/memory_planner.cpp): the greedy pass that gives every
  eligible range a buffer, reusing the smallest free one of its (dtype, device) pool that is large enough.
*/
module BufferReuse {
  import opened Wrappers
  import opened Sequences
  import opened Graphs
  import opened OrderedPairs
  import opened LiveRanges
  import opened BufferReuseSpec
  import opened BestFitSpec
  import opened BestFits

  lemma BooksLater(buffers: seq<Buffer>, pools: Pools, live: seq<Pair>, frontier: nat, frontier': nat)
    requires Books(buffers, pools, live, frontier) && frontier <= frontier'
    ensures Books(buffers, pools, live, frontier')
  {
  }

  /** Moving one expired buffer from the live list to its pool keeps the books. */
  lemma ReleaseOne(buffers: seq<Buffer>, pools: Pools, live: seq<Pair>, frontier: nat)
    requires Books(buffers, pools, live, frontier) && live != [] && live[0].0 < frontier
    ensures live[0].1 < |buffers|
    ensures var b := live[0].1;
            var p := BufferPool(buffers[b]);
            var free := if p in pools then pools[p] else [];
            Books(buffers, pools[p := Insert(free, (buffers[b].bytes, b))], Erase(live, 0), frontier)
  {
    assert live[0] in live;
    var b := live[0].1;
    var p := BufferPool(buffers[b]);
    var free := if p in pools then pools[p] else [];
    assert (buffers[b].bytes, b) !in free;
    var live' := Erase(live, 0);
    var pools' := pools[p := Insert(free, (buffers[b].bytes, b))];
    forall q, e | q in pools' && e in pools'[q] ensures FreeEntry(e, buffers, q, live', frontier) {
      if q == p && e == (buffers[b].bytes, b) {
      } else {
        assert q in pools && e in pools[q];
      }
    }
    forall c | 0 <= c < |buffers| ensures Tracked(buffers, pools', live', c) {
      assert Tracked(buffers, pools, live, c);
    }
  }

  /** Buffers whose last use lies before the frontier return to their own pools. */
  method Release(buffers: seq<Buffer>, pools: Pools, live: seq<Pair>, frontier: nat)
    returns (pools': Pools, live': seq<Pair>)
    requires Books(buffers, pools, live, frontier)
    ensures Books(buffers, pools', live', frontier)
    ensures forall e :: e in live' ==> e.0 >= frontier
  {
    pools', live' := pools, live;
    while live' != [] && live'[0].0 < frontier
      invariant Books(buffers, pools', live', frontier)
      decreases |live'|
    {
      ReleaseOne(buffers, pools', live', frontier);
      var b := live'[0].1;
      var p := BufferPool(buffers[b]);
      var free := if p in pools' then pools'[p] else [];
      pools', live' := pools'[p := Insert(free, (buffers[b].bytes, b))], Erase(live', 0);
    }
    forall e | e in live' ensures e.0 >= frontier {
      var k :| 0 <= k < |live'| && live'[k] == e;
      assert k > 0 ==> Less(live'[0], live'[k]);
    }
  }

  lemma ReuseBooks(buffers: seq<Buffer>, pools: Pools, live: seq<Pair>, frontier: nat, p: Pool, at: nat, last: nat,
                   v: ValueId)
    requires Books(buffers, pools, live, frontier) && p in pools && at < |pools[p]|
    ensures pools[p][at].1 < |buffers|
    ensures var b := pools[p][at].1;
            && BufferPool(buffers[b]) == p && buffers[b].lastUse < frontier && buffers[b].bytes == pools[p][at].0
            && Books(buffers[b := buffers[b].(lastUse := last, values := buffers[b].values + [v])],
                     pools[p := Erase(pools[p], at)], Insert(live, (last, b)), frontier)
  {
    var e := pools[p][at];
    assert e in pools[p] && FreeEntry(e, buffers, p, live, frontier);
    var b := e.1;
    var buffers' := buffers[b := buffers[b].(lastUse := last, values := buffers[b].values + [v])];
    var pools' := pools[p := Erase(pools[p], at)];
    assert (last, b) !in live;
    var live' := Insert(live, (last, b));
    forall q, x | q in pools' && x in pools'[q] ensures FreeEntry(x, buffers', q, live', frontier) {
      assert x in pools[q] && FreeEntry(x, buffers, q, live, frontier);
      assert x.1 != b;
    }
    forall c | 0 <= c < |buffers'| ensures Tracked(buffers', pools', live', c) {
      assert Tracked(buffers, pools, live, c);
    }
    forall x | x in live' ensures LiveEntry(x, buffers') {
      if x != (last, b) {
        assert LiveEntry(x, buffers);
      }
    }
  }

  lemma FreshBooks(buffers: seq<Buffer>, pools: Pools, live: seq<Pair>, frontier: nat, nb: Buffer)
    requires Books(buffers, pools, live, frontier)
    ensures Books(buffers + [nb], pools, Insert(live, (nb.lastUse, |buffers|)), frontier)
  {
    var buffers' := buffers + [nb];
    assert (nb.lastUse, |buffers|) !in live;
    var live' := Insert(live, (nb.lastUse, |buffers|));
    forall q, x | q in pools && x in pools[q] ensures FreeEntry(x, buffers', q, live', frontier) {
      assert FreeEntry(x, buffers, q, live, frontier);
    }
    forall c | 0 <= c < |buffers'| ensures Tracked(buffers', pools, live', c) {
      if c < |buffers| {
        assert Tracked(buffers, pools, live, c);
      }
    }
    forall x | x in live' ensures LiveEntry(x, buffers') {
      if x != (nb.lastUse, |buffers|) {
        assert LiveEntry(x, buffers);
      }
    }
  }

  lemma PlaceKeeps(ranges: seq<LiveRange>, buffers: seq<Buffer>, buffers': seq<Buffer>, done: seq<nat>, i: nat, b: nat)
    requires AllPlaced(ranges, buffers, done) && NoOverlap(ranges, done)
    requires i !in done && i < |ranges| && ranges[i].eligible && ranges[i].firstNode <= ranges[i].lastNode
    requires Extends(buffers, buffers', b, ranges[i])
    ensures AllPlaced(ranges[i := ranges[i].(bufferId := Some(b))], buffers', done + [i])
    ensures NoOverlap(ranges[i := ranges[i].(bufferId := Some(b))], done + [i])
  {
    var ranges' := ranges[i := ranges[i].(bufferId := Some(b))];
    forall j | j in done + [i] ensures j < |ranges'| && Placed(ranges'[j], buffers') {
      if j != i {
        assert j in done && Placed(ranges[j], buffers);
      }
    }
    forall j | j in done && ranges'[j].bufferId == Some(b) ensures ranges[j].lastNode < ranges[i].firstNode {
      assert Placed(ranges[j], buffers);
    }
  }

  lemma {:induction false} ImageSize(s: set<nat>, f: seq<nat>, image: set<nat>)
    requires forall b :: b in s ==> b < |f| && f[b] in image
    requires forall b, c :: b in s && c in s && b != c ==> f[b] != f[c]
    ensures |s| <= |image|
    decreases |s|
  {
    if s != {} {
      var b :| b in s;
      ImageSize(s - {b}, f, image - {f[b]});
    }
  }

  /** The last range in a pool buffer that is reserved beyond t, when it started by t, is live at t. */
  lemma OwnerIsLive(base: seq<LiveRange>, ranges: seq<LiveRange>, buffers: seq<Buffer>, done: seq<nat>,
                    owner: seq<nat>, creator: seq<nat>, b: nat, t: nat)
    requires SameButBuffers(ranges, base) && AllPlaced(ranges, buffers, done)
    requires Owned(ranges, buffers, done, owner, creator)
    requires b < |buffers| && buffers[b].lastUse >= t && owner[b] < |base| && base[owner[b]].firstNode <= t
    ensures owner[b] in LiveSet(base, BufferPool(buffers[b]), t)
  {
    assert owner[b] in done;
    assert Placed(ranges[owner[b]], buffers);
    assert ranges[owner[b]] == base[owner[b]].(bufferId := Some(b));
  }

  lemma CountNeeded(base: seq<LiveRange>, buffers: seq<Buffer>, buffers': seq<Buffer>, owner: seq<nat>, i: nat, t: nat,
                    pool: Pool)
    requires |owner| == |buffers|
    requires forall b :: b in PoolBuffers(buffers, pool) ==> owner[b] in LiveSet(base, pool, t) - {i}
    requires forall b, c :: b in PoolBuffers(buffers, pool) && c in PoolBuffers(buffers, pool) && b != c ==>
               owner[b] != owner[c]
    requires i in LiveSet(base, pool, t)
    requires |buffers'| == |buffers| + 1 && forall c :: 0 <= c < |buffers| ==> buffers'[c] == buffers[c]
    ensures Needed(base, buffers', pool)
  {
    var s := PoolBuffers(buffers, pool);
    ImageSize(s, owner, LiveSet(base, pool, t) - {i});
    assert PoolBuffers(buffers', pool) <= s + {|buffers|};
    SubsetSize(PoolBuffers(buffers', pool), s + {|buffers|});
    assert |LiveSet(base, pool, t)| >= |PoolBuffers(buffers', pool)|;
  }

  /** A new buffer in a uniform pool is needed: all its buffers hold ranges live where the new range starts. */
  lemma FreshIsNeeded(base: seq<LiveRange>, ranges: seq<LiveRange>, buffers: seq<Buffer>, done: seq<nat>,
                      owner: seq<nat>, creator: seq<nat>, i: nat, buffers': seq<Buffer>)
    requires SameButBuffers(ranges, base) && AllPlaced(ranges, buffers, done)
    requires Owned(ranges, buffers, done, owner, creator)
    requires i < |base| && base[i].eligible && i !in done && base[i].firstNode <= base[i].lastNode
    requires forall j :: j in done ==> j < |base| && base[j].firstNode <= base[i].firstNode
    requires Extends(buffers, buffers', |buffers|, base[i])
    requires forall b :: 0 <= b < |buffers| && BufferPool(buffers[b]) == RangePool(base[i]) ==>
               buffers[b].lastUse >= base[i].firstNode
    ensures Needed(base, buffers', RangePool(base[i]))
  {
    var pool, t := RangePool(base[i]), base[i].firstNode;
    forall b | b in PoolBuffers(buffers, pool) ensures owner[b] in LiveSet(base, pool, t) - {i} {
      OwnerIsLive(base, ranges, buffers, done, owner, creator, b, t);
    }
    CountNeeded(base, buffers, buffers', owner, i, t, pool);
  }

  lemma OtherPoolsNeeded(base: seq<LiveRange>, buffers: seq<Buffer>, buffers': seq<Buffer>, b: nat, r: LiveRange,
                         pool: Pool)
    requires Extends(buffers, buffers', b, r) && (b < |buffers| || pool != RangePool(r))
    requires Needed(base, buffers, pool)
    ensures Needed(base, buffers', pool)
  {
    assert PoolBuffers(buffers', pool) == PoolBuffers(buffers, pool);
  }

  lemma RecordValue(ranges: seq<LiveRange>, buffers: seq<Buffer>, buffers': seq<Buffer>, i: nat, b: nat)
    requires ValuesRecorded(ranges, buffers) && i < |ranges| && ranges[i].bufferId == None
    requires Extends(buffers, buffers', b, ranges[i]) && buffers'[b].id == b
    requires b < |buffers| ==> buffers'[b].values == buffers[b].values + [ranges[i].value]
    requires b == |buffers| ==> buffers'[b].values == [ranges[i].value]
    ensures ValuesRecorded(ranges[i := ranges[i].(bufferId := Some(b))], buffers')
  {
    var ranges' := ranges[i := ranges[i].(bufferId := Some(b))];
    forall c, v | 0 <= c < |buffers'| && v in buffers'[c].values ensures HeldBy(ranges', c, v) {
      if c == b && v == ranges[i].value {
        assert ranges'[i].value == v && ranges'[i].bufferId == Some(b);
      } else {
        assert v in buffers[c].values && HeldBy(ranges, c, v);
        var j :| 0 <= j < |ranges| && ranges[j].value == v && ranges[j].bufferId == Some(c);
        assert ranges'[j].value == v && ranges'[j].bufferId == Some(c);
      }
    }
  }

  lemma ReplaceOwner(ranges: seq<LiveRange>, buffers: seq<Buffer>, buffers': seq<Buffer>, done: seq<nat>,
                     owner: seq<nat>, creator: seq<nat>, i: nat, b: nat)
    requires Owned(ranges, buffers, done, owner, creator) && i < |ranges| && i !in done && ranges[i].eligible
    requires Extends(buffers, buffers', b, ranges[i])
    requires b == |buffers| ==> buffers'[b].bytes == ranges[i].alignedBytes
    ensures Owned(ranges[i := ranges[i].(bufferId := Some(b))], buffers', done + [i],
                  if b < |buffers| then owner[b := i] else owner + [i],
                  if b < |buffers| then creator else creator + [i])
  {
    var ranges', done' := ranges[i := ranges[i].(bufferId := Some(b))], done + [i];
    var owner' := if b < |buffers| then owner[b := i] else owner + [i];
    var creator' := if b < |buffers| then creator else creator + [i];
    forall c | 0 <= c < |buffers'| ensures Owner(ranges', buffers', done', c, owner'[c]) {
      if c != b {
        assert Owner(ranges, buffers, done, c, owner[c]);
      }
    }
    forall c | 0 <= c < |buffers'| ensures Creator(ranges', buffers', done', c, creator'[c]) {
      if c < |buffers| {
        assert Creator(ranges, buffers, done, c, creator[c]);
      }
    }
  }

  lemma ReuseKeepsTight(base: seq<LiveRange>, buffers: seq<Buffer>, buffers': seq<Buffer>, b: nat, r: LiveRange)
    requires Tight(base, buffers) && Extends(buffers, buffers', b, r) && b < |buffers|
    ensures Tight(base, buffers')
  {
    forall pool | Uniform(base, pool) ensures Needed(base, buffers', pool) {
      OtherPoolsNeeded(base, buffers, buffers', b, r, pool);
    }
  }

  /** When best fit finds nothing, every buffer of the range's pool is still live, provided the pool is uniform. */
  lemma NothingFreeMeansLive(base: seq<LiveRange>, ranges: seq<LiveRange>, buffers: seq<Buffer>, pools: Pools,
                             live: seq<Pair>, done: seq<nat>, owner: seq<nat>, creator: seq<nat>, i: nat)
    requires SameButBuffers(ranges, base) && Owned(ranges, buffers, done, owner, creator)
    requires i < |base| && base[i].eligible && Uniform(base, RangePool(base[i]))
    requires Books(buffers, pools, live, base[i].firstNode) && forall e :: e in live ==> e.0 >= base[i].firstNode
    requires RangePool(base[i]) in pools ==>
               LowerBound(pools[RangePool(base[i])], (base[i].alignedBytes, 0)) == |pools[RangePool(base[i])]|
    ensures forall b :: 0 <= b < |buffers| && BufferPool(buffers[b]) == RangePool(base[i]) ==>
              buffers[b].lastUse >= base[i].firstNode
  {
    var p := RangePool(base[i]);
    forall b | 0 <= b < |buffers| && BufferPool(buffers[b]) == p ensures buffers[b].lastUse >= base[i].firstNode {
      assert Tracked(buffers, pools, live, b);
      assert ranges[creator[b]] == base[creator[b]].(bufferId := ranges[creator[b]].bufferId);
      assert buffers[b].bytes == base[i].alignedBytes;
      assert p in pools ==> forall e :: e in pools[p] ==> Less(e, (base[i].alignedBytes, 0));
      assert (buffers[b].lastUse, b) in live;
    }
  }

  lemma FreshKeepsTight(base: seq<LiveRange>, ranges: seq<LiveRange>, buffers: seq<Buffer>, buffers': seq<Buffer>,
                        pools: Pools, live: seq<Pair>, done: seq<nat>, owner: seq<nat>, creator: seq<nat>, i: nat)
    requires Placement(base, ranges, buffers, done) && Economy(base, ranges, buffers, done, owner, creator)
    requires i < |base| && base[i].eligible && i !in done && base[i].firstNode <= base[i].lastNode
    requires forall j :: j in done ==> j < |base| && base[j].firstNode <= base[i].firstNode
    requires Books(buffers, pools, live, base[i].firstNode) && forall e :: e in live ==> e.0 >= base[i].firstNode
    requires RangePool(base[i]) in pools ==>
               LowerBound(pools[RangePool(base[i])], (base[i].alignedBytes, 0)) == |pools[RangePool(base[i])]|
    requires Extends(buffers, buffers', |buffers|, base[i])
    ensures Tight(base, buffers')
  {
    forall pool | Uniform(base, pool) ensures Needed(base, buffers', pool) {
      if pool == RangePool(base[i]) {
        NothingFreeMeansLive(base, ranges, buffers, pools, live, done, owner, creator, i);
        FreshIsNeeded(base, ranges, buffers, done, owner, creator, i, buffers');
      } else {
        OtherPoolsNeeded(base, buffers, buffers', |buffers|, base[i], pool);
      }
    }
  }

  lemma {:induction false} SumOverAppend(ranges: seq<LiveRange>, s: seq<nat>, x: nat)
    requires AllBelow(s, |ranges|) && x < |ranges|
    ensures AllBelow(s + [x], |ranges|) && SumOver(ranges, s + [x]) == SumOver(ranges, s) + ranges[x].alignedBytes
  {
    if s == [] {
      assert [x][1..] == [];
    } else {
      assert (s + [x])[1..] == s[1..] + [x];
      SumOverAppend(ranges, s[1..], x);
    }
  }

  lemma {:induction false} SameTotal(buffers: seq<Buffer>, buffers': seq<Buffer>)
    requires |buffers| == |buffers'| && forall b :: 0 <= b < |buffers| ==> buffers[b].bytes == buffers'[b].bytes
    ensures TotalBytes(buffers) == TotalBytes(buffers')
  {
    if buffers != [] {
      SameTotal(buffers[..|buffers| - 1], buffers'[..|buffers| - 1]);
    }
  }

  function Reused(b: Buffer, r: LiveRange): Buffer {
    b.(lastUse := r.lastNode, values := b.values + [r.value])
  }

  /** Placing a range in an old buffer (b < |buffers|) or in a new one (b == |buffers|). */
  lemma PlacementStep(base: seq<LiveRange>, ranges: seq<LiveRange>, buffers: seq<Buffer>, buffers': seq<Buffer>,
                      done: seq<nat>, i: nat, b: nat)
    requires Placement(base, ranges, buffers, done) && Startable(base, done, i)
    requires Extends(buffers, buffers', b, base[i]) && buffers'[b].id == b
    requires b < |buffers| ==> buffers'[b].values == buffers[b].values + [base[i].value]
    requires b == |buffers| ==> buffers'[b].values == [base[i].value]
    ensures i < |ranges| && Placement(base, ranges[i := base[i].(bufferId := Some(b))], buffers', done + [i])
  {
    assert ranges[i] == base[i];
    PlaceKeeps(ranges, buffers, buffers', done, i, b);
    RecordValue(ranges, buffers, buffers', i, b);
  }

  lemma ReuseEconomy(base: seq<LiveRange>, ranges: seq<LiveRange>, buffers: seq<Buffer>, buffers': seq<Buffer>,
                     done: seq<nat>, owner: seq<nat>, creator: seq<nat>, i: nat, b: nat)
    requires |ranges| == |base| && i < |base| && ranges[i] == base[i] && base[i].eligible && i !in done
    requires Economy(base, ranges, buffers, done, owner, creator)
    requires Extends(buffers, buffers', b, base[i]) && b < |buffers|
    ensures b < |owner| && Economy(base, ranges[i := base[i].(bufferId := Some(b))], buffers', done + [i],
                                   owner[b := i], creator)
  {
    ReplaceOwner(ranges, buffers, buffers', done, owner, creator, i, b);
    ReuseKeepsTight(base, buffers, buffers', b, base[i]);
  }

  lemma FreshEconomy(base: seq<LiveRange>, ranges: seq<LiveRange>, buffers: seq<Buffer>, buffers': seq<Buffer>,
                     done: seq<nat>, owner: seq<nat>, creator: seq<nat>, i: nat)
    requires |ranges| == |base| && i < |base| && ranges[i] == base[i] && base[i].eligible && i !in done
    requires Economy(base, ranges, buffers, done, owner, creator) && Tight(base, buffers')
    requires Extends(buffers, buffers', |buffers|, base[i]) && buffers'[|buffers|].bytes == base[i].alignedBytes
    ensures Economy(base, ranges[i := base[i].(bufferId := Some(|buffers|))], buffers', done + [i], owner + [i],
                    creator + [i])
  {
    ReplaceOwner(ranges, buffers, buffers', done, owner, creator, i, |buffers|);
  }

  lemma ReusePass(base: seq<LiveRange>, ranges: seq<LiveRange>, buffers: seq<Buffer>, done: seq<nat>,
                  owner: seq<nat>, creator: seq<nat>, i: nat, b: nat)
    requires Placement(base, ranges, buffers, done) && Economy(base, ranges, buffers, done, owner, creator)
    requires Startable(base, done, i)
    requires b < |buffers| && BufferPool(buffers[b]) == RangePool(base[i]) && buffers[b].lastUse < base[i].firstNode
    requires buffers[b].bytes >= base[i].alignedBytes
    ensures b < |owner| && i < |ranges|
    ensures Placement(base, ranges[i := base[i].(bufferId := Some(b))], buffers[b := Reused(buffers[b], base[i])],
                      done + [i])
    ensures Economy(base, ranges[i := base[i].(bufferId := Some(b))], buffers[b := Reused(buffers[b], base[i])],
                    done + [i],
                    owner[b := i], creator)
    ensures TotalBytes(buffers[b := Reused(buffers[b], base[i])]) == TotalBytes(buffers)
  {
    assert ranges[i] == base[i];
    var buffers' := buffers[b := Reused(buffers[b], base[i])];
    assert Extends(buffers, buffers', b, base[i]);
    PlacementStep(base, ranges, buffers, buffers', done, i, b);
    ReuseEconomy(base, ranges, buffers, buffers', done, owner, creator, i, b);
    SameTotal(buffers, buffers');
  }

  lemma FreshPass(base: seq<LiveRange>, ranges: seq<LiveRange>, buffers: seq<Buffer>, pools: Pools, live: seq<Pair>,
                  done: seq<nat>, owner: seq<nat>, creator: seq<nat>, i: nat)
    requires Placement(base, ranges, buffers, done) && Economy(base, ranges, buffers, done, owner, creator)
    requires Startable(base, done, i)
    requires Books(buffers, pools, live, base[i].firstNode) && forall e :: e in live ==> e.0 >= base[i].firstNode
    requires RangePool(base[i]) in pools ==>
               LowerBound(pools[RangePool(base[i])], (base[i].alignedBytes, 0)) == |pools[RangePool(base[i])]|
    ensures i < |ranges|
    ensures Placement(base, ranges[i := base[i].(bufferId := Some(|buffers|))],
                      buffers + [NewBuffer(base[i], |buffers|)], done + [i])
    ensures Economy(base, ranges[i := base[i].(bufferId := Some(|buffers|))], buffers + [NewBuffer(base[i], |buffers|)],
                    done + [i], owner + [i], creator + [i])
    ensures TotalBytes(buffers + [NewBuffer(base[i], |buffers|)]) == TotalBytes(buffers) + base[i].alignedBytes
  {
    assert ranges[i] == base[i];
    var buffers' := buffers + [NewBuffer(base[i], |buffers|)];
    assert Extends(buffers, buffers', |buffers|, base[i]);
    FreshKeepsTight(base, ranges, buffers, buffers', pools, live, done, owner, creator, i);
    PlacementStep(base, ranges, buffers, buffers', done, i, |buffers|);
    FreshEconomy(base, ranges, buffers, buffers', done, owner, creator, i);
    assert buffers'[..|buffers|] == buffers;
  }

  /** One iteration: release expired buffers, then take the smallest sufficient free one or open a new one. */
  method PlaceOne(base: seq<LiveRange>, ranges: seq<LiveRange>, buffers: seq<Buffer>, pools: Pools, live: seq<Pair>,
                  i: nat, ghost done: seq<nat>, ghost owner: seq<nat>, ghost creator: seq<nat>)
    returns (ranges': seq<LiveRange>, buffers': seq<Buffer>, pools': Pools, live': seq<Pair>,
             ghost owner': seq<nat>, ghost creator': seq<nat>)
    requires Placement(base, ranges, buffers, done) && Economy(base, ranges, buffers, done, owner, creator)
    requires Startable(base, done, i) && Books(buffers, pools, live, base[i].firstNode)
    ensures Placement(base, ranges', buffers', done + [i])
    ensures Economy(base, ranges', buffers', done + [i], owner', creator')
    ensures Books(buffers', pools', live', base[i].firstNode)
    ensures TotalBytes(buffers') <= TotalBytes(buffers) + base[i].alignedBytes
    ensures PlacedBest(base, ranges, ranges', buffers, buffers', i)
  {
    var range := ranges[i];
    assert range == base[i];
    pools', live' := Release(buffers, pools, live, range.firstNode);
    var p := RangePool(range);
    var free := if p in pools' then pools'[p] else [];
    var at := LowerBound(free, (range.alignedBytes, 0));
    if at < |free| {
      ReuseBooks(buffers, pools', live', range.firstNode, p, at, range.lastNode, range.value);
      var b := free[at].1;
      ReusePass(base, ranges, buffers, done, owner, creator, i, b);
      FoundIsChosen(buffers, pools', live', range, at);
      pools', live' := pools'[p := Erase(free, at)], Insert(live', (range.lastNode, b));
      buffers' := buffers[b := Reused(buffers[b], range)];
      ranges' := ranges[i := range.(bufferId := Some(b))];
      owner', creator' := owner[b := i], creator;
    } else {
      var nb := NewBuffer(range, |buffers|);
      FreshBooks(buffers, pools', live', range.firstNode, nb);
      FreshPass(base, ranges, buffers, pools', live', done, owner, creator, i);
      NothingIsChosen(buffers, pools', live', range);
      live' := Insert(live', (range.lastNode, nb.id));
      buffers' := buffers + [nb];
      ranges' := ranges[i := range.(bufferId := Some(nb.id))];
      owner', creator' := owner + [i], creator + [i];
    }
  }

  lemma NextBestFit(base: seq<LiveRange>, ranges: seq<LiveRange>, ranges': seq<LiveRange>, buffers: seq<Buffer>,
                    buffers': seq<Buffer>, done: seq<nat>, owner: seq<nat>, creator: seq<nat>, i: nat)
    requires Placement(base, ranges, buffers, done) && Economy(base, ranges, buffers, done, owner, creator)
    requires Startable(base, done, i) && AllBelow(done, |base|) && BestFit(ranges, buffers, done)
    requires PlacedBest(base, ranges, ranges', buffers, buffers', i)
    ensures AllBelow(done + [i], |ranges'|) && BestFit(ranges', buffers', done + [i])
  {
    assert ranges[i] == base[i];
    BestFitNext(ranges, ranges', buffers, buffers', done, owner, creator, i, ranges'[i].bufferId.value);
  }

  lemma InvariantGivesAssignment(base: seq<LiveRange>, order: seq<nat>, ranges: seq<LiveRange>, buffers: seq<Buffer>,
                                 owner: seq<nat>, creator: seq<nat>)
    requires Placement(base, ranges, buffers, order) && Economy(base, ranges, buffers, order, owner, creator)
    ensures Assignment(base, order, ranges, buffers)
  {
    forall b | 0 <= b < |buffers| ensures Created(base, buffers[b]) {
      assert Creator(ranges, buffers, order, b, creator[b]);
      assert ranges[creator[b]] == base[creator[b]].(bufferId := ranges[creator[b]].bufferId);
    }
  }

  lemma NextStartable(base: seq<LiveRange>, order: seq<nat>, k: nat)
    requires Indices(base, order) && AllBelow(order, |base|) && SortedRanges(base, order) && k < |order|
    requires forall i :: 0 <= i < |base| ==> base[i].firstNode <= base[i].lastNode && base[i].bufferId == None
    ensures Startable(base, order[..k], order[k])
  {
    forall j | j in order[..k] ensures j < |base| && base[j].firstNode <= base[order[k]].firstNode {
      var m :| 0 <= m < k && order[m] == j;
      assert !SortsBefore(base[order[k]], base[order[m]]);
    }
  }

  lemma NextRound(base: seq<LiveRange>, order: seq<nat>, k: nat)
    requires PassInput(base, order) && k < |order|
    ensures AllBelow(order[..k], |base|) && AllBelow(order[..k + 1], |base|)
    ensures order[..k + 1] == order[..k] + [order[k]] && order[k] < |base|
    ensures Startable(base, order[..k], order[k])
    ensures SumOver(base, order[..k + 1]) == SumOver(base, order[..k]) + base[order[k]].alignedBytes
    ensures k + 1 < |order| ==> order[k + 1] < |base| && base[order[k]].firstNode <= base[order[k + 1]].firstNode
  {
    assert order[..k + 1] == order[..k] + [order[k]];
    SumOverAppend(base, order[..k], order[k]);
    NextStartable(base, order, k);
    assert k + 1 < |order| ==> !SortsBefore(base[order[k + 1]], base[order[k]]);
  }

  method AssignBuffers(base: seq<LiveRange>, order: seq<nat>) returns (ranges: seq<LiveRange>, buffers: seq<Buffer>)
    requires PassInput(base, order)
    ensures Assignment(base, order, ranges, buffers) && BestFit(ranges, buffers, order)
    ensures TotalBytes(buffers) <= SumOver(base, order)
  {
    ranges, buffers := base, [];
    var pools: Pools, live: seq<Pair> := map[], [];
    ghost var owner: seq<nat>, creator: seq<nat>, frontier: nat := [], [], 0;
    StartOfPass(base);
    for k := 0 to |order|
      invariant AllBelow(order[..k], |base|)
      invariant Placement(base, ranges, buffers, order[..k]) && BestFit(ranges, buffers, order[..k])
      invariant Economy(base, ranges, buffers, order[..k], owner, creator)
      invariant Books(buffers, pools, live, frontier)
      invariant k < |order| ==> frontier <= base[order[k]].firstNode
      invariant TotalBytes(buffers) <= SumOver(base, order[..k])
    {
      var i := order[k];
      NextRound(base, order, k);
      BooksLater(buffers, pools, live, frontier, base[i].firstNode);
      frontier := base[i].firstNode;
      ghost var ranges0, buffers0, owner0, creator0 := ranges, buffers, owner, creator;
      ranges, buffers, pools, live, owner, creator :=
        PlaceOne(base, ranges, buffers, pools, live, i, order[..k], owner, creator);
      NextBestFit(base, ranges0, ranges, buffers0, buffers, order[..k], owner0, creator0, i);
    }
    assert order[..|order|] == order;
    InvariantGivesAssignment(base, order, ranges, buffers, owner, creator);
  }

  lemma StartOfPass(base: seq<LiveRange>)
    requires forall i :: 0 <= i < |base| ==> base[i].bufferId == None
    ensures Placement(base, base, [], []) && Economy(base, base, [], [], [], []) && Books([], map[], [], 0)
  {
    forall pool ensures Needed(base, [], pool) {
      assert PoolBuffers([], pool) == {};
    }
  }
}
