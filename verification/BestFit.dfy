/** The planner's choice of buffers (src/runtime/memory_planner.cpp), described from the finished plan alone: in the
    order in which ranges are placed, each takes the smallest free buffer that is large enough, or opens a new one. */
module BestFitSpec {
  import opened Wrappers
  import opened Sequences
  import opened LiveRanges
  import opened BufferReuseSpec

  /** Buffer c was given to one of the first k ranges. */
  ghost predicate Opened(ranges: seq<LiveRange>, order: seq<nat>, k: nat, c: nat)
    requires AllBelow(order, |ranges|) && k <= |order|
  {
    exists j :: 0 <= j < k && ranges[order[j]].bufferId == Some(c)
  }

  /** The first k ranges that had buffer c have all ended before the range placed k-th starts. */
  ghost predicate Ended(ranges: seq<LiveRange>, order: seq<nat>, k: nat, c: nat)
    requires AllBelow(order, |ranges|) && k < |order|
  {
    forall j :: 0 <= j < k && ranges[order[j]].bufferId == Some(c) ==>
      ranges[order[j]].lastNode < ranges[order[k]].firstNode
  }

  /** Before range k is placed, buffer c of its pool is free and large enough for it. */
  ghost predicate FreeFor(ranges: seq<LiveRange>, buffers: seq<Buffer>, order: seq<nat>, k: nat, c: nat)
    requires AllBelow(order, |ranges|) && k < |order|
  {
    && c < |buffers| && BufferPool(buffers[c]) == RangePool(ranges[order[k]])
    && buffers[c].bytes >= ranges[order[k]].alignedBytes
    && Opened(ranges, order, k, c) && Ended(ranges, order, k, c)
  }

  /** Fewer bytes, or as many and the smaller number. */
  predicate NotAfter(buffers: seq<Buffer>, b: nat, c: nat)
    requires b < |buffers| && c < |buffers|
  {
    buffers[b].bytes < buffers[c].bytes || (buffers[b].bytes == buffers[c].bytes && b <= c)
  }

  /** Range k has the smallest of the free buffers that are large enough; if there is none, it has the next new one, of
      exactly its own size. */
  ghost predicate BestFitAt(ranges: seq<LiveRange>, buffers: seq<Buffer>, order: seq<nat>, k: nat)
    requires AllBelow(order, |ranges|) && k < |order|
  {
    var r := ranges[order[k]];
    && r.bufferId.Some? && r.bufferId.value < |buffers| && BufferPool(buffers[r.bufferId.value]) == RangePool(r)
    && var b := r.bufferId.value;
       if Opened(ranges, order, k, b) then
         FreeFor(ranges, buffers, order, k, b) &&
         forall c :: FreeFor(ranges, buffers, order, k, c) ==> NotAfter(buffers, b, c)
       else
         && buffers[b].bytes == r.alignedBytes
         && (forall c: nat :: c < b ==> Opened(ranges, order, k, c))
         && (forall c: nat :: !FreeFor(ranges, buffers, order, k, c))
  }

  ghost predicate BestFit(ranges: seq<LiveRange>, buffers: seq<Buffer>, order: seq<nat>)
    requires AllBelow(order, |ranges|)
  {
    forall k: nat :: k < |order| ==> BestFitAt(ranges, buffers, order, k)
  }

  /** A buffer that the greedy pass may take for r, in terms of its last use so far. */
  ghost predicate Available(buffers: seq<Buffer>, r: LiveRange, c: nat) {
    && c < |buffers| && BufferPool(buffers[c]) == RangePool(r)
    && buffers[c].bytes >= r.alignedBytes && buffers[c].lastUse < r.firstNode
  }

  /** The best available buffer, or the number of a new one. */
  ghost predicate Chosen(buffers: seq<Buffer>, r: LiveRange, b: nat) {
    if b < |buffers| then
      Available(buffers, r, b) && forall c :: Available(buffers, r, c) ==> NotAfter(buffers, b, c)
    else b == |buffers| && forall c: nat :: !Available(buffers, r, c)
  }

  /** Range i got the best available buffer, and nothing else changed but that buffer's books. */
  ghost predicate PlacedBest(base: seq<LiveRange>, ranges: seq<LiveRange>, ranges': seq<LiveRange>,
                             buffers: seq<Buffer>, buffers': seq<Buffer>, i: nat)
    requires i < |base|
  {
    && i < |ranges| == |ranges'| && ranges'[i].bufferId.Some?
    && var b := ranges'[i].bufferId.value;
       && ranges' == ranges[i := base[i].(bufferId := Some(b))]
       && Extends(buffers, buffers', b, base[i]) && Chosen(buffers, base[i], b)
       && (b == |buffers| ==> buffers'[b].bytes == base[i].alignedBytes)
  }

  /** Starts increase, then ends, then sizes decrease; ranges that agree in all three may stand in either order. */
  ghost predicate InPlanOrder(ranges: seq<LiveRange>, order: seq<nat>)
    requires AllBelow(order, |ranges|)
  {
    forall i, j :: 0 <= i < j < |order| ==>
      var a, b := ranges[order[i]], ranges[order[j]];
      || a.firstNode < b.firstNode
      || (a.firstNode == b.firstNode && a.lastNode < b.lastNode)
      || (a.firstNode == b.firstNode && a.lastNode == b.lastNode && a.alignedBytes >= b.alignedBytes)
  }

  /** All eligible ranges, once each, in the order in which they are placed. */
  ghost predicate PlacingOrder(ranges: seq<LiveRange>, order: seq<nat>) {
    && NoDuplicates(order) && AllBelow(order, |ranges|)
    && (forall i: nat :: i in order <==> i < |ranges| && ranges[i].eligible)
    && InPlanOrder(ranges, order)
  }

  /** The plan's buffers were chosen by best fit in some placing order. */
  ghost predicate BestFitPlan(ranges: seq<LiveRange>, buffers: seq<Buffer>) {
    exists order :: PlacingOrder(ranges, order) && BestFit(ranges, buffers, order)
  }
}

module BestFits {
  import opened Wrappers
  import opened Sequences
  import opened OrderedPairs
  import opened LiveRanges
  import opened BufferReuseSpec
  import opened BestFitSpec

  // ---------------------------------------------------------------- what the free lists find

  /** The entry that lower_bound finds is the best available buffer of the pool, and there is none without an entry. */
  lemma LowestFits(buffers: seq<Buffer>, pools: Pools, live: seq<Pair>, r: LiveRange, free: seq<Pair>, c: nat)
    requires Books(buffers, pools, live, r.firstNode) && forall e :: e in live ==> e.0 >= r.firstNode
    requires free == if RangePool(r) in pools then pools[RangePool(r)] else []
    requires Available(buffers, r, c)
    ensures var at := LowerBound(free, (r.alignedBytes, 0)); at < |free| && !Less((buffers[c].bytes, c), free[at])
  {
    assert Tracked(buffers, pools, live, c);
    assert (buffers[c].bytes, c) in free;
    BoundIsLeast(free, (r.alignedBytes, 0), (buffers[c].bytes, c));
  }

  lemma FoundIsChosen(buffers: seq<Buffer>, pools: Pools, live: seq<Pair>, r: LiveRange, at: nat)
    requires Books(buffers, pools, live, r.firstNode) && forall e :: e in live ==> e.0 >= r.firstNode
    requires RangePool(r) in pools && at < |pools[RangePool(r)]|
    requires at == LowerBound(pools[RangePool(r)], (r.alignedBytes, 0))
    ensures Chosen(buffers, r, pools[RangePool(r)][at].1) && pools[RangePool(r)][at].1 < |buffers|
  {
    var free := pools[RangePool(r)];
    assert free[at] in free && FreeEntry(free[at], buffers, RangePool(r), live, r.firstNode);
    forall c | Available(buffers, r, c) ensures NotAfter(buffers, free[at].1, c) {
      LowestFits(buffers, pools, live, r, free, c);
    }
  }

  lemma NothingIsChosen(buffers: seq<Buffer>, pools: Pools, live: seq<Pair>, r: LiveRange)
    requires Books(buffers, pools, live, r.firstNode) && forall e :: e in live ==> e.0 >= r.firstNode
    requires RangePool(r) in pools ==>
               LowerBound(pools[RangePool(r)], (r.alignedBytes, 0)) == |pools[RangePool(r)]|
    ensures Chosen(buffers, r, |buffers|)
  {
    forall c: nat ensures !Available(buffers, r, c) {
      if Available(buffers, r, c) {
        LowestFits(buffers, pools, live, r, if RangePool(r) in pools then pools[RangePool(r)] else [], c);
      }
    }
  }

  // ---------------------------------------------------------------- one more range

  /** Placing range i does not change what the ranges before it had to choose from. */
  lemma EarlierKept(ranges: seq<LiveRange>, ranges': seq<LiveRange>, done: seq<nat>, i: nat, b: nat, k: nat, c: nat)
    requires AllBelow(done, |ranges|) && i < |ranges| && i !in done && k <= |done|
    requires ranges' == ranges[i := ranges[i].(bufferId := Some(b))]
    ensures AllBelow(done + [i], |ranges'|)
    ensures Opened(ranges', done + [i], k, c) <==> Opened(ranges, done, k, c)
    ensures k < |done| ==> (Ended(ranges', done + [i], k, c) <==> Ended(ranges, done, k, c))
    ensures k == |done| ==> (Ended(ranges', done + [i], k, c) <==>
                               forall j :: 0 <= j < k && ranges[done[j]].bufferId == Some(c) ==>
                                 ranges[done[j]].lastNode < ranges[i].firstNode)
  {
    var done' := done + [i];
    forall j | 0 <= j < |done| ensures done'[j] == done[j] && ranges'[done'[j]] == ranges[done[j]] {
    }
  }

  lemma EarlierBestFit(ranges: seq<LiveRange>, ranges': seq<LiveRange>, buffers: seq<Buffer>, buffers': seq<Buffer>,
                       done: seq<nat>, i: nat, b: nat, k: nat)
    requires AllBelow(done, |ranges|) && i < |ranges| && i !in done && k < |done|
    requires ranges' == ranges[i := ranges[i].(bufferId := Some(b))]
    requires Extends(buffers, buffers', b, ranges[i]) && AllPlaced(ranges, buffers, done)
    requires BestFitAt(ranges, buffers, done, k)
    ensures AllBelow(done + [i], |ranges'|) && BestFitAt(ranges', buffers', done + [i], k)
  {
    var done' := done + [i];
    EarlierKept(ranges, ranges', done, i, b, k, 0);
    assert ranges'[done'[k]] == ranges[done[k]];
    forall c: nat
      ensures Opened(ranges', done', k, c) <==> Opened(ranges, done, k, c)
      ensures FreeFor(ranges', buffers', done', k, c) <==> FreeFor(ranges, buffers, done, k, c)
    {
      EarlierKept(ranges, ranges', done, i, b, k, c);
      OpenedIsOld(ranges, buffers, done, k, c);
    }
  }

  lemma OpenedIsOld(ranges: seq<LiveRange>, buffers: seq<Buffer>, done: seq<nat>, k: nat, c: nat)
    requires AllBelow(done, |ranges|) && AllPlaced(ranges, buffers, done) && k <= |done|
    ensures Opened(ranges, done, k, c) ==> c < |buffers|
  {
    if Opened(ranges, done, k, c) {
      var j :| 0 <= j < k && ranges[done[j]].bufferId == Some(c);
      assert done[j] in done && Placed(ranges[done[j]], buffers);
    }
  }

  /** A buffer has been opened, and its last use is the end of the last range in it. */
  lemma OwnerOpened(ranges: seq<LiveRange>, buffers: seq<Buffer>, done: seq<nat>, owner: seq<nat>, creator: seq<nat>,
                    c: nat, start: nat)
    requires AllBelow(done, |ranges|) && AllPlaced(ranges, buffers, done)
    requires Owned(ranges, buffers, done, owner, creator) && c < |buffers|
    ensures Opened(ranges, done, |done|, c)
    ensures buffers[c].lastUse < start <==>
              forall j :: 0 <= j < |done| && ranges[done[j]].bufferId == Some(c) ==> ranges[done[j]].lastNode < start
  {
    assert Owner(ranges, buffers, done, c, owner[c]);
    var j :| 0 <= j < |done| && done[j] == owner[c];
    forall m | 0 <= m < |done| && ranges[done[m]].bufferId == Some(c)
      ensures ranges[done[m]].lastNode <= buffers[c].lastUse
    {
      assert done[m] in done && Placed(ranges[done[m]], buffers);
    }
  }

  /** What is available by last uses is what is free for the new range. */
  lemma AvailableIsFree(ranges: seq<LiveRange>, ranges': seq<LiveRange>, buffers: seq<Buffer>, buffers': seq<Buffer>,
                        done: seq<nat>, owner: seq<nat>, creator: seq<nat>, i: nat, b: nat, c: nat)
    requires AllBelow(done, |ranges|) && i < |ranges| && i !in done
    requires ranges' == ranges[i := ranges[i].(bufferId := Some(b))]
    requires Extends(buffers, buffers', b, ranges[i]) && AllPlaced(ranges, buffers, done)
    requires Owned(ranges, buffers, done, owner, creator)
    ensures AllBelow(done + [i], |ranges'|)
    ensures Opened(ranges', done + [i], |done|, c) <==> c < |buffers|
    ensures FreeFor(ranges', buffers', done + [i], |done|, c) <==> Available(buffers, ranges[i], c)
  {
    EarlierKept(ranges, ranges', done, i, b, |done|, c);
    OpenedIsOld(ranges, buffers, done, |done|, c);
    if c < |buffers| {
      OwnerOpened(ranges, buffers, done, owner, creator, c, ranges[i].firstNode);
    }
  }

  lemma NewBestFit(ranges: seq<LiveRange>, ranges': seq<LiveRange>, buffers: seq<Buffer>, buffers': seq<Buffer>,
                   done: seq<nat>, owner: seq<nat>, creator: seq<nat>, i: nat, b: nat)
    requires AllBelow(done, |ranges|) && i < |ranges| && i !in done
    requires ranges' == ranges[i := ranges[i].(bufferId := Some(b))]
    requires Extends(buffers, buffers', b, ranges[i]) && AllPlaced(ranges, buffers, done)
    requires Owned(ranges, buffers, done, owner, creator) && Chosen(buffers, ranges[i], b)
    requires b == |buffers| ==> buffers'[b].bytes == ranges[i].alignedBytes
    ensures AllBelow(done + [i], |ranges'|) && BestFitAt(ranges', buffers', done + [i], |done|)
  {
    var done', k := done + [i], |done|;
    forall c: nat
      ensures Opened(ranges', done', k, c) <==> c < |buffers|
      ensures FreeFor(ranges', buffers', done', k, c) <==> Available(buffers, ranges[i], c)
    {
      AvailableIsFree(ranges, ranges', buffers, buffers', done, owner, creator, i, b, c);
    }
  }

  /** One more range, placed in the best available buffer. */
  lemma BestFitNext(ranges: seq<LiveRange>, ranges': seq<LiveRange>, buffers: seq<Buffer>, buffers': seq<Buffer>,
                    done: seq<nat>, owner: seq<nat>, creator: seq<nat>, i: nat, b: nat)
    requires AllBelow(done, |ranges|) && i < |ranges| && i !in done
    requires ranges' == ranges[i := ranges[i].(bufferId := Some(b))]
    requires Extends(buffers, buffers', b, ranges[i]) && AllPlaced(ranges, buffers, done)
    requires Owned(ranges, buffers, done, owner, creator) && Chosen(buffers, ranges[i], b)
    requires b == |buffers| ==> buffers'[b].bytes == ranges[i].alignedBytes
    requires BestFit(ranges, buffers, done)
    ensures AllBelow(done + [i], |ranges'|) && BestFit(ranges', buffers', done + [i])
  {
    NewBestFit(ranges, ranges', buffers, buffers', done, owner, creator, i, b);
    forall k: nat | k < |done + [i]| ensures BestFitAt(ranges', buffers', done + [i], k) {
      if k < |done| {
        EarlierBestFit(ranges, ranges', buffers, buffers', done, i, b, k);
      }
    }
  }

  // ---------------------------------------------------------------- best fit determines the plan

  /** The first k choices agree, and the buffers opened by them are alike. */
  ghost predicate AlikeUpTo(r1: seq<LiveRange>, r2: seq<LiveRange>, b1: seq<Buffer>, b2: seq<Buffer>, order: seq<nat>,
                            k: nat)
    requires AllBelow(order, |r1|) && |r1| == |r2| && k <= |order|
  {
    && (forall j :: 0 <= j < k ==> r1[order[j]].bufferId == r2[order[j]].bufferId)
    && (forall c: nat :: Opened(r1, order, k, c) ==>
          && c < |b1| && c < |b2| && b1[c].bytes == b2[c].bytes && BufferPool(b1[c]) == BufferPool(b2[c]))
  }

  lemma AlikeFree(r1: seq<LiveRange>, r2: seq<LiveRange>, b1: seq<Buffer>, b2: seq<Buffer>, order: seq<nat>, k: nat,
                  c: nat)
    requires AllBelow(order, |r1|) && SameButBuffers(r2, r1) && k < |order| && AlikeUpTo(r1, r2, b1, b2, order, k)
    ensures Opened(r1, order, k, c) <==> Opened(r2, order, k, c)
    ensures FreeFor(r1, b1, order, k, c) <==> FreeFor(r2, b2, order, k, c)
  {
    forall j | 0 <= j <= k ensures r2[order[j]] == r1[order[j]].(bufferId := r2[order[j]].bufferId) {
    }
  }

  lemma SameChoice(r1: seq<LiveRange>, r2: seq<LiveRange>, b1: seq<Buffer>, b2: seq<Buffer>, order: seq<nat>, k: nat)
    requires AllBelow(order, |r1|) && SameButBuffers(r2, r1) && k < |order| && AlikeUpTo(r1, r2, b1, b2, order, k)
    requires BestFitAt(r1, b1, order, k) && BestFitAt(r2, b2, order, k)
    ensures r1[order[k]].bufferId == r2[order[k]].bufferId
    ensures var b := r1[order[k]].bufferId.value;
            b1[b].bytes == b2[b].bytes && BufferPool(b1[b]) == BufferPool(b2[b])
  {
    var x, y := r1[order[k]].bufferId.value, r2[order[k]].bufferId.value;
    assert r2[order[k]] == r1[order[k]].(bufferId := r2[order[k]].bufferId);
    AlikeFree(r1, r2, b1, b2, order, k, x);
    AlikeFree(r1, r2, b1, b2, order, k, y);
    if !Opened(r1, order, k, x) && !Opened(r2, order, k, y) && x != y {
      assert false;
    }
  }

  lemma {:induction false} ChoicesAlike(r1: seq<LiveRange>, r2: seq<LiveRange>, b1: seq<Buffer>, b2: seq<Buffer>,
                                        order: seq<nat>, k: nat)
    requires AllBelow(order, |r1|) && SameButBuffers(r2, r1) && k <= |order|
    requires BestFit(r1, b1, order) && BestFit(r2, b2, order)
    ensures AlikeUpTo(r1, r2, b1, b2, order, k)
  {
    if k > 0 {
      ChoicesAlike(r1, r2, b1, b2, order, k - 1);
      SameChoice(r1, r2, b1, b2, order, k - 1);
      forall c: nat | Opened(r1, order, k, c)
        ensures Opened(r1, order, k - 1, c) || r1[order[k - 1]].bufferId == Some(c)
      {
      }
    }
  }

  /** Best fit leaves no choice: two plans for the same ranges that place them in the same order give every range the
      same buffer, and these have the same sizes. */
  lemma BestFitIsUnique(r1: seq<LiveRange>, r2: seq<LiveRange>, b1: seq<Buffer>, b2: seq<Buffer>, order: seq<nat>)
    requires SameButBuffers(r2, r1) && PlacingOrder(r1, order)
    requires BestFit(r1, b1, order) && BestFit(r2, b2, order)
    ensures forall i: nat :: i < |r1| && r1[i].eligible ==>
              && r1[i].bufferId == r2[i].bufferId && r1[i].bufferId.Some?
              && r1[i].bufferId.value < |b1| && r1[i].bufferId.value < |b2|
              && b1[r1[i].bufferId.value].bytes == b2[r1[i].bufferId.value].bytes
  {
    ChoicesAlike(r1, r2, b1, b2, order, |order|);
    forall i: nat | i < |r1| && r1[i].eligible
      ensures r1[i].bufferId == r2[i].bufferId && r1[i].bufferId.Some?
      ensures r1[i].bufferId.value < |b1| && r1[i].bufferId.value < |b2|
      ensures b1[r1[i].bufferId.value].bytes == b2[r1[i].bufferId.value].bytes
    {
      assert i in order;
      var j :| 0 <= j < |order| && order[j] == i;
      assert BestFitAt(r1, b1, order, j);
      assert Opened(r1, order, |order|, r1[i].bufferId.value);
    }
  }

  // ---------------------------------------------------------------- the plan that is handed out

  /** The placing order of the unassigned ranges is that of the plan's. */
  lemma PlacingOrderKept(base: seq<LiveRange>, ranges: seq<LiveRange>, order: seq<nat>)
    requires SameButBuffers(ranges, base)
    requires Indices(base, order) && AllBelow(order, |base|) && SortedRanges(base, order)
    requires forall i: nat :: i < |base| && base[i].eligible ==> i in order
    ensures PlacingOrder(ranges, order)
  {
    forall i: nat | i < |base| ensures ranges[i] == base[i].(bufferId := ranges[i].bufferId) {
    }
    forall i, j | 0 <= i < j < |order| ensures !SortsBefore(base[order[j]], base[order[i]]) {
    }
    forall i: nat ensures i in order <==> i < |ranges| && ranges[i].eligible {
      if i in order {
        var j :| 0 <= j < |order| && order[j] == i;
        assert base[order[j]].eligible;
      }
    }
  }

  /** Only numbers, sizes and pools of the buffers matter. */
  lemma BestFitCarries(ranges: seq<LiveRange>, buffers: seq<Buffer>, laidOut: seq<Buffer>, order: seq<nat>)
    requires AllBelow(order, |ranges|) && BestFit(ranges, buffers, order) && |laidOut| == |buffers|
    requires forall b :: 0 <= b < |buffers| ==>
               laidOut[b].bytes == buffers[b].bytes && BufferPool(laidOut[b]) == BufferPool(buffers[b])
    ensures BestFit(ranges, laidOut, order)
  {
    forall k: nat | k < |order| ensures BestFitAt(ranges, laidOut, order, k) {
      assert BestFitAt(ranges, buffers, order, k);
      forall c: nat ensures FreeFor(ranges, laidOut, order, k, c) <==> FreeFor(ranges, buffers, order, k, c) {
      }
    }
  }
}
