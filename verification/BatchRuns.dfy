/** The scheduler's guarantees over whole runs. */
module BatchRuns {
  import opened Arithmetic
  import opened BatchProofs
  import opened BatchSpec
  import opened PagedCacheProofs
  import opened PagedCacheSpec
  import opened Sequences

  // ---------------------------------------------------------------- admission

  /** Ensuring and then reserving is reserving; afterwards there is room, and all other tables are as before. */
  lemma AdmissionSteps(c: Cache, i: nat, total: int)
    requires Good(c) && Initialized(c)
    ensures var e := Extended(c, i);
            && ReserveStatus(e, i, total) == ReserveStatus(c, i, total)
            && AfterReserve(e, i, total) == AfterReserve(c, i, total)
    ensures var a := AfterReserve(c, i, total);
            && Good(a) && TablesGrew(c, a) && Initialized(a)
            && (ReserveStatus(c, i, total).Success? ==> RoomFor(a, i, total))
            && (forall t: nat :: t != i ==> Entry(a, t) == Entry(c, t))
            && (ReserveStatus(c, i, total).Failure? ==>
                  |a.free| == |c.free| && forall t: nat :: Entry(a, t) == Entry(c, t))
  {
    var e := Extended(c, i);
    assert Entry(e, i) == Entry(c, i);
    assert Extended(e, i) == e;
    ReserveGood(c, i, total);
    GrewTables(c, AfterReserve(c, i, total), i);
    if ReserveStatus(c, i, total).Success? {
      ReserveRoom(c, i, total);
    }
  }

  /** The state in the middle of the admission loop. */
  ghost predicate Admitting(d: Sched, c: Cache, w: World, n: nat, maxBatch: int) {
    Sized(d) && Sized(w.d) && Good(w.c) && AfterAdmissions(d, c, w.d, w.c, n) && BatchBounded(w.d, maxBatch)
  }

  lemma AdmissionStops(d: Sched, c: Cache, w: World, n: nat, maxBatch: int)
    requires Admitting(d, c, w, n, maxBatch)
    requires w.d.waiting == [] || |w.d.active| >= maxBatch || !Initialized(w.c) || w.d.waiting[0] >= |w.d.states|
    ensures AdmissionDone(d, c, w, maxBatch)
  {
  }

  lemma AdmissionRefused(d: Sched, c: Cache, w: World, n: nat, maxBatch: int)
    requires Admitting(d, c, w, n, maxBatch) && w.d.waiting != [] && w.d.waiting[0] < |w.d.states| && Initialized(w.c)
    requires ReserveStatus(w.c, w.d.waiting[0], Wanted(w.d, w.d.waiting[0])).Failure?
    ensures AdmissionDone(d, c, World(w.d, AfterReserve(w.c, w.d.waiting[0], Wanted(w.d, w.d.waiting[0]))), maxBatch)
  {
    var i, total := w.d.waiting[0], Wanted(w.d, w.d.waiting[0]);
    var b := AfterReserve(w.c, i, total);
    AdmissionSteps(w.c, i, total);
    AdmissionsEnd(d, c, w.d, w.c, n, b);
    RefusedStops(w.d, maxBatch, w.c, b);
  }

  lemma AdmissionGoesOn(d: Sched, c: Cache, w: World, n: nat, maxBatch: int)
    requires Admitting(d, c, w, n, maxBatch) && w.d.waiting != [] && w.d.waiting[0] < |w.d.states| && Initialized(w.c)
    requires |w.d.active| < maxBatch && ReserveStatus(w.c, w.d.waiting[0], Wanted(w.d, w.d.waiting[0])).Success?
    ensures var b := AfterReserve(w.c, w.d.waiting[0], Wanted(w.d, w.d.waiting[0]));
            Admitting(d, c, World(AdmitOne(w.d), b), n + 1, maxBatch)
  {
    var i, total := w.d.waiting[0], Wanted(w.d, w.d.waiting[0]);
    AdmissionSteps(w.c, i, total);
    AdmissionsNext(d, c, w.d, w.c, n, AfterReserve(w.c, i, total));
    AdmittedMoves(w.d, 1);
  }

  /** From any point of the admission loop on, the promises hold and the loop stops for one of the three reasons. */
  lemma {:induction false} AdmitAllFrom(d: Sched, c: Cache, w: World, n: nat, maxBatch: int)
    requires Admitting(d, c, w, n, maxBatch)
    ensures AdmissionDone(d, c, AdmitAll(w, maxBatch), maxBatch)
    decreases |w.d.waiting|
  {
    if w.d.waiting == [] || |w.d.active| >= maxBatch || !Initialized(w.c) || w.d.waiting[0] >= |w.d.states| {
      AdmissionStops(d, c, w, n, maxBatch);
    } else if ReserveStatus(w.c, w.d.waiting[0], Wanted(w.d, w.d.waiting[0])).Success? {
      AdmissionGoesOn(d, c, w, n, maxBatch);
      AdmitAllFrom(d, c, World(AdmitOne(w.d), AfterReserve(w.c, w.d.waiting[0], Wanted(w.d, w.d.waiting[0]))), n + 1,
                   maxBatch);
    } else {
      AdmissionRefused(d, c, w, n, maxBatch);
    }
  }

  /** Admission takes the oldest requests in order, keeps every promise, and stops only for a reason. */
  lemma AdmitAllKeeps(w: World, maxBatch: int)
    requires Sized(w.d) && Good(w.c) && BatchBounded(w.d, maxBatch)
    ensures AdmissionDone(w.d, w.c, AdmitAll(w, maxBatch), maxBatch)
  {
    AdmissionsStart(w.d, w.c);
    AdmitAllFrom(w.d, w.c, w, 0, maxBatch);
  }

  lemma AdmittedHeadStays(w: World, maxBatch: int)
    requires Sized(w.d) && Good(w.c) && Initialized(w.c) && w.d.active == [] && w.d.waiting != [] && maxBatch > 0
    requires ReserveStatus(w.c, w.d.waiting[0], Wanted(w.d, w.d.waiting[0])).Success?
    ensures w.d.waiting[0] in AdmitAll(w, maxBatch).d.active
  {
    var i, total := w.d.waiting[0], Wanted(w.d, w.d.waiting[0]);
    var next := World(AdmitOne(w.d), AfterReserve(w.c, i, total));
    AdmissionSteps(w.c, i, total);
    AdmittedMoves(w.d, 1);
    assert next.d.active == [i];
    AdmitAllKeeps(next, maxBatch);
    var v := AdmitAll(next, maxBatch);
    assert v == AdmitAll(w, maxBatch);
    var n: nat :| AfterAdmissions(next.d, next.c, v.d, v.c, n);
    assert v.d.active == [i] + next.d.waiting[..n];
    assert v.d.active[0] == i;
  }

  // ---------------------------------------------------------------- eviction

  lemma {:induction false} FreedAllKeeps(d: Sched, ids: seq<nat>, c: Cache)
    requires Good(c)
    ensures Good(FreedAll(d.states, ids, c)) && FinishedFreed(d, ids, c, FreedAll(d.states, ids, c))
  {
    if ids != [] {
      var shorter, last := ids[..|ids| - 1], ids[|ids| - 1];
      FreedAllKeeps(d, shorter, c);
      var b := FreedAll(d.states, shorter, c);
      assert ids == shorter + [last];
      if IsFinished(d.states, last) {
        FreedEntries(d, shorter, last, c, b, GivenBack(b, last));
        if last < |b.sequences| {
          GivenBackGood(b, last, map[]);
        }
      } else {
        assert forall t :: t in ids <==> t in shorter || t == last;
      }
    }
  }

  // ---------------------------------------------------------------- writes

  lemma LayersGood(c: Cache, layers: seq<Layer>)
    requires Good(c) && SameSizes(c.layers, layers) && Initialized(c)
    ensures Good(c.(layers := layers))
  {
    OwnershipSame(c, c.(layers := layers));
  }

  lemma WrittenIsWrite(c: Cache, e: Event)
    requires Good(c) && e.Write? && SameSizes(c.layers, e.layers)
    ensures AfterWrite(c, Written(c, e), e.seqId, e.layer, e.start, e.count)
  {
    if e.start >= 0 && e.count > 0 && 0 <= e.layer < |c.layers| &&
       ReserveStatus(c, e.seqId, e.start + e.count).Success? {
      ReservedSequence(c, e.seqId, e.start + e.count);
    }
  }

  lemma WrittenGood(c: Cache, e: Event)
    requires Good(c) && e.Write? && SameSizes(c.layers, e.layers)
    ensures Good(Written(c, e))
  {
    if e.start >= 0 && e.count > 0 && 0 <= e.layer < |c.layers| {
      var total := e.start + e.count;
      ReserveGood(c, e.seqId, total);
      if ReserveStatus(c, e.seqId, total).Success? {
        var after := AfterReserve(c, e.seqId, total);
        ReservedSequence(c, e.seqId, total);
        assert LengthsFit(c) && Entry(c, e.seqId).length == Entry(after, e.seqId).length;
        LayersGood(after, e.layers);
        LengthGood(after.(layers := e.layers), map[], e.seqId, Max(Entry(c, e.seqId).length, total));
      }
    }
  }

  lemma WrittenKeeps(d: Sched, c: Cache, e: Event)
    requires Good(c) && e.Write? && SameSizes(c.layers, e.layers)
    ensures Good(Written(c, e)) && (Roomy(d, c) ==> Roomy(d, Written(c, e)))
  {
    WrittenGood(c, e);
    WrittenIsWrite(c, e);
    if Roomy(d, c) {
      WritesKeepRoom(d, c, Written(c, e), e.seqId, e.layer, e.start, e.count);
    }
  }

  // ---------------------------------------------------------------- runs

  lemma {:induction false} RunStep(w: World, events: seq<Event>, maxBatch: int)
    requires events != []
    ensures var shorter, k := events[..|events| - 1], |events| - 1;
            && (AllCareful(w, events, maxBatch) ==>
                  AllCareful(w, shorter, maxBatch) && Careful(Run(w, shorter, maxBatch), events[k]))
            && (AllDisciplined(w, events, maxBatch) ==>
                  AllDisciplined(w, shorter, maxBatch) && Disciplined(Run(w, shorter, maxBatch), events[k]))
  {
    var shorter := events[..|events| - 1];
    forall k | 0 <= k < |shorter| ensures shorter[..k] == events[..k] {
    }
  }

  lemma ApplyGuaranteed(w: World, e: Event, maxBatch: int)
    requires Guaranteed(w, maxBatch) && Careful(w, e)
    ensures Guaranteed(Apply(w, e, maxBatch), maxBatch)
  {
    match e
    case Submit(r) =>
      if SubmitStatus(w.d, r).Success? {
        SubmittedSized(w.d, r);
        SubmittedRoomy(w.d, w.c, r);
      }
    case Admit =>
      AdmitAllKeeps(w, maxBatch);
    case Progress(i, n) =>
      if i < |w.d.states| {
        MarksRoomy(w.d, w.c, i, n, 0);
      }
    case Token(i, t) =>
      if i < |w.d.states| {
        MarksRoomy(w.d, w.c, i, 0, t);
      }
    case Finish(i) =>
      if i < |w.d.states| {
        MarksRoomy(w.d, w.c, i, 0, 0);
      }
    case Evict =>
      FreedAllKeeps(w.d, w.d.active, w.c);
      EvictedSized(w.d);
      UnfinishedHas(w.d.states, w.d.active);
      EvictedRoomy(w.d, w.c, FreedAll(w.d.states, w.d.active, w.c));
    case Collect =>
      CollectedSlots(w.d, |w.d.states|);
      CollectedRoomy(w.d, w.c, |w.d.states|);
    case Write(_, _, _, _, _) =>
      WrittenKeeps(w.d, w.c, e);
  }

  /** The admission guarantee over every run: never more active sequences than the batch holds, and every active
      sequence owns the blocks of its whole prompt and output from its admission until it is evicted. */
  lemma {:induction false} RunGuaranteed(w: World, events: seq<Event>, maxBatch: int)
    requires Guaranteed(w, maxBatch) && AllCareful(w, events, maxBatch)
    ensures Guaranteed(Run(w, events, maxBatch), maxBatch)
  {
    if events != [] {
      RunStep(w, events, maxBatch);
      RunGuaranteed(w, events[..|events| - 1], maxBatch);
      ApplyGuaranteed(Run(w, events[..|events| - 1], maxBatch), events[|events| - 1], maxBatch);
    }
  }

  lemma ApplyOrderly(w: World, e: Event, maxBatch: int)
    requires Guaranteed(w, maxBatch) && Orderly(w.d) && Disciplined(w, e)
    ensures Orderly(Apply(w, e, maxBatch).d)
  {
    match e
    case Submit(r) =>
      if SubmitStatus(w.d, r).Success? {
        SubmittedOrderly(w.d, r);
      }
    case Admit =>
      AdmitAllKeeps(w, maxBatch);
    case Progress(i, n) =>
      if i < |w.d.states| {
        MarksOrderly(w.d, i, n, 0);
      }
    case Token(i, t) =>
      if i < |w.d.states| {
        MarksOrderly(w.d, i, 0, t);
      }
    case Finish(i) =>
      if i < |w.d.states| {
        MarksOrderly(w.d, i, 0, 0);
      }
    case Evict =>
      EvictedOrderly(w.d);
    case Collect =>
      CollectedOrderly(w.d, |w.d.states|);
    case Write(_, _, _, _, _) =>
  }

  lemma {:induction false} DisciplinedIsCareful(w: World, events: seq<Event>, maxBatch: int)
    requires AllDisciplined(w, events, maxBatch)
    ensures AllCareful(w, events, maxBatch)
  {
    forall k | 0 <= k < |events| ensures Careful(Run(w, events[..k], maxBatch), events[k]) {
      assert Disciplined(Run(w, events[..k], maxBatch), events[k]);
    }
  }

  /** Over every disciplined run: queues stay duplicate-free and disjoint, admission is first in first out, and each
      accepted request is in one slot or has been collected once. */
  lemma {:induction false} RunOrderly(w: World, events: seq<Event>, maxBatch: int)
    requires Guaranteed(w, maxBatch) && Orderly(w.d) && AllDisciplined(w, events, maxBatch)
    ensures Orderly(Run(w, events, maxBatch).d)
  {
    if events != [] {
      var shorter := events[..|events| - 1];
      RunStep(w, events, maxBatch);
      RunOrderly(w, shorter, maxBatch);
      DisciplinedIsCareful(w, shorter, maxBatch);
      RunGuaranteed(w, shorter, maxBatch);
      ApplyOrderly(Run(w, shorter, maxBatch), events[|events| - 1], maxBatch);
    }
  }

  /** What was collected stays collected: a ticket is never handed out twice in a disciplined run. */
  lemma CollectedOnce(w: World, events: seq<Event>, maxBatch: int)
    requires Guaranteed(w, maxBatch) && Orderly(w.d) && AllDisciplined(w, events, maxBatch)
    ensures NoDuplicates(Run(w, events, maxBatch).d.collected)
    ensures var d := Run(w, events, maxBatch).d;
            forall t: nat :: t < |d.accepted| ==> (t in d.collected <==> !exists i: nat :: HasTicket(d, i, t))
  {
    RunOrderly(w, events, maxBatch);
  }

  // ---------------------------------------------------------------- the scheduler alone with its cache

  lemma {:induction false} AdmittedLimits(d: Sched, n: nat)
    requires LimitsPositive(d)
    ensures LimitsPositive(Admitted(d, n))
  {
    if n > 0 {
      AdmittedLimits(d, n - 1);
    }
  }

  lemma AdmitExclusive(w: World, c0: Cache, maxBatch: int)
    requires Exclusive(w, c0, maxBatch)
    ensures Exclusive(AdmitAll(w, maxBatch), c0, maxBatch)
  {
    AdmitAllKeeps(w, maxBatch);
    var v := AdmitAll(w, maxBatch);
    var n: nat :| AfterAdmissions(w.d, w.c, v.d, v.c, n);
    AdmittedLimits(w.d, n);
  }

  lemma EvictExclusive(w: World, c0: Cache, maxBatch: int)
    requires Exclusive(w, c0, maxBatch)
    ensures Exclusive(World(Evicted(w.d), FreedAll(w.d.states, w.d.active, w.c)), c0, maxBatch)
  {
    FreedAllKeeps(w.d, w.d.active, w.c);
    EvictedSized(w.d);
    UnfinishedHas(w.d.states, w.d.active);
    EvictedOwn(w.d, w.c, FreedAll(w.d.states, w.d.active, w.c));
  }

  /** A write gives blocks to its own sequence only. */
  lemma WriteExclusive(w: World, c0: Cache, e: Event, maxBatch: int)
    requires Exclusive(w, c0, maxBatch) && e.Write? && WritesActive(w, e)
    ensures Exclusive(World(w.d, Written(w.c, e)), c0, maxBatch)
  {
    WrittenGood(w.c, e);
    ReserveGood(w.c, e.seqId, e.start + e.count);
    var c' := Written(w.c, e);
    forall t: nat | Entry(c', t).blocks != [] ensures t in w.d.active {
      assert t != e.seqId ==> Entry(c', t) == Entry(w.c, t);
    }
  }

  lemma CollectExclusive(w: World, c0: Cache, maxBatch: int)
    requires Exclusive(w, c0, maxBatch)
    ensures Exclusive(w.(d := Collected(w.d, |w.d.states|)), c0, maxBatch)
  {
    CollectedSlots(w.d, |w.d.states|);
  }

  lemma ApplyExclusive(w: World, c0: Cache, e: Event, maxBatch: int)
    requires Exclusive(w, c0, maxBatch) && WritesActive(w, e)
    ensures Exclusive(Apply(w, e, maxBatch), c0, maxBatch)
  {
    match e
    case Submit(r) =>
      if SubmitStatus(w.d, r).Success? {
        SubmittedSized(w.d, r);
      }
    case Admit =>
      AdmitExclusive(w, c0, maxBatch);
    case Progress(_, _) =>
    case Token(_, _) =>
    case Finish(_) =>
    case Evict =>
      EvictExclusive(w, c0, maxBatch);
    case Collect =>
      CollectExclusive(w, c0, maxBatch);
    case Write(_, _, _, _, _) =>
      WriteExclusive(w, c0, e, maxBatch);
  }

  /** Over every run that writes rows for active sequences only, no block stays with a sequence that is not active. */
  lemma {:induction false} RunExclusive(w: World, c0: Cache, events: seq<Event>, maxBatch: int)
    requires Exclusive(w, c0, maxBatch) && AllWriteActive(w, events, maxBatch)
    ensures Exclusive(Run(w, events, maxBatch), c0, maxBatch)
  {
    if events != [] {
      var shorter, k := events[..|events| - 1], |events| - 1;
      forall j | 0 <= j < k ensures shorter[..j] == events[..j] {
      }
      RunExclusive(w, c0, shorter, maxBatch);
      ApplyExclusive(Run(w, shorter, maxBatch), c0, events[k], maxBatch);
    }
  }

  /** In every run from the start in which rows are written for active sequences only: whenever nothing is active, the
      head request is admitted exactly when it fits the whole cache. */
  lemma HeadIsAdmitted(layers: nat, heads: nat, headDim: nat, blockSize: nat, maxBlocks: nat, events: seq<Event>,
                       maxBatch: int)
    requires heads > 0 && headDim > 0 && blockSize > 0 && maxBlocks > 0 && maxBatch > 0
    requires AllWriteActive(World(NO_REQUESTS, ClearedCache(layers, heads, headDim, blockSize, maxBlocks)), events,
                            maxBatch)
    ensures var w := Run(World(NO_REQUESTS, ClearedCache(layers, heads, headDim, blockSize, maxBlocks)), events,
                         maxBatch);
            w.d.active == [] && w.d.waiting != [] ==>
              var head := w.d.waiting[0];
              head < |w.d.states| &&
              (head in AdmitAll(w, maxBatch).d.active <==>
               |w.d.states[head].prompt| + w.d.states[head].maxTokens <= maxBlocks * blockSize)
  {
    var c0 := ClearedCache(layers, heads, headDim, blockSize, maxBlocks);
    var w := Run(World(NO_REQUESTS, c0), events, maxBatch);
    ClearedGood(layers, heads, headDim, blockSize, maxBlocks);
    RunExclusive(World(NO_REQUESTS, c0), c0, events, maxBatch);
    if w.d.active == [] && w.d.waiting != [] {
      var i, total := w.d.waiting[0], Wanted(w.d, w.d.waiting[0]);
      HeadFits(w.d, w.c, total);
      CeilCovers(total, blockSize, maxBlocks);
      if ReserveStatus(w.c, i, total).Success? {
        AdmittedHeadStays(w, maxBatch);
      }
    }
  }

  // ---------------------------------------------------------------- where discipline is needed

  function ReuseRun(): seq<Event> {
    [Submit(Request(0, [7], 1)), Admit, Token(0, 8), Collect, Submit(Request(0, [7], 5))]
  }

  /** The slot of the only request, in a scheduler that has accepted only that one. */
  function OnlySlot(s: SeqState, waiting: seq<nat>, active: seq<nat>, collected: seq<nat>): Sched {
    Sched([s], waiting, active, 1, [Request(0, [7], 1)], [0], collected)
  }

  /** The cache once the first request has its block. */
  function OneBlock(): Cache {
    ClearedCache(1, 1, 1, 2, 1).(free := [], used := [true], sequences := [SequenceEntry(0, [0])])
  }

  lemma OneReserve()
    ensures var c := ClearedCache(1, 1, 1, 2, 1);
            && Initialized(c) && c.layers == OneBlock().layers
            && ReserveStatus(c, 0, 2).Success? && AfterReserve(c, 0, 2) == OneBlock()
  {
    var c := ClearedCache(1, 1, 1, 2, 1);
    assert c.free == [0] && c.used == [false];
    var e := Extended(c, 0);
    assert e.sequences == [SequenceEntry(0, [])];
    assert Missing(c, 0, 2) == 1;
    assert Take(e, 0, 1) == TakeOne(Take(e, 0, 0), 0) == TakeOne(e, 0);
    assert e.free[..0] == [] && e.used[0 := true] == [true] && [] + [0] == [0];
    assert e.sequences[0 := SequenceEntry(0, [] + [0])] == [SequenceEntry(0, [0])];
  }

  /** With room for it, the only waiting request is admitted. */
  lemma OnlyAdmits(d: Sched, c: Cache)
    requires Initialized(c) && d.waiting == [0] && d.active == [] && 0 < |d.states|
    requires ReserveStatus(c, 0, Wanted(d, 0)).Success?
    ensures AdmitAll(World(d, c), 1) == World(AdmitOne(d), AfterReserve(c, 0, Wanted(d, 0)))
  {
    assert AdmitOne(d).waiting == [];
  }

  /** The run's states after 0 to 4 steps. */
  function ReuseState(k: nat): World
    requires k <= 4
  {
    if k == 0 then World(NO_REQUESTS, ClearedCache(1, 1, 1, 2, 1))
    else if k == 1 then World(OnlySlot(SeqState(0, Waiting, [7], [], 1, 0), [0], [], []), ClearedCache(1, 1, 1, 2, 1))
    else if k == 2 then World(OnlySlot(SeqState(0, Prefilling, [7], [], 1, 0), [], [0], []), OneBlock())
    else if k == 3 then World(OnlySlot(SeqState(0, Finished, [7], [8], 1, 0), [], [0], []), OneBlock())
    else World(OnlySlot(SeqState(-1, Finished, [7], [8], 1, 0), [], [0], [0]), OneBlock())
  }

  lemma ReuseAdmitted()
    ensures AdmitAll(ReuseState(1), 1) == ReuseState(2)
  {
    OneReserve();
    OnlyAdmits(ReuseState(1).d, ReuseState(1).c);
    assert AdmitOne(ReuseState(1).d) == ReuseState(2).d;
  }

  lemma ReuseCollected()
    ensures Collected(ReuseState(3).d, 1) == ReuseState(4).d
  {
    var d := ReuseState(3).d;
    assert Collected(d, 1) == CollectOne(Collected(d, 0), 0);
    assert [] + [0] == [0];
  }

  lemma ReuseStep(k: nat)
    requires k < 4
    ensures Apply(ReuseState(k), ReuseRun()[k], 1) == ReuseState(k + 1)
    ensures Disciplined(ReuseState(k), ReuseRun()[k])
  {
    if k == 0 {
      assert Submitted(NO_REQUESTS, Request(0, [7], 1)) == ReuseState(1).d;
    } else if k == 1 {
      ReuseAdmitted();
    } else if k == 2 {
      assert [] + [8] == [8];
      assert Generated(ReuseState(2).d, 0, 8) == ReuseState(3).d;
    } else {
      ReuseCollected();
    }
  }

  lemma {:induction false} ReuseRunSteps(k: nat)
    requires k <= 4
    ensures Run(ReuseState(0), ReuseRun()[..k], 1) == ReuseState(k)
  {
    if k > 0 {
      ReuseRunSteps(k - 1);
      ReuseStep(k - 1);
      assert ReuseRun()[..k][..k - 1] == ReuseRun()[..k - 1];
    }
  }

  lemma ReuseStarts()
    ensures Guaranteed(ReuseState(0), 1) && Orderly(NO_REQUESTS)
  {
    ClearedGood(1, 1, 1, 2, 1);
  }

  lemma ReuseDisciplined()
    ensures AllDisciplined(ReuseState(0), ReuseRun()[..4], 1)
  {
    var start, events := ReuseState(0), ReuseRun();
    forall k | 0 <= k < 4 ensures Disciplined(Run(start, events[..4][..k], 1), events[..4][k]) {
      assert events[..4][..k] == events[..k];
      ReuseRunSteps(k);
      ReuseStep(k);
    }
  }

  lemma ReuseEnds(w: World)
    requires Orderly(w.d) && Roomy(w.d, w.c) && w == ReuseState(4)
    ensures var r := Request(0, [7], 5);
            SubmitStatus(w.d, r).Success? && !Orderly(Submitted(w.d, r)) && !Roomy(Submitted(w.d, r), w.c)
  {
    var r := Request(0, [7], 5);
    assert w.d.active[0] == 0;
    SubmittedOrderly(w.d, r);
    SubmittedRoomy(w.d, w.c, r);
  }

  lemma ReuseKeeps()
    ensures Guaranteed(ReuseState(4), 1) && Orderly(ReuseState(4).d)
  {
    ReuseStarts();
    ReuseDisciplined();
    RunOrderly(ReuseState(0), ReuseRun()[..4], 1);
    DisciplinedIsCareful(ReuseState(0), ReuseRun()[..4], 1);
    RunGuaranteed(ReuseState(0), ReuseRun()[..4], 1);
    ReuseRunSteps(4);
  }

  lemma ReuseLast()
    requires SubmitStatus(ReuseState(4).d, ReuseRun()[4].request).Success?
    ensures Run(ReuseState(0), ReuseRun(), 1) == ReuseState(4).(d := Submitted(ReuseState(4).d, ReuseRun()[4].request))
  {
    ReuseRunSteps(4);
    assert ReuseRun()[..4] == ReuseRun()[..|ReuseRun()| - 1];
  }

  /** A run that collects a finished request before evicting it and then reuses its id for a longer one, on a cache of
      one block of two rows. Every step but the last is disciplined, the last is accepted, and it breaks both promises:
      the id is queued while it is still in the active list, where it now wants six rows and owns two. */
  lemma ReuseBeforeEvictBreaks()
    ensures var start, events := World(NO_REQUESTS, ClearedCache(1, 1, 1, 2, 1)), ReuseRun();
            && Guaranteed(start, 1) && Orderly(start.d)
            && AllDisciplined(start, events[..4], 1) && Orderly(Run(start, events[..4], 1).d)
            && SubmitStatus(Run(start, events[..4], 1).d, events[4].request).Success?
            && !Orderly(Run(start, events, 1).d) && !Roomy(Run(start, events, 1).d, Run(start, events, 1).c)
  {
    ReuseStarts();
    ReuseDisciplined();
    ReuseKeeps();
    ReuseRunSteps(4);
    ReuseEnds(ReuseState(4));
    ReuseLast();
  }
}
