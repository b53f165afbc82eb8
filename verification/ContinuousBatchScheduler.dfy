/** src/runtime/continuous_batch_scheduler.cpp: requests wait, become active with all their blocks reserved, finish, and
    are evicted and collected. */
module ContinuousBatchSchedulers {
  import opened BatchProofs
  import opened BatchRuns
  import opened BatchSpec
  import opened PagedCacheSpec
  import opened PagedKVCaches
  import opened Wrappers

  class ContinuousBatchScheduler {
    const cache: PagedKVCache
    const maxBatch: int
    var states: seq<SeqState>
    var waiting: seq<nat>
    var active: seq<nat>
    var nextId: nat

    ghost var accepted: seq<Request>
    ghost var tickets: seq<nat>
    ghost var collected: seq<nat>

    ghost function View(): Sched
      reads this
    {
      Sched(states, waiting, active, nextId, accepted, tickets, collected)
    }

    /** What holds whatever the caller marks, collects or resubmits. */
    ghost predicate Valid()
      reads this, cache
    {
      cache.Valid() && Sized(View()) && BatchBounded(View(), maxBatch)
    }

    constructor (cache: PagedKVCache, maxBatch: int)
      requires cache.Valid()
      ensures Valid() && this.cache == cache && this.maxBatch == maxBatch
      ensures Orderly(View()) && Roomy(View(), cache.State())
    {
      this.cache, this.maxBatch := cache, maxBatch;
      states, waiting, active, nextId := [], [], [], 0;
      accepted, tickets, collected := [], [], [];
      new;
      NothingYet(View(), cache.State());
    }

    /** The slot vector made long enough to hold a slot. */
    method GrowSlots(slot: nat)
      requires |tickets| == |states|
      modifies this`states, this`tickets
      ensures states == SlotsFor(old(View()), slot) && tickets == TicketsFor(old(View()), slot)
    {
      if slot >= |states| {
        states := states + seq(slot + 1 - |states|, _ => BLANK);
        tickets := tickets + seq(slot + 1 - |tickets|, _ => 0);
      }
    }

    /** A refused request changes nothing; an accepted one joins the end of the queue. */
    method Submit(r: Request) returns (st: Status)
      requires Valid()
      modifies this
      ensures Valid() && st == SubmitStatus(old(View()), r)
      ensures View() == if st.Success? then Submitted(old(View()), r) else old(View())
    {
      if r.prompt == [] {
        return Failure(InvalidArgument);
      }
      if r.maxTokens <= 0 {
        return Failure(InvalidArgument);
      }
      ghost var before := View();
      var slot: nat := if r.id >= 0 then r.id else nextId;
      if r.id < 0 {
        nextId := nextId + 1;
      }
      if r.id >= 0 && slot >= nextId {
        nextId := slot + 1;
      }
      GrowSlots(slot);
      if states[slot].id >= 0 {
        return Failure(InvalidArgument);
      }
      Enqueue(slot, r);
      SubmittedIs(before, View(), r);
      SubmittedSized(before, r);
      return Success;
    }

    /** The slot takes the request and joins the queue. */
    method Enqueue(slot: nat, r: Request)
      requires slot < |states| == |tickets|
      modifies this`states, this`tickets, this`accepted, this`waiting
      ensures states == old(states)[slot := SeqState(slot, Waiting, r.prompt, [], r.maxTokens, 0)]
      ensures tickets == old(tickets)[slot := |old(accepted)|]
      ensures accepted == old(accepted) + [r] && waiting == old(waiting) + [slot]
    {
      states := states[slot := SeqState(slot, Waiting, r.prompt, [], r.maxTokens, 0)];
      tickets := tickets[slot := |accepted|];
      accepted := accepted + [r];
      waiting := waiting + [slot];
    }

    /** One turn of the admission loop. */
    method AdmitHead() returns (admitted: bool)
      requires Valid() && waiting != [] && |active| < maxBatch && Initialized(cache.State())
      modifies this, cache
      ensures Valid() && Initialized(cache.State()) && cache.rows == old(cache.rows)
      ensures var i, total := old(waiting)[0], Wanted(old(View()), old(waiting)[0]);
              && admitted == ReserveStatus(old(cache.State()), i, total).Success?
              && cache.State() == AfterReserve(old(cache.State()), i, total)
              && View() == if admitted then AdmitOne(old(View())) else old(View())
    {
      ghost var c, d := cache.State(), View();
      var i := waiting[0];
      assert d.waiting[0] < |d.states|;
      var total := |states[i].prompt| + states[i].maxTokens;
      AdmissionSteps(c, i, total);
      var ensured := cache.EnsureSequence(i);
      var reserved := cache.ReserveSequence(i, total);
      if reserved.Failure? {
        return false;
      }
      states := states[i := states[i].(phase := Prefilling)];
      active := active + [i];
      waiting := waiting[1..];
      AdmittedMoves(d, 1);
      assert View() == AdmitOne(d);
      return true;
    }

    /** Admits from the head of the queue while there is room. */
    method AdmitWaiting() returns (st: Status)
      requires Valid()
      modifies this, cache
      ensures Valid() && cache.rows == old(cache.rows)
      ensures World(View(), cache.State()) == AdmitAll(old(World(View(), cache.State())), maxBatch)
      ensures st.Failure? ==> View() == old(View()) && cache.State() == old(cache.State())
      ensures st.Success? <==> maxBatch > 0 && (old(waiting) == [] || |old(active)| >= maxBatch ||
                                                Initialized(old(cache.State())))
    {
      if maxBatch <= 0 {
        return Failure(InvalidArgument);
      }
      ghost var w := World(View(), cache.State());
      while waiting != []
        invariant Valid() && cache.rows == old(cache.rows)
        invariant AdmitAll(World(View(), cache.State()), maxBatch) == AdmitAll(w, maxBatch)
        invariant Initialized(cache.State()) || (View() == w.d && cache.State() == w.c)
        invariant Initialized(cache.State()) == Initialized(w.c)
        decreases |waiting|
      {
        assert View().waiting[0] < |View().states|;
        if |active| >= maxBatch {
          break;
        }
        if !(cache.blockSize > 0 && cache.maxBlocks > 0) {
          return Failure(RuntimeError);
        }
        var admitted := AdmitHead();
        if !admitted {
          return Success;
        }
      }
      return Success;
    }

    method MarkPrefillProgress(i: nat, tokens: int)
      requires Valid() && i < |states|
      modifies this`states
      ensures Valid() && View() == Prefilled(old(View()), i, tokens)
    {
      states := states[i := states[i].(prefilled := tokens)];
      if states[i].prefilled >= |states[i].prompt| {
        states := states[i := states[i].(phase := Decoding)];
      }
    }

    method MarkTokenGenerated(i: nat, token: int)
      requires Valid() && i < |states|
      modifies this`states
      ensures Valid() && View() == Generated(old(View()), i, token)
    {
      states := states[i := states[i].(generated := states[i].generated + [token])];
      if |states[i].generated| >= states[i].maxTokens {
        states := states[i := states[i].(phase := Finished)];
      }
    }

    method MarkFinished(i: nat)
      requires Valid() && i < |states|
      modifies this`states
      ensures Valid() && View() == Ended(old(View()), i)
    {
      states := states[i := states[i].(phase := Finished)];
    }

    /** One turn of the eviction loop. */
    method EvictOne(i: nat) returns (next: nat)
      requires cache.Valid() && i < |active| && active[i] < |states|
      modifies this`active, cache
      ensures cache.Valid()
      ensures LookedAt(old(View()), View(), i, next, old(cache.State()), cache.State(), old(cache.rows), cache.rows)
    {
      if states[active[i]].phase == Finished {
        cache.FreeSequence(active[i]);
        active := active[..i] + active[i + 1..];
        next := i;
      } else {
        next := i + 1;
      }
    }

    /** Finished sequences leave the active list and give their blocks back; the others keep their order, rows and
        blocks. */
    method EvictFinished()
      requires Valid()
      modifies this`active, cache
      ensures Valid() && View() == Evicted(old(View()))
      ensures cache.State() == FreedAll(old(states), old(active), old(cache.State()))
      ensures FinishedFreed(old(View()), old(active), old(cache.State()), cache.State())
      ensures RowsFreed(old(View()), old(active), old(cache.rows), cache.rows)
    {
      ghost var d, c, rows := View(), cache.State(), cache.rows;
      ghost var k := 0;
      var i: nat := 0;
      EvictedSized(d);
      while i < |active|
        invariant cache.Valid()
        invariant Evicting(d, View(), k, i, c, cache.State(), rows, cache.rows)
        decreases |d.active| - k
      {
        ghost var e, b, now, at := View(), cache.State(), cache.rows, i;
        EvictingBelow(d, e, k, i, c, b, rows, now);
        i := EvictOne(i);
        EvictingNext(d, e, View(), k, at, i, c, b, cache.State(), rows, now, cache.rows);
        k := k + 1;
      }
      EvictingDone(d, View(), k, i, c, cache.State(), rows, cache.rows);
      UnfinishedHas(d.states, d.active);
    }

    /** Hands out each finished request's output once and frees its slot. */
    method CollectFinished() returns (outputs: seq<Output>)
      requires Valid()
      modifies this`states, this`collected
      ensures Valid() && View() == Collected(old(View()), |old(states)|)
      ensures HandedOut(old(View()), View(), outputs)
      ensures forall i: nat :: !Collectable(View(), i)
    {
      ghost var d := View();
      outputs := [];
      CollectingStart(d);
      for i := 0 to |states|
        invariant cache.Valid() && |states| == |d.states|
        invariant Collecting(d, View(), i, outputs)
      {
        ghost var e := View();
        CollectingNext(d, e, i, outputs);
        if states[i].phase == Finished && states[i].id >= 0 {
          outputs := outputs + [Output(states[i].id, states[i].prompt, states[i].generated)];
          states := states[i := states[i].(id := -1)];
          collected := collected + [tickets[i]];
        }
        assert View() == CollectOne(e, i);
      }
      CollectingDone(d, View(), outputs);
    }
  }
}
