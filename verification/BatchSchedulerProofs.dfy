/** Every step of the request life cycle keeps the scheduler's invariants. */
module BatchProofs {
  import opened Arithmetic
  import opened BatchSpec
  import opened PagedCacheProofs
  import opened PagedCacheSpec
  import opened Sequences
  import opened Wrappers

  lemma NothingYet(d: Sched, c: Cache)
    requires d.states == [] && d.waiting == d.active == [] && d.accepted == [] && d.tickets == d.collected == []
    ensures Orderly(d) && Roomy(d, c)
  {
  }

  // ---------------------------------------------------------------- submit

  /** Without an explicit id a well-formed request is always accepted, in a slot that no request has used. */
  lemma AutoIdsNeverCollide(d: Sched, r: Request)
    requires Sized(d) && r.id < 0 && r.prompt != [] && r.maxTokens > 0
    ensures SubmitStatus(d, r).Success?
    ensures SlotOf(d, r) >= |d.states| && SlotOf(d, r) !in d.waiting && SlotOf(d, r) !in d.active
  {
  }

  /** Field by field. */
  lemma SubmittedIs(d: Sched, d': Sched, r: Request)
    requires |d.tickets| == |d.states|
    requires d'.states == SlotsFor(d, SlotOf(d, r))[SlotOf(d, r) := SeqState(SlotOf(d, r), Waiting, r.prompt, [],
                                                                             r.maxTokens, 0)]
    requires d'.tickets == TicketsFor(d, SlotOf(d, r))[SlotOf(d, r) := |d.accepted|]
    requires d'.waiting == d.waiting + [SlotOf(d, r)] && d'.active == d.active && d'.collected == d.collected
    requires d'.nextId == (if d.nextId <= SlotOf(d, r) then SlotOf(d, r) + 1 else d.nextId)
    requires d'.accepted == d.accepted + [r]
    ensures d' == Submitted(d, r)
  {
  }

  lemma SubmittedSized(d: Sched, r: Request)
    requires Sized(d)
    ensures Sized(Submitted(d, r))
  {
  }

  lemma SubmittedQueues(d: Sched, r: Request)
    requires Orderly(d) && SubmitStatus(d, r).Success? && SlotOf(d, r) !in d.active
    ensures NoDuplicates(Submitted(d, r).waiting + d.active)
  {
    var slot := SlotOf(d, r);
    assert slot < |d.states| ==> SlotGood(d, slot);
    var old', new' := d.waiting + d.active, d.waiting + [slot] + d.active;
    forall i, j | 0 <= i < j < |new'| ensures new'[i] != new'[j] {
      var n := |d.waiting|;
      var i', j' := if i <= n then i else i - 1, if j <= n then j else j - 1;
      if i == n {
        assert new'[j] == d.active[j - n - 1];
      } else if j == n {
        assert new'[i] == d.waiting[i];
      } else {
        assert new'[i] == old'[i'] && new'[j] == old'[j'];
      }
    }
  }

  lemma SubmittedSlots(d: Sched, r: Request)
    requires Orderly(d) && SubmitStatus(d, r).Success? && SlotOf(d, r) !in d.active
    ensures SlotsGood(Submitted(d, r))
  {
    var slot, d' := SlotOf(d, r), Submitted(d, r);
    forall i: nat | i < |d'.states| ensures SlotGood(d', i) && SlotFaithful(d', i) {
      assert i in d'.waiting <==> i in d.waiting || i == slot;
      if i < |d.states| {
        assert SlotGood(d, i) && SlotFaithful(d, i);
      }
    }
  }

  lemma SubmittedLedger(d: Sched, r: Request)
    requires Orderly(d) && SubmitStatus(d, r).Success?
    ensures Ledger(Submitted(d, r))
  {
    var slot, d' := SlotOf(d, r), Submitted(d, r);
    forall i: nat, t: nat
      ensures HasTicket(d', i, t) <==> HasTicket(d, i, t) || (i == slot && t == |d.accepted|)
    {
    }
    forall i: nat, t: nat | HasTicket(d, i, t) ensures t < |d.accepted| {
      assert SlotFaithful(d, i);
    }
    forall t: nat | t < |d'.accepted| && t !in d'.collected ensures exists i: nat :: HasTicket(d', i, t) {
      if t == |d.accepted| {
        assert HasTicket(d', slot, t);
      } else {
        var i: nat :| HasTicket(d, i, t);
        assert HasTicket(d', i, t);
      }
    }
  }

  lemma SubmittedFifo(d: Sched, r: Request)
    requires Orderly(d) && SubmitStatus(d, r).Success?
    ensures Fifo(Submitted(d, r))
  {
    var slot, d' := SlotOf(d, r), Submitted(d, r);
    forall j | 0 <= j < |d'.waiting|
      ensures d'.waiting[j] < |d'.tickets| && d'.tickets[d'.waiting[j]] == |d'.accepted| - |d'.waiting| + j
    {
      if j < |d.waiting| {
        assert SlotGood(d, d.waiting[j]);
      }
    }
  }

  /** Accepting a request keeps a scheduler orderly unless its slot is still in the active list. */
  lemma SubmittedOrderly(d: Sched, r: Request)
    requires Orderly(d) && SubmitStatus(d, r).Success?
    ensures Orderly(Submitted(d, r)) <==> SlotOf(d, r) !in d.active
  {
    var slot, d' := SlotOf(d, r), Submitted(d, r);
    if slot in d.active {
      var k :| 0 <= k < |d.active| && d.active[k] == slot;
      var q := d'.waiting + d'.active;
      assert q[|d.waiting|] == slot && q[|d.waiting| + 1 + k] == slot;
    } else {
      SubmittedSized(d, r);
      SubmittedQueues(d, r);
      SubmittedSlots(d, r);
      SubmittedLedger(d, r);
      SubmittedFifo(d, r);
    }
  }

  /** Accepting a request keeps every active sequence's room exactly when its slot is not active or has the room
      already. */
  lemma SubmittedRoomy(d: Sched, c: Cache, r: Request)
    requires Sized(d) && Roomy(d, c) && SubmitStatus(d, r).Success?
    ensures Roomy(Submitted(d, r), c) <==>
            SlotOf(d, r) !in d.active || RoomFor(c, SlotOf(d, r), |r.prompt| + r.maxTokens)
  {
    var slot, d' := SlotOf(d, r), Submitted(d, r);
    if slot in d.active {
      var k :| 0 <= k < |d.active| && d.active[k] == slot;
      assert Wanted(d', d'.active[k]) == |r.prompt| + r.maxTokens;
    }
  }

  // ---------------------------------------------------------------- admit

  lemma AdmitOneQueues(d: Sched)
    requires Orderly(d) && d.waiting != []
    ensures NoDuplicates(AdmitOne(d).waiting + AdmitOne(d).active)
  {
    var i := d.waiting[0];
    var q, q' := d.waiting + d.active, d.waiting[1..] + (d.active + [i]);
    assert forall x :: 0 <= x < |q'| - 1 ==> q'[x] == q[x + 1];
    assert q'[|q'| - 1] == q[0];
  }

  lemma AdmitOneSlots(d: Sched)
    requires Orderly(d) && d.waiting != []
    ensures SlotsGood(AdmitOne(d))
  {
    var head, d' := d.waiting[0], AdmitOne(d);
    assert head in d.waiting;
    HeadLeaves(d);
    forall i: nat | i < |d'.states| ensures SlotGood(d', i) && SlotFaithful(d', i) {
      assert SlotGood(d, i) && SlotFaithful(d, i);
      assert i in d'.active <==> i in d.active || i == head;
    }
  }

  lemma HeadLeaves(d: Sched)
    requires NoDuplicates(d.waiting + d.active) && d.waiting != []
    ensures forall i :: i in d.waiting[1..] <==> i in d.waiting && i != d.waiting[0]
    ensures d.waiting[0] !in d.active
  {
    var q := d.waiting + d.active;
    forall j | 0 < j < |q| ensures q[j] != d.waiting[0] {
      assert q[0] == d.waiting[0];
    }
    forall i ensures i in d.waiting[1..] <==> i in d.waiting && i != d.waiting[0] {
      if i in d.waiting[1..] {
        var j :| 0 <= j < |d.waiting| - 1 && d.waiting[1..][j] == i;
        assert q[j + 1] == i;
      }
    }
    assert forall j :: 0 <= j < |d.active| ==> d.active[j] == q[|d.waiting| + j];
  }

  lemma SameTickets(d: Sched, d': Sched)
    requires Ledger(d) && d'.tickets == d.tickets && d'.accepted == d.accepted && d'.collected == d.collected
    requires |d'.states| == |d.states| && forall i: nat :: InUse(d', i) <==> InUse(d, i)
    ensures Ledger(d')
  {
    forall i: nat, t: nat ensures HasTicket(d', i, t) <==> HasTicket(d, i, t) {
    }
    forall t: nat | t < |d'.accepted| && t !in d'.collected ensures exists i: nat :: HasTicket(d', i, t) {
      var i: nat :| HasTicket(d, i, t);
      assert HasTicket(d', i, t);
    }
  }

  lemma AdmitOneOrderly(d: Sched)
    requires Orderly(d) && d.waiting != []
    ensures Orderly(AdmitOne(d))
  {
    AdmitOneQueues(d);
    AdmitOneSlots(d);
    SameTickets(d, AdmitOne(d));
  }

  /** Admitting moves the oldest waiting requests, in order, to the end of the active list. */
  lemma {:induction false} AdmittedMoves(d: Sched, n: nat)
    requires n <= |d.waiting| && Sized(d)
    ensures Sized(Admitted(d, n))
    ensures Admitted(d, n).waiting == d.waiting[n..] && Admitted(d, n).active == d.active + d.waiting[..n]
    ensures Orderly(d) ==> Orderly(Admitted(d, n))
  {
    if n > 0 {
      AdmittedMoves(d, n - 1);
      var e := Admitted(d, n - 1);
      assert e.waiting[0] == d.waiting[n - 1];
      assert d.waiting[..n] == d.waiting[..n - 1] + [d.waiting[n - 1]];
      if Orderly(d) {
        AdmitOneOrderly(e);
      }
    } else {
      assert d.waiting[..0] == [];
    }
  }

  /** One admission: the new active sequence has its room, and the others keep theirs because tables only grow. */
  lemma AdmitOneRoomy(d: Sched, c: Cache, c': Cache)
    requires Sized(d) && d.waiting != [] && Roomy(d, c) && TablesGrew(c, c')
    requires RoomFor(c', d.waiting[0], Wanted(d, d.waiting[0]))
    ensures Roomy(AdmitOne(d), c')
  {
    var d' := AdmitOne(d);
    RoomyGrew(d, c, c');
    forall k | 0 <= k < |d'.active|
      ensures d'.active[k] < |d'.states| && RoomFor(c', d'.active[k], Wanted(d', d'.active[k])) {
      assert k < |d.active| ==> RoomFor(c', d.active[k], Wanted(d, d.active[k]));
    }
  }

  lemma RoomyGrew(d: Sched, c: Cache, c': Cache)
    requires Roomy(d, c) && TablesGrew(c, c')
    ensures Roomy(d, c')
  {
    forall k | 0 <= k < |d.active|
      ensures d.active[k] < |d.states| && RoomFor(c', d.active[k], Wanted(d, d.active[k])) {
      var i := d.active[k];
      assert RoomFor(c, i, Wanted(d, i));
      Monotone(|Entry(c, i).blocks|, |Entry(c', i).blocks|, c.blockSize);
    }
  }

  lemma GrewTables(c: Cache, c': Cache, s: nat)
    requires GrewOnly(c, c', s)
    ensures TablesGrew(c, c')
  {
    forall t: nat ensures Entry(c', t).length == Entry(c, t).length && Entry(c, t).blocks <= Entry(c', t).blocks {
      if t != s {
        assert Entry(c', t) == Entry(c, t);
      }
    }
  }

  lemma TablesGrewTwice(c: Cache, d: Cache, e: Cache)
    requires TablesGrew(c, d) && TablesGrew(d, e)
    ensures TablesGrew(c, e)
  {
    forall t: nat ensures Entry(e, t).length == Entry(c, t).length && Entry(c, t).blocks <= Entry(e, t).blocks {
      assert Entry(d, t).length == Entry(c, t).length;
    }
  }

  lemma AdmitRefused(d: Sched, c: Cache, c': Cache)
    requires TablesGrew(c, c') && forall t: nat :: Entry(c', t) == Entry(c, t)
    ensures Roomy(d, c) ==> Roomy(d, c')
    ensures OnlyActiveOwn(d, c) ==> OnlyActiveOwn(d, c')
  {
    if Roomy(d, c) {
      RoomyGrew(d, c, c');
    }
  }

  lemma AdmitAccepted(d: Sched, c: Cache, c': Cache)
    requires Sized(d) && d.waiting != [] && TablesGrew(c, c') && RoomFor(c', d.waiting[0], Wanted(d, d.waiting[0]))
    requires forall t: nat :: t != d.waiting[0] ==> Entry(c', t) == Entry(c, t)
    ensures Roomy(d, c) ==> Roomy(AdmitOne(d), c')
    ensures OnlyActiveOwn(d, c) ==> OnlyActiveOwn(AdmitOne(d), c')
  {
    if Roomy(d, c) {
      AdmitOneRoomy(d, c, c');
    }
    if OnlyActiveOwn(d, c) {
      forall t: nat | Entry(c', t).blocks != [] ensures t in AdmitOne(d).active {
        assert t != d.waiting[0] ==> Entry(c, t).blocks != [];
        assert t in d.active + [d.waiting[0]];
      }
    }
  }

  // ---------------------------------------------------------------- marks

  lemma MarkedOrderly(d: Sched, i: nat, s: SeqState)
    requires Orderly(d) && i < |d.states| && i in d.active && d.states[i].phase != Finished
    requires s.id == d.states[i].id && s.prompt == d.states[i].prompt && s.maxTokens == d.states[i].maxTokens
    requires s.phase != Waiting && |s.generated| <= s.maxTokens && (s.phase != Finished ==> |s.generated| < s.maxTokens)
    ensures Orderly(d.(states := d.states[i := s]))
  {
    var d' := d.(states := d.states[i := s]);
    assert SlotGood(d, i);
    forall j: nat | j < |d'.states| ensures SlotGood(d', j) && SlotFaithful(d', j) {
      assert SlotGood(d, j) && SlotFaithful(d, j);
    }
    SameTickets(d, d');
  }

  /** Marking an active, unfinished sequence keeps the scheduler orderly. */
  lemma MarksOrderly(d: Sched, i: nat, n: int, token: int)
    requires Orderly(d) && i < |d.states| && i in d.active && d.states[i].phase != Finished
    ensures Orderly(Prefilled(d, i, n)) && Orderly(Generated(d, i, token)) && Orderly(Ended(d, i))
  {
    assert SlotGood(d, i) && SlotFaithful(d, i);
    MarkedOrderly(d, i, Prefilled(d, i, n).states[i]);
    MarkedOrderly(d, i, Generated(d, i, token).states[i]);
    MarkedOrderly(d, i, Ended(d, i).states[i]);
  }

  /** Marks never touch the room that a sequence was promised. */
  lemma MarksRoomy(d: Sched, c: Cache, i: nat, n: int, token: int)
    requires Roomy(d, c) && i < |d.states|
    ensures Roomy(Prefilled(d, i, n), c) && Roomy(Generated(d, i, token), c) && Roomy(Ended(d, i), c)
  {
    forall k | 0 <= k < |d.active| ensures d.active[k] < |d.states| && RoomFor(c, d.active[k], Wanted(d, d.active[k])) {
    }
  }

  // ---------------------------------------------------------------- evict

  lemma {:induction false} UnfinishedHas(states: seq<SeqState>, ids: seq<nat>)
    ensures |Unfinished(states, ids)| <= |ids|
    ensures forall i: nat :: i in Unfinished(states, ids) <==> i in ids && !IsFinished(states, i)
  {
    if ids != [] {
      UnfinishedHas(states, ids[..|ids| - 1]);
      var last := ids[|ids| - 1];
      forall i: nat ensures i in Unfinished(states, ids) <==> i in ids && !IsFinished(states, i) {
        assert i in ids <==> i in ids[..|ids| - 1] || i == last;
      }
    }
  }

  lemma AppendNew(s: seq<nat>, x: nat)
    requires NoDuplicates(s) && x !in s
    ensures NoDuplicates(s + [x])
  {
  }

  lemma {:induction false} UnfinishedQueues(states: seq<SeqState>, waiting: seq<nat>, ids: seq<nat>)
    requires NoDuplicates(waiting + ids)
    ensures NoDuplicates(waiting + Unfinished(states, ids))
  {
    if ids != [] {
      var shorter, last := ids[..|ids| - 1], ids[|ids| - 1];
      var q := waiting + ids;
      assert waiting + shorter == q[..|q| - 1];
      UnfinishedQueues(states, waiting, shorter);
      UnfinishedHas(states, shorter);
      if !IsFinished(states, last) {
        var q' := waiting + Unfinished(states, shorter);
        assert waiting + Unfinished(states, ids) == q' + [last];
        assert forall x :: x in q' ==> x in q[..|q| - 1];
        assert q[|q| - 1] == last;
        AppendNew(q', last);
      } else {
        assert waiting + Unfinished(states, ids) == waiting + Unfinished(states, shorter);
      }
    } else {
      assert waiting + Unfinished(states, ids) == waiting + ids;
    }
  }

  lemma EvictedOrderly(d: Sched)
    requires Orderly(d)
    ensures Orderly(Evicted(d))
  {
    var d' := Evicted(d);
    UnfinishedQueues(d.states, d.waiting, d.active);
    UnfinishedHas(d.states, d.active);
    EvictedSized(d);
    forall i: nat | i < |d'.states| ensures SlotGood(d', i) && SlotFaithful(d', i) {
      assert SlotGood(d, i) && SlotFaithful(d, i);
    }
    SameTickets(d, d');
  }

  lemma EvictedSized(d: Sched)
    requires Sized(d)
    ensures Sized(Evicted(d))
  {
    UnfinishedHas(d.states, d.active);
    var d' := Evicted(d);
    forall k | 0 <= k < |d'.active| ensures d'.active[k] < |d'.states| {
      assert d'.active[k] in d'.active;
    }
  }

  /** Evicting frees only sequences that leave the active list, so the others keep their room. */
  lemma EvictedRoomy(d: Sched, c: Cache, c': Cache)
    requires Sized(d) && Roomy(d, c) && FinishedFreed(d, d.active, c, c')
    ensures Roomy(Evicted(d), c')
  {
    UnfinishedHas(d.states, d.active);
    var d' := Evicted(d);
    forall k | 0 <= k < |d'.active|
      ensures d'.active[k] < |d'.states| && RoomFor(c', d'.active[k], Wanted(d', d'.active[k])) {
      var i := d'.active[k];
      assert i in d'.active;
      var j :| 0 <= j < |d.active| && d.active[j] == i;
      assert RoomFor(c, d.active[j], Wanted(d, d.active[j]));
      assert Entry(c', i) == Entry(c, i);
    }
  }

  /** A sequence beyond the table has no blocks and no rows. */
  lemma FreedAlready(c: Cache, rows: Rows, i: nat)
    requires Good(c) && Stores(c, rows) && i >= |c.sequences|
    ensures forall key: (nat, nat, nat) :: key in rows ==> key.0 != i
  {
    forall key: (nat, nat, nat) | key in rows ensures key.0 != i {
      assert StoredAt(c, rows, key);
      RowInTable(c, key.0, key.2);
    }
  }

  lemma RowInTable(c: Cache, s: nat, pos: nat)
    requires HasRow(c, s, pos)
    ensures s < |c.sequences|
  {
    assert pos / c.blockSize >= 0;
  }

  lemma FreedEntries(d: Sched, ids: seq<nat>, i: nat, c: Cache, b: Cache, b': Cache)
    requires FinishedFreed(d, ids, c, b) && IsFinished(d.states, i)
    requires b' == GivenBack(b, i)
    ensures FinishedFreed(d, ids + [i], c, b')
  {
    forall t: nat
      ensures Entry(b', t) == if t in ids + [i] && IsFinished(d.states, t) then SequenceEntry(0, []) else Entry(c, t) {
      assert Entry(b', t) == if t == i then SequenceEntry(0, []) else Entry(b, t);
      assert t in ids + [i] <==> t in ids || t == i;
    }
  }

  lemma FreedRows(d: Sched, ids: seq<nat>, i: nat, rows: Rows, now: Rows, now': Rows)
    requires RowsFreed(d, ids, rows, now) && IsFinished(d.states, i)
    requires now' == WithoutSequence(now, i)
    ensures RowsFreed(d, ids + [i], rows, now')
  {
    forall key: (nat, nat, nat)
      ensures key in now' <==> key in rows && !(key.0 in ids + [i] && IsFinished(d.states, key.0))
    {
      assert key.0 in ids + [i] <==> key.0 in ids || key.0 == i;
    }
  }

  lemma FreedNext(d: Sched, ids: seq<nat>, i: nat, c: Cache, b: Cache, b': Cache, rows: Rows, now: Rows, now': Rows)
    requires FinishedFreed(d, ids, c, b) && RowsFreed(d, ids, rows, now) && IsFinished(d.states, i)
    requires b' == GivenBack(b, i) && now' == if i < |b.sequences| then WithoutSequence(now, i) else now
    requires i >= |b.sequences| ==> forall key: (nat, nat, nat) :: key in now ==> key.0 != i
    ensures FinishedFreed(d, ids + [i], c, b') && RowsFreed(d, ids + [i], rows, now')
  {
    FreedEntries(d, ids, i, c, b, b');
    if i >= |b.sequences| {
      assert WithoutSequence(now, i) == now;
    }
    FreedRows(d, ids, i, rows, now, now');
  }

  lemma FreedSkip(d: Sched, ids: seq<nat>, i: nat, c: Cache, b: Cache, rows: Rows, now: Rows)
    requires FinishedFreed(d, ids, c, b) && RowsFreed(d, ids, rows, now) && !IsFinished(d.states, i)
    ensures FinishedFreed(d, ids + [i], c, b) && RowsFreed(d, ids + [i], rows, now)
  {
    assert forall t :: t in ids + [i] <==> t in ids || t == i;
  }

  /** Evicting leaves blocks only with the sequences that stay active. */
  lemma EvictedOwn(d: Sched, c: Cache, c': Cache)
    requires OnlyActiveOwn(d, c) && FinishedFreed(d, d.active, c, c')
    ensures OnlyActiveOwn(Evicted(d), c')
  {
    UnfinishedHas(d.states, d.active);
    forall t: nat | Entry(c', t).blocks != [] ensures t in Evicted(d).active {
      assert Entry(c, t).blocks != [];
    }
  }

  // ---------------------------------------------------------------- collect

  lemma CollectOneTickets(d: Sched, i: nat, j: nat, t: nat)
    requires Sized(d) && Collectable(d, i)
    ensures HasTicket(CollectOne(d, i), j, t) <==> HasTicket(d, j, t) && j != i
  {
  }

  lemma CollectOneLedger(d: Sched, i: nat)
    requires Orderly(d) && Collectable(d, i)
    ensures Ledger(CollectOne(d, i))
  {
    var d', mine := CollectOne(d, i), d.tickets[i];
    assert HasTicket(d, i, mine) && SlotFaithful(d, i);
    forall j: nat, t: nat ensures HasTicket(d', j, t) <==> HasTicket(d, j, t) && j != i {
      CollectOneTickets(d, i, j, t);
    }
    forall t: nat | t < |d'.accepted| && t !in d'.collected ensures exists j: nat :: HasTicket(d', j, t) {
      assert t !in d.collected && t != mine;
      var j: nat :| HasTicket(d, j, t);
      assert HasTicket(d', j, t);
    }
  }

  /** Collecting one finished request moves its ticket from the slots to the collected ones. */
  lemma CollectOneOrderly(d: Sched, i: nat)
    requires Orderly(d)
    ensures Orderly(CollectOne(d, i))
  {
    if Collectable(d, i) {
      var d' := CollectOne(d, i);
      CollectOneLedger(d, i);
      assert SlotGood(d, i);
      forall j: nat | j < |d'.states| ensures SlotGood(d', j) && SlotFaithful(d', j) {
        assert SlotGood(d, j) && SlotFaithful(d, j);
      }
    }
  }

  lemma {:induction false} CollectedOrderly(d: Sched, n: nat)
    requires Orderly(d)
    ensures Orderly(Collected(d, n))
  {
    if n > 0 {
      CollectedOrderly(d, n - 1);
      CollectOneOrderly(Collected(d, n - 1), n - 1);
    }
  }

  /** Collecting marks slots as free and changes nothing else of them or of the queues. */
  lemma {:induction false} CollectedSlots(d: Sched, n: nat)
    requires Sized(d) && n <= |d.states|
    ensures Sized(Collected(d, n))
    ensures var e := Collected(d, n);
            && |e.states| == |d.states| && e.active == d.active && e.waiting == d.waiting && e.tickets == d.tickets
            && e.accepted == d.accepted
            && (forall i: nat :: i < |d.states| ==>
                  e.states[i] == if i < n && Collectable(d, i) then d.states[i].(id := -1) else d.states[i])
  {
    if n > 0 {
      CollectedSlots(d, n - 1);
    }
  }

  lemma CollectedRoomy(d: Sched, c: Cache, n: nat)
    requires Sized(d) && Roomy(d, c) && n <= |d.states|
    ensures Roomy(Collected(d, n), c)
  {
    CollectedSlots(d, n);
    var e := Collected(d, n);
    forall k | 0 <= k < |e.active| ensures e.active[k] < |e.states| && RoomFor(c, e.active[k], Wanted(e, e.active[k])) {
      assert RoomFor(c, d.active[k], Wanted(d, d.active[k]));
    }
  }

  lemma HandedOutNext(d: Sched, e: Sched, outputs: seq<Output>, i: nat)
    requires HandedOut(d, e, outputs) && Collectable(e, i) && i < |d.tickets| && e.tickets == d.tickets
    requires i < |d.states| == |e.states| && e.states[i] == d.states[i]
    ensures HandedOut(d, CollectOne(e, i),
                      outputs + [Output(e.states[i].id, e.states[i].prompt, e.states[i].generated)])
  {
    var o := Output(e.states[i].id, e.states[i].prompt, e.states[i].generated);
    assert Collectable(d, i);
    assert OutputFits(d, o, d.tickets[i]);
    var d', outputs' := CollectOne(e, i), outputs + [o];
    forall k | 0 <= k < |outputs'| ensures OutputFits(d, outputs'[k], d'.collected[|d.collected| + k]) {
      assert k < |outputs| ==> OutputFits(d, outputs[k], e.collected[|d.collected| + k]);
    }
  }

  /** In an orderly scheduler each output carries the prompt of the accepted request it answers, within that request's
      limit. */
  lemma OutputsAnswerRequests(d: Sched, outputs: seq<Output>, k: nat)
    requires Orderly(d) && HandedOut(d, Collected(d, |d.states|), outputs) && k < |outputs|
    ensures var t := Collected(d, |d.states|).collected[|d.collected| + k];
            && t < |d.accepted| && t !in d.collected
            && outputs[k].prompt == d.accepted[t].prompt && |outputs[k].generated| <= d.accepted[t].maxTokens
  {
    var t := Collected(d, |d.states|).collected[|d.collected| + k];
    assert OutputFits(d, outputs[k], t);
    var i: nat :| Collectable(d, i) && i < |d.tickets| && d.tickets[i] == t
                  && outputs[k] == Output(d.states[i].id, d.states[i].prompt, d.states[i].generated);
    assert SlotFaithful(d, i) && HasTicket(d, i, t);
  }

  // ---------------------------------------------------------------- the promise to callers

  /** No write within the promised range of an active sequence is refused for lack of blocks. */
  lemma PromisedWritesSucceed(d: Sched, c: Cache, k: nat, l: int, start: int, count: int)
    requires Good(c) && Initialized(c) && Roomy(d, c) && k < |d.active|
    requires start >= 0 && count >= 0 && 0 <= l < |c.layers|
    requires d.active[k] < |d.states| ==> start + count <= Wanted(d, d.active[k])
    ensures WriteStatus(c, d.active[k], l, start, count) == Success
  {
    var i := d.active[k];
    assert RoomFor(c, i, Wanted(d, i));
    CeilCovers(start + count, c.blockSize, |Entry(c, i).blocks|);
  }

  /** Writes by anyone never take room away: tables only grow. */
  lemma WritesKeepRoom(d: Sched, c: Cache, c': Cache, s: int, l: int, start: int, count: int)
    requires Good(c) && Roomy(d, c) && AfterWrite(c, c', s, l, start, count)
    ensures Roomy(d, c')
  {
    if start >= 0 && count > 0 && 0 <= l < |c.layers| && s >= 0 {
      var after := AfterReserve(c, s, start + count);
      ReserveGood(c, s, start + count);
      GrewTables(c, after, s);
      RoomyGrew(d, c, after);
      forall t: nat ensures Entry(c', t).blocks == Entry(after, t).blocks {
      }
      forall k | 0 <= k < |d.active|
        ensures d.active[k] < |d.states| && RoomFor(c', d.active[k], Wanted(d, d.active[k])) {
        assert RoomFor(after, d.active[k], Wanted(d, d.active[k]));
      }
    }
  }

  lemma OwnerOf(c: Cache, b: nat)
    requires OwnedGood(c) && b < c.maxBlocks && c.used[b]
    ensures exists t: nat :: Entry(c, t).blocks != []
  {
    assert Owned(c, b);
    var t: nat, i: nat :| OwnsAt(c, b, t, i);
    assert Entry(c, t).blocks != [];
  }

  /** With no block owned, all blocks are free. */
  lemma AllBlocksFree(c: Cache)
    requires Partitioned(c) && forall t: nat :: Entry(c, t).blocks == []
    ensures |c.free| == c.maxBlocks
  {
    forall b: nat | b < c.maxBlocks ensures b in c.free {
      if c.used[b] {
        OwnerOf(c, b);
        assert false;
      }
    }
    forall i | 0 <= i < |c.free| ensures c.free[i] < c.maxBlocks {
      assert c.free[i] in c.free;
    }
    Pigeonhole(c.free, c.maxBlocks);
  }

  /** With nothing active and no other user of the cache, a head request that fits the whole cache gets its blocks. */
  lemma HeadFits(d: Sched, c: Cache, total: nat)
    requires Good(c) && Initialized(c) && Sized(d) && OnlyActiveOwn(d, c) && d.active == [] && d.waiting != []
    ensures BlocksNeeded(total, c.blockSize) <= c.maxBlocks <==> ReserveStatus(c, d.waiting[0], total).Success?
  {
    forall t: nat ensures Entry(c, t).blocks == [] {
    }
    AllBlocksFree(c);
  }

  // ---------------------------------------------------------------- where discipline is needed

  /** Where discipline is needed: reporting prefill progress on a finished request keeps the scheduler orderly exactly
      when the report leaves it finished, or when the request is still active with tokens left, or was both collected
      and evicted. */
  lemma ProgressOnFinished(d: Sched, i: nat, n: int)
    requires Orderly(d) && i < |d.states| && d.states[i].phase == Finished
    ensures Orderly(Prefilled(d, i, n)) <==>
              || n < |d.states[i].prompt|
              || (if InUse(d, i) then i in d.active && |d.states[i].generated| < d.states[i].maxTokens
                  else i !in d.active)
  {
    var d', s := Prefilled(d, i, n), d.states[i];
    assert SlotGood(d, i) && SlotFaithful(d, i);
    SameTickets(d, d');
    forall j: nat | j < |d'.states| && j != i ensures SlotGood(d', j) && SlotFaithful(d', j) {
      assert SlotGood(d, j) && SlotFaithful(d, j);
    }
    assert SlotsGood(d') <==> SlotGood(d', i) && SlotFaithful(d', i);
  }

  // ---------------------------------------------------------------- loop steps

  lemma AdmissionsStart(d: Sched, c: Cache)
    requires Sized(d)
    ensures AfterAdmissions(d, c, d, c, 0)
  {
    AdmittedMoves(d, 0);
  }

  lemma AdmissionsNext(d: Sched, c: Cache, e: Sched, b: Cache, n: nat, b': Cache)
    requires Sized(d) && Sized(e) && AfterAdmissions(d, c, e, b, n) && e.waiting != [] && TablesGrew(b, b')
    requires RoomFor(b', e.waiting[0], Wanted(e, e.waiting[0]))
    requires forall t: nat :: t != e.waiting[0] ==> Entry(b', t) == Entry(b, t)
    ensures AfterAdmissions(d, c, AdmitOne(e), b', n + 1)
  {
    AdmittedMoves(d, n + 1);
    AdmitAccepted(e, b, b');
    TablesGrewTwice(c, b, b');
  }

  lemma AdmissionsEnd(d: Sched, c: Cache, e: Sched, b: Cache, n: nat, b': Cache)
    requires AfterAdmissions(d, c, e, b, n) && TablesGrew(b, b') && forall t: nat :: Entry(b', t) == Entry(b, t)
    ensures AfterAdmissions(d, c, e, b', n)
  {
    AdmitRefused(e, b, b');
    TablesGrewTwice(c, b, b');
  }

  lemma RefusedStops(e: Sched, maxBatch: int, b: Cache, b': Cache)
    requires Sized(e) && e.waiting != [] && SameShape(b, b') && Entry(b', e.waiting[0]) == Entry(b, e.waiting[0])
    requires |b'.free| == |b.free| && ReserveStatus(b, e.waiting[0], Wanted(e, e.waiting[0])).Failure?
    ensures Stopped(e, maxBatch, b')
  {
  }

  lemma EvictingCurrent(d: Sched, e: Sched, k: nat, i: nat, c: Cache, b: Cache, rows: Rows, now: Rows)
    requires Evicting(d, e, k, i, c, b, rows, now) && i < |e.active|
    ensures k < |d.active| && e.active[i] == d.active[k] && e.states == d.states
    ensures d.active[..k + 1] == d.active[..k] + [d.active[k]]
    ensures Unfinished(d.states, d.active[..k + 1]) ==
            Unfinished(d.states, d.active[..k]) + if IsFinished(d.states, d.active[k]) then [] else [d.active[k]]
  {
    assert d.active[..k + 1][..k] == d.active[..k];
  }

  lemma EvictingFreed(d: Sched, e: Sched, k: nat, i: nat, c: Cache, b: Cache, b': Cache, rows: Rows, now: Rows,
                      now': Rows)
    requires Evicting(d, e, k, i, c, b, rows, now) && i < |e.active| && IsFinished(d.states, e.active[i])
    requires Good(b) && Stores(b, now)
    requires b' == GivenBack(b, e.active[i])
    requires now' == if e.active[i] < |b.sequences| then WithoutSequence(now, e.active[i]) else now
    ensures Evicting(d, e.(active := e.active[..i] + e.active[i + 1..]), k + 1, i, c, b', rows, now')
  {
    EvictingCurrent(d, e, k, i, c, b, rows, now);
    if e.active[i] >= |b.sequences| {
      FreedAlready(b, now, e.active[i]);
    }
    FreedNext(d, d.active[..k], d.active[k], c, b, b', rows, now, now');
  }

  lemma EvictingKept(d: Sched, e: Sched, k: nat, i: nat, c: Cache, b: Cache, rows: Rows, now: Rows)
    requires Evicting(d, e, k, i, c, b, rows, now) && i < |e.active| && !IsFinished(d.states, e.active[i])
    ensures Evicting(d, e, k + 1, i + 1, c, b, rows, now)
  {
    EvictingCurrent(d, e, k, i, c, b, rows, now);
    FreedSkip(d, d.active[..k], d.active[k], c, b, rows, now);
  }

  lemma EvictingNext(d: Sched, e: Sched, e': Sched, k: nat, i: nat, next: nat, c: Cache, b: Cache, b': Cache,
                     rows: Rows, now: Rows, now': Rows)
    requires Sized(d) && Good(b) && Stores(b, now)
    requires Evicting(d, e, k, i, c, b, rows, now) && LookedAt(e, e', i, next, b, b', now, now')
    ensures k < |d.active| && Evicting(d, e', k + 1, next, c, b', rows, now')
  {
    EvictingCurrent(d, e, k, i, c, b, rows, now);
    if IsFinished(d.states, e.active[i]) {
      EvictingFreed(d, e, k, i, c, b, b', rows, now, now');
    } else {
      EvictingKept(d, e, k, i, c, b, rows, now);
    }
  }

  lemma EvictingBelow(d: Sched, e: Sched, k: nat, i: nat, c: Cache, b: Cache, rows: Rows, now: Rows)
    requires Sized(d) && Evicting(d, e, k, i, c, b, rows, now) && i < |e.active|
    ensures e.active[i] < |e.states| && k < |d.active|
  {
    EvictingCurrent(d, e, k, i, c, b, rows, now);
  }

  lemma EvictingDone(d: Sched, e: Sched, k: nat, i: nat, c: Cache, b: Cache, rows: Rows, now: Rows)
    requires Evicting(d, e, k, i, c, b, rows, now) && i >= |e.active|
    ensures k == |d.active| && e == Evicted(d) && b == FreedAll(d.states, d.active, c)
    ensures FinishedFreed(d, d.active, c, b) && RowsFreed(d, d.active, rows, now)
  {
    assert d.active[..|d.active|] == d.active;
  }

  lemma CollectingStart(d: Sched)
    requires Sized(d)
    ensures Collecting(d, d, 0, [])
  {
  }

  lemma CollectingNext(d: Sched, e: Sched, i: nat, outputs: seq<Output>)
    requires Collecting(d, e, i, outputs) && i < |d.states|
    ensures |e.states| == |e.tickets| == |d.states| && Collected(d, i + 1) == CollectOne(e, i)
    ensures Collecting(d, CollectOne(e, i), i + 1,
              if Collectable(e, i) then outputs + [Output(e.states[i].id, e.states[i].prompt, e.states[i].generated)]
              else outputs)
  {
    CollectedSlots(d, i);
    if Collectable(e, i) {
      HandedOutNext(d, e, outputs, i);
    }
  }

  lemma CollectingDone(d: Sched, e: Sched, outputs: seq<Output>)
    requires Collecting(d, e, |d.states|, outputs)
    ensures Sized(e) && e.active == d.active && forall i: nat :: !Collectable(e, i)
  {
    CollectedSlots(d, |d.states|);
  }
}
