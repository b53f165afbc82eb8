/** The request life cycle as a value: slots, queues and a ledger of accepted and collected requests. */
module BatchSpec {
  import opened Arithmetic
  import opened PagedCacheSpec
  import opened Sequences
  import opened Wrappers

  datatype Phase = Waiting | Prefilling | Decoding | Finished

  datatype Request = Request(id: int, prompt: seq<int>, maxTokens: int)

  datatype SeqState = SeqState(id: int, phase: Phase, prompt: seq<int>, generated: seq<int>, maxTokens: int,
                               prefilled: int)

  datatype Output = Output(id: int, prompt: seq<int>, generated: seq<int>)

  const BLANK := SeqState(-1, Waiting, [], [], 64, 0)

  /** The scheduler's fields, with three that only the specification uses: the accepted requests in order, the accepted
      request that each slot belongs to, and the accepted requests whose output has been handed out. */
  datatype Sched = Sched(
    states: seq<SeqState>, waiting: seq<nat>, active: seq<nat>, nextId: nat,
    accepted: seq<Request>, tickets: seq<nat>, collected: seq<nat>)

  /** A scheduler that has seen no request. */
  const NO_REQUESTS := Sched([], [], [], 0, [], [], [])

  // ---------------------------------------------------------------- operations on values

  function SlotOf(d: Sched, r: Request): nat {
    if r.id >= 0 then r.id else d.nextId
  }

  function SlotsFor(d: Sched, slot: nat): seq<SeqState> {
    if slot < |d.states| then d.states else d.states + seq(slot + 1 - |d.states|, _ => BLANK)
  }

  function TicketsFor(d: Sched, slot: nat): seq<nat> {
    if slot < |d.tickets| then d.tickets else d.tickets + seq(slot + 1 - |d.tickets|, _ => 0)
  }

  function SubmitStatus(d: Sched, r: Request): Status {
    if r.prompt == [] || r.maxTokens <= 0 then Failure(InvalidArgument)
    else if SlotOf(d, r) < |d.states| && d.states[SlotOf(d, r)].id >= 0 then Failure(InvalidArgument)
    else Success
  }

  /** The request is given a slot and joins the end of the queue. */
  function Submitted(d: Sched, r: Request): Sched
    requires |d.tickets| == |d.states|
  {
    var slot := SlotOf(d, r);
    Sched(SlotsFor(d, slot)[slot := SeqState(slot, Waiting, r.prompt, [], r.maxTokens, 0)],
          d.waiting + [slot], d.active, if d.nextId <= slot then slot + 1 else d.nextId,
          d.accepted + [r], TicketsFor(d, slot)[slot := |d.accepted|], d.collected)
  }

  /** The head of the queue becomes active. */
  function AdmitOne(d: Sched): Sched {
    if d.waiting != [] && d.waiting[0] < |d.states| then
      var i := d.waiting[0];
      d.(states := d.states[i := d.states[i].(phase := Prefilling)], active := d.active + [i],
         waiting := d.waiting[1..])
    else d
  }

  function Admitted(d: Sched, n: nat): Sched {
    if n == 0 then d else AdmitOne(Admitted(d, n - 1))
  }

  function Prefilled(d: Sched, i: nat, n: int): Sched
    requires i < |d.states|
  {
    var s := d.states[i].(prefilled := n);
    d.(states := d.states[i := if n >= |s.prompt| then s.(phase := Decoding) else s])
  }

  function Generated(d: Sched, i: nat, token: int): Sched
    requires i < |d.states|
  {
    var s := d.states[i].(generated := d.states[i].generated + [token]);
    d.(states := d.states[i := if |s.generated| >= s.maxTokens then s.(phase := Finished) else s])
  }

  function Ended(d: Sched, i: nat): Sched
    requires i < |d.states|
  {
    d.(states := d.states[i := d.states[i].(phase := Finished)])
  }

  predicate IsFinished(states: seq<SeqState>, i: nat) {
    i < |states| && states[i].phase == Finished
  }

  /** The ids whose slot is not finished, in order. */
  function Unfinished(states: seq<SeqState>, ids: seq<nat>): seq<nat> {
    if ids == [] then []
    else
      var last := ids[|ids| - 1];
      Unfinished(states, ids[..|ids| - 1]) + if IsFinished(states, last) then [] else [last]
  }

  function Evicted(d: Sched): Sched {
    d.(active := Unfinished(d.states, d.active))
  }

  predicate Collectable(d: Sched, i: nat) {
    i < |d.states| && d.states[i].phase == Finished && d.states[i].id >= 0
  }

  function CollectOne(d: Sched, i: nat): Sched {
    if Collectable(d, i) && i < |d.tickets| then
      d.(states := d.states[i := d.states[i].(id := -1)], collected := d.collected + [d.tickets[i]])
    else d
  }

  function Collected(d: Sched, n: nat): Sched {
    if n == 0 then d else CollectOne(Collected(d, n - 1), n - 1)
  }

  // ---------------------------------------------------------------- what every run keeps

  ghost predicate Sized(d: Sched) {
    && |d.tickets| == |d.states| <= d.nextId
    && AllBelow(d.waiting, |d.states|) && AllBelow(d.active, |d.states|)
  }

  ghost predicate BatchBounded(d: Sched, maxBatch: int) {
    d.active != [] ==> |d.active| <= maxBatch
  }

  predicate RoomFor(c: Cache, i: nat, tokens: int) {
    tokens <= |Entry(c, i).blocks| * c.blockSize
  }

  function Wanted(d: Sched, i: nat): int
    requires i < |d.states|
  {
    |d.states[i].prompt| + d.states[i].maxTokens
  }

  /** Every active sequence owns the blocks for its whole prompt and all tokens it may generate. */
  ghost predicate Roomy(d: Sched, c: Cache) {
    forall k :: 0 <= k < |d.active| ==> d.active[k] < |d.states| && RoomFor(c, d.active[k], Wanted(d, d.active[k]))
  }

  // ---------------------------------------------------------------- what disciplined runs keep

  predicate InUse(d: Sched, i: nat) {
    i < |d.states| && d.states[i].id >= 0
  }

  ghost predicate SlotGood(d: Sched, i: nat)
    requires i < |d.states|
  {
    var s := d.states[i];
    && (s.id == -1 || s.id == i)
    && (i in d.waiting ==> s.id == i && s.phase == Waiting)
    && (i in d.active ==> s.phase != Waiting)
    && (s.id == i && i !in d.waiting && i !in d.active ==> s.phase == Finished)
    && (s.id == -1 && i in d.active ==> s.phase == Finished)
  }

  /** A slot in use carries the prompt and limit of its accepted request and never too many tokens. */
  ghost predicate SlotFaithful(d: Sched, i: nat)
    requires i < |d.states| == |d.tickets|
  {
    var s := d.states[i];
    s.id >= 0 ==>
      && d.tickets[i] < |d.accepted|
      && s.prompt == d.accepted[d.tickets[i]].prompt && s.maxTokens == d.accepted[d.tickets[i]].maxTokens
      && |s.generated| <= s.maxTokens && (s.phase != Finished ==> |s.generated| < s.maxTokens)
  }

  ghost predicate SlotsGood(d: Sched)
    requires |d.tickets| == |d.states|
  {
    forall i: nat :: i < |d.states| ==> SlotGood(d, i) && SlotFaithful(d, i)
  }

  /** First in, first out: the queue holds the latest accepted requests, in the order in which they were accepted. */
  ghost predicate Fifo(d: Sched) {
    && |d.waiting| <= |d.accepted|
    && forall j :: 0 <= j < |d.waiting| ==>
         d.waiting[j] < |d.tickets| && d.tickets[d.waiting[j]] == |d.accepted| - |d.waiting| + j
  }

  ghost predicate HasTicket(d: Sched, i: nat, t: nat) {
    InUse(d, i) && i < |d.tickets| && d.tickets[i] == t
  }

  /** Each accepted request is either in exactly one slot or has been collected exactly once. */
  ghost predicate Ledger(d: Sched) {
    && NoDuplicates(d.collected)
    && (forall t :: t in d.collected ==> t < |d.accepted|)
    && (forall i: nat, t: nat :: HasTicket(d, i, t) ==> t !in d.collected)
    && (forall i: nat, j: nat, t: nat :: HasTicket(d, i, t) && HasTicket(d, j, t) ==> i == j)
    && (forall t: nat :: t < |d.accepted| && t !in d.collected ==> exists i: nat :: HasTicket(d, i, t))
  }

  ghost predicate Orderly(d: Sched) {
    Sized(d) && NoDuplicates(d.waiting + d.active) && SlotsGood(d) && Fifo(d) && Ledger(d)
  }

  // ---------------------------------------------------------------- the cache underneath

  /** Tables only gained blocks at their ends; lengths and rows stay. */
  ghost predicate TablesGrew(c: Cache, c': Cache) {
    && c'.layers == c.layers && SameShape(c, c')
    && forall t: nat :: Entry(c', t).length == Entry(c, t).length && Entry(c, t).blocks <= Entry(c', t).blocks
  }

  /** Only active sequences own blocks. */
  ghost predicate OnlyActiveOwn(d: Sched, c: Cache) {
    forall t: nat :: Entry(c, t).blocks != [] ==> t in d.active
  }

  /** Exactly the finished active sequences lost their blocks. */
  ghost predicate FinishedFreed(d: Sched, ids: seq<nat>, c: Cache, c': Cache) {
    && SameShape(c, c') && c'.layers == c.layers
    && forall t: nat :: Entry(c', t) == if t in ids && IsFinished(d.states, t) then SequenceEntry(0, [])
                                        else Entry(c, t)
  }

  ghost predicate RowsFreed(d: Sched, ids: seq<nat>, rows: Rows, rows': Rows) {
    && (forall key: (nat, nat, nat) :: key in rows' <==> key in rows && !(key.0 in ids && IsFinished(d.states, key.0)))
    && (forall key: (nat, nat, nat) :: key in rows' ==> key in rows && rows'[key] == rows[key])
  }

  /** Why the admission loop ends: nobody waits, the batch is full, or the head request does not get its blocks. */
  ghost predicate Stopped(d: Sched, maxBatch: int, c: Cache) {
    || d.waiting == []
    || |d.active| >= maxBatch
    || (d.waiting[0] < |d.states| && ReserveStatus(c, d.waiting[0], Wanted(d, d.waiting[0])).Failure?)
  }

  /** Output k belongs to the k-th newly collected ticket: its slot's tokens at the time of the call. */
  ghost predicate HandedOut(d: Sched, d': Sched, outputs: seq<Output>) {
    && |d'.collected| == |d.collected| + |outputs| && d.collected <= d'.collected
    && forall k :: 0 <= k < |outputs| ==> OutputFits(d, outputs[k], d'.collected[|d.collected| + k])
  }

  ghost predicate OutputFits(d: Sched, o: Output, ticket: nat) {
    exists i: nat :: Collectable(d, i) && i < |d.tickets| && d.tickets[i] == ticket
                     && o == Output(d.states[i].id, d.states[i].prompt, d.states[i].generated)
  }

  /** After n admissions: what became of the queue and the batch, and what the scheduler and cache still promise. */
  ghost predicate AfterAdmissions(d: Sched, c: Cache, e: Sched, b: Cache, n: nat) {
    && n <= |d.waiting| && e == Admitted(d, n)
    && e.waiting == d.waiting[n..] && e.active == d.active + d.waiting[..n]
    && TablesGrew(c, b)
    && (Orderly(d) ==> Orderly(e))
    && (Roomy(d, c) ==> Roomy(e, b))
    && (OnlyActiveOwn(d, c) ==> OnlyActiveOwn(e, b))
  }

  /** What the admission loop leaves: all promises kept, some of the queue admitted, and a reason to have stopped. */
  ghost predicate AdmissionDone(d: Sched, c: Cache, v: World, maxBatch: int) {
    && Sized(v.d) && Good(v.c) && BatchBounded(v.d, maxBatch)
    && (maxBatch > 0 && Initialized(c) ==> Stopped(v.d, maxBatch, v.c))
    && exists n: nat :: AfterAdmissions(d, c, v.d, v.c, n)
  }

  /** The first k active ids have been looked at; i of them stay. */
  ghost predicate Evicting(d: Sched, e: Sched, k: nat, i: nat, c: Cache, b: Cache, rows: Rows, now: Rows) {
    && k <= |d.active| && i == |Unfinished(d.states, d.active[..k])|
    && e == d.(active := Unfinished(d.states, d.active[..k]) + d.active[k..])
    && b == FreedAll(d.states, d.active[..k], c) && FinishedFreed(d, d.active[..k], c, b)
    && RowsFreed(d, d.active[..k], rows, now)
  }

  /** The first i slots have been looked at. */
  ghost predicate Collecting(d: Sched, e: Sched, i: nat, outputs: seq<Output>) {
    Sized(d) && i <= |d.states| && e == Collected(d, i) && HandedOut(d, e, outputs)
  }

  // ---------------------------------------------------------------- whole runs

  /** A scheduler together with the cache it shares with the model. */
  datatype World = World(d: Sched, c: Cache)

  /** Admission from the head of the queue until nobody waits, the batch is full, or the head does not get its
      blocks. */
  function AdmitAll(w: World, maxBatch: int): World
    decreases |w.d.waiting|
  {
    if w.d.waiting == [] || |w.d.active| >= maxBatch || !Initialized(w.c) || w.d.waiting[0] >= |w.d.states| then w
    else
      var i, total := w.d.waiting[0], Wanted(w.d, w.d.waiting[0]);
      if ReserveStatus(w.c, i, total).Success? then
        AdmitAll(World(AdmitOne(w.d), AfterReserve(w.c, i, total)), maxBatch)
      else World(w.d, AfterReserve(w.c, i, total))
  }

  /** The finished ones among ids give their blocks back, in order. */
  function FreedAll(states: seq<SeqState>, ids: seq<nat>, c: Cache): Cache {
    if ids == [] then c
    else
      var b := FreedAll(states, ids[..|ids| - 1], c);
      if IsFinished(states, ids[|ids| - 1]) then GivenBack(b, ids[|ids| - 1]) else b
  }

  /** What a caller may do next; Write stands for any write to the cache, whoever makes it. */
  datatype Event =
    | Submit(request: Request)
    | Admit
    | Progress(id: nat, tokens: int)
    | Token(id: nat, token: int)
    | Finish(id: nat)
    | Evict
    | Collect
    | Write(seqId: int, layer: int, start: int, count: int, layers: seq<Layer>)

  function Written(c: Cache, e: Event): Cache
    requires e.Write?
  {
    if e.start < 0 || e.count <= 0 || e.layer < 0 || e.layer >= |c.layers| then c
    else
      var after := AfterReserve(c, e.seqId, e.start + e.count);
      if ReserveStatus(c, e.seqId, e.start + e.count).Success? && 0 <= e.seqId < |after.sequences| then
        WithLength(after.(layers := e.layers), e.seqId, Max(Entry(c, e.seqId).length, e.start + e.count))
      else after
  }

  function Apply(w: World, e: Event, maxBatch: int): World {
    match e
    case Submit(r) =>
      if SubmitStatus(w.d, r).Success? && |w.d.tickets| == |w.d.states| then w.(d := Submitted(w.d, r)) else w
    case Admit => AdmitAll(w, maxBatch)
    case Progress(i, n) => if i < |w.d.states| then w.(d := Prefilled(w.d, i, n)) else w
    case Token(i, t) => if i < |w.d.states| then w.(d := Generated(w.d, i, t)) else w
    case Finish(i) => if i < |w.d.states| then w.(d := Ended(w.d, i)) else w
    case Evict => World(Evicted(w.d), FreedAll(w.d.states, w.d.active, w.c))
    case Collect => w.(d := Collected(w.d, |w.d.states|))
    case Write(_, _, _, _, _) => w.(c := Written(w.c, e))
  }

  function Run(w: World, events: seq<Event>, maxBatch: int): World {
    if events == [] then w
    else Apply(Run(w, events[..|events| - 1], maxBatch), events[|events| - 1], maxBatch)
  }

  ghost predicate SameSizes(a: seq<Layer>, b: seq<Layer>) {
    |a| == |b| && forall l :: 0 <= l < |a| ==> |a[l].k| == |b[l].k| && |a[l].v| == |b[l].v|
  }

  /** No id is given to a longer request while it is still in the active list; writes replace floats, not storage. */
  ghost predicate Careful(w: World, e: Event) {
    && (e.Submit? ==> SlotOf(w.d, e.request) !in w.d.active ||
                      RoomFor(w.c, SlotOf(w.d, e.request), |e.request.prompt| + e.request.maxTokens))
    && (e.Write? ==> SameSizes(w.c.layers, e.layers))
  }

  /** Only active, unfinished ids are marked, and an id is reused only after it has been evicted. */
  ghost predicate Disciplined(w: World, e: Event) {
    && (e.Submit? ==> SlotOf(w.d, e.request) !in w.d.active)
    && (e.Progress? || e.Token? || e.Finish? ==> e.id in w.d.active && !IsFinished(w.d.states, e.id))
    && (e.Write? ==> SameSizes(w.c.layers, e.layers))
  }

  ghost predicate AllCareful(w: World, events: seq<Event>, maxBatch: int) {
    forall k :: 0 <= k < |events| ==> Careful(Run(w, events[..k], maxBatch), events[k])
  }

  ghost predicate AllDisciplined(w: World, events: seq<Event>, maxBatch: int) {
    forall k :: 0 <= k < |events| ==> Disciplined(Run(w, events[..k], maxBatch), events[k])
  }

  /** Rows are written for active sequences only, and into the storage that exists. */
  ghost predicate WritesActive(w: World, e: Event) {
    e.Write? ==> e.seqId in w.d.active && SameSizes(w.c.layers, e.layers)
  }

  ghost predicate AllWriteActive(w: World, events: seq<Event>, maxBatch: int) {
    forall k :: 0 <= k < |events| ==> WritesActive(Run(w, events[..k], maxBatch), events[k])
  }

  ghost predicate LimitsPositive(d: Sched) {
    forall i :: 0 <= i < |d.states| ==> d.states[i].maxTokens > 0
  }

  /** The cache c0 has become c, and its blocks are with the active sequences or free. */
  ghost predicate Exclusive(w: World, c0: Cache, maxBatch: int) {
    && Good(w.c) && Initialized(w.c) && SameShape(c0, w.c)
    && Sized(w.d) && BatchBounded(w.d, maxBatch) && LimitsPositive(w.d) && OnlyActiveOwn(w.d, w.c)
  }

  /** The admission guarantee. */
  ghost predicate Guaranteed(w: World, maxBatch: int) {
    Good(w.c) && Sized(w.d) && BatchBounded(w.d, maxBatch) && Roomy(w.d, w.c)
  }

  /** The effect of looking at the active id at index i: a finished one goes and gives its blocks back. */
  ghost predicate LookedAt(e: Sched, e': Sched, i: nat, next: nat, b: Cache, b': Cache, now: Rows, now': Rows) {
    && i < |e.active| && e.active[i] < |e.states|
    && var s := e.active[i];
       if e.states[s].phase == Finished then
         && next == i && e' == e.(active := e.active[..i] + e.active[i + 1..])
         && b' == GivenBack(b, s) && now' == (if s < |b.sequences| then WithoutSequence(now, s) else now)
       else
         next == i + 1 && e' == e && b' == b && now' == now
  }
}
