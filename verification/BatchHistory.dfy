/** What a request's slot holds, read off the list of events alone: which submission it belongs to, which tokens it was
    given since and in which order, and how far it has come. */
module HistorySpec {
  import opened BatchSpec

  function TokenOf(e: Event, i: nat): seq<int> {
    if e.Token? && e.id == i then [e.token] else []
  }

  /** The tokens that the events report for sequence i, first to last. */
  function TokensFor(events: seq<Event>, i: nat): seq<int> {
    if events == [] then [] else TokenOf(events[0], i) + TokensFor(events[1..], i)
  }

  /** Event a submits a request that is accepted into slot i. */
  ghost predicate AcceptedAt(w: World, events: seq<Event>, maxBatch: int, a: nat, i: nat) {
    && a < |events| && events[a].Submit?
    && var d := Run(w, events[..a], maxBatch).d;
       SubmitStatus(d, events[a].request).Success? && SlotOf(d, events[a].request) == i
  }

  ghost predicate LastAcceptedAt(w: World, events: seq<Event>, maxBatch: int, a: nat, i: nat) {
    AcceptedAt(w, events, maxBatch, a, i) && forall b: nat :: a < b ==> !AcceptedAt(w, events, maxBatch, b, i)
  }

  /** Slot i belongs to the request of event a, with exactly the tokens reported for it since. */
  ghost predicate Explained(w: World, events: seq<Event>, maxBatch: int, a: nat, i: nat) {
    && LastAcceptedAt(w, events, maxBatch, a, i)
    && var d, r := Run(w, events, maxBatch).d, events[a].request;
       && i < |d.states| == |d.tickets| && d.tickets[i] == |Run(w, events[..a], maxBatch).d.accepted|
       && d.states[i].id == i && d.states[i].prompt == r.prompt && d.states[i].maxTokens == r.maxTokens
       && d.states[i].generated == TokensFor(events[a + 1..], i)
  }

  /** Every slot in use is explained. */
  ghost predicate AllExplained(w: World, events: seq<Event>, maxBatch: int) {
    var d := Run(w, events, maxBatch).d;
    && |d.states| == |d.tickets|
    && forall i: nat :: InUse(d, i) ==> exists a: nat :: Explained(w, events, maxBatch, a, i)
  }

  /** The events end request r of sequence i: it is marked as finished, or has all its tokens. */
  ghost predicate EndedBy(events: seq<Event>, i: nat, r: Request) {
    Finish(i) in events || |TokensFor(events, i)| >= r.maxTokens
  }

  /** The events report the whole prompt of request r of sequence i as processed. */
  ghost predicate PrefilledBy(events: seq<Event>, i: nat, r: Request) {
    exists n :: n >= |r.prompt| && Progress(i, n) in events
  }

  /** The phase of the slot of the request of event a. */
  ghost predicate PhaseExplained(w: World, events: seq<Event>, maxBatch: int, a: nat, i: nat)
    requires a < |events| && events[a].Submit? && i < |Run(w, events, maxBatch).d.states|
  {
    var phase, since, r := Run(w, events, maxBatch).d.states[i].phase, events[a + 1..], events[a].request;
    && (phase == Finished <==> EndedBy(since, i, r))
    && (phase == Decoding <==> !EndedBy(since, i, r) && PrefilledBy(since, i, r))
  }

  ghost predicate PhasesExplained(w: World, events: seq<Event>, maxBatch: int) {
    forall a: nat, i: nat :: LastAcceptedAt(w, events, maxBatch, a, i) && InUse(Run(w, events, maxBatch).d, i) ==>
                               PhaseExplained(w, events, maxBatch, a, i)
  }

  /** Output o answers the request of event a, which was the last one accepted into slot i, with its number among the
      accepted requests as ticket: its id, its prompt, and the tokens reported for it since. */
  ghost predicate Answers(w: World, events: seq<Event>, maxBatch: int, o: Output, ticket: nat, a: nat, i: nat) {
    && LastAcceptedAt(w, events, maxBatch, a, i)
    && ticket == |Run(w, events[..a], maxBatch).d.accepted|
    && o == Output(i, events[a].request.prompt, TokensFor(events[a + 1..], i))
  }

  ghost predicate Answered(w: World, events: seq<Event>, maxBatch: int, o: Output, ticket: nat) {
    exists a: nat, i: nat :: Answers(w, events, maxBatch, o, ticket, a, i)
  }

  /** What an event that gives slot i to nobody leaves of it: at most its tokens, phase, progress and freedom change. */
  ghost predicate SlotKept(d: Sched, d': Sched, e: Event, i: nat) {
    && |d'.states| == |d'.tickets| && i < |d.states| == |d.tickets| <= |d'.states|
    && d'.tickets[i] == d.tickets[i]
    && d'.states[i].prompt == d.states[i].prompt && d'.states[i].maxTokens == d.states[i].maxTokens
    && d'.states[i].generated == d.states[i].generated + TokenOf(e, i)
    && (d'.states[i].id == d.states[i].id || d'.states[i].id == -1)
  }
}

module BatchHistory {
  import opened BatchRuns
  import opened BatchSpec
  import opened HistorySpec
  import opened PagedCacheSpec

  // ---------------------------------------------------------------- one event and one slot

  /** Admission changes phases only, and only of waiting slots. */
  lemma {:induction false} AdmitAllSlots(w: World, maxBatch: int)
    ensures var d := AdmitAll(w, maxBatch).d;
            && |d.states| == |w.d.states| && d.tickets == w.d.tickets
            && forall i :: 0 <= i < |d.states| ==>
                 && d.states[i] == w.d.states[i].(phase := d.states[i].phase)
                 && (d.states[i].phase == w.d.states[i].phase || (i in w.d.waiting && d.states[i].phase == Prefilling))
    decreases |w.d.waiting|
  {
    if w.d.waiting != [] && |w.d.active| < maxBatch && Initialized(w.c) && w.d.waiting[0] < |w.d.states| {
      var i, total := w.d.waiting[0], Wanted(w.d, w.d.waiting[0]);
      if ReserveStatus(w.c, i, total).Success? {
        AdmitAllSlots(World(AdmitOne(w.d), AfterReserve(w.c, i, total)), maxBatch);
      }
    }
  }

  lemma {:induction false} CollectedStates(d: Sched, n: nat)
    ensures var e := Collected(d, n);
            && |e.states| == |d.states| && e.tickets == d.tickets
            && forall i :: 0 <= i < |d.states| ==>
                 e.states[i] == d.states[i] || e.states[i] == d.states[i].(id := -1)
  {
    if n > 0 {
      CollectedStates(d, n - 1);
    }
  }

  lemma EventKeepsSlot(w: World, e: Event, maxBatch: int, i: nat)
    requires i < |w.d.states| == |w.d.tickets|
    requires !(e.Submit? && SubmitStatus(w.d, e.request).Success? && SlotOf(w.d, e.request) == i)
    ensures SlotKept(w.d, Apply(w, e, maxBatch).d, e, i)
  {
    AppendNone(w.d.states[i].generated);
    match e
    case Admit => AdmitAllSlots(w, maxBatch);
    case Collect => CollectedStates(w.d, |w.d.states|);
    case _ =>
  }

  lemma AppendNone(s: seq<int>)
    ensures s + [] == s
  {
  }

  /** A slot that comes into use has just been given to a request. */
  lemma NewlyUsed(w: World, e: Event, maxBatch: int, i: nat)
    requires |w.d.states| == |w.d.tickets|
    ensures var d := Apply(w, e, maxBatch).d;
            && |d.states| == |d.tickets|
            && (InUse(d, i) && !InUse(w.d, i) ==>
                  e.Submit? && SubmitStatus(w.d, e.request).Success? && SlotOf(w.d, e.request) == i)
  {
    match e
    case Admit => AdmitAllSlots(w, maxBatch);
    case Collect => CollectedStates(w.d, |w.d.states|);
    case _ =>
  }

  // ---------------------------------------------------------------- one event and the history

  lemma {:induction false} TokensForAppend(events: seq<Event>, e: Event, i: nat)
    ensures TokensFor(events + [e], i) == TokensFor(events, i) + TokenOf(e, i)
  {
    if events == [] {
      assert (events + [e])[1..] == [];
    } else {
      assert (events + [e])[1..] == events[1..] + [e];
      TokensForAppend(events[1..], e, i);
    }
  }

  /** Whether an event was accepted does not depend on what comes later. */
  lemma AcceptedEarlier(w: World, events: seq<Event>, e: Event, maxBatch: int, a: nat, i: nat)
    requires a < |events|
    ensures AcceptedAt(w, events + [e], maxBatch, a, i) <==> AcceptedAt(w, events, maxBatch, a, i)
  {
    assert (events + [e])[..a] == events[..a];
  }

  lemma AcceptedLast(w: World, events: seq<Event>, e: Event, maxBatch: int, i: nat)
    ensures AcceptedAt(w, events + [e], maxBatch, |events|, i) <==>
              && e.Submit? && SubmitStatus(Run(w, events, maxBatch).d, e.request).Success?
              && SlotOf(Run(w, events, maxBatch).d, e.request) == i
  {
    assert (events + [e])[..|events|] == events;
  }

  lemma RunOneMore(w: World, events: seq<Event>, e: Event, maxBatch: int)
    ensures Run(w, events + [e], maxBatch) == Apply(Run(w, events, maxBatch), e, maxBatch)
  {
    assert (events + [e])[..|events + [e]| - 1] == events;
  }

  lemma StillLast(w: World, events: seq<Event>, e: Event, maxBatch: int, a: nat, i: nat)
    requires !AcceptedAt(w, events + [e], maxBatch, |events|, i) && a < |events|
    ensures LastAcceptedAt(w, events + [e], maxBatch, a, i) <==> LastAcceptedAt(w, events, maxBatch, a, i)
  {
    forall b: nat | b < |events|
      ensures AcceptedAt(w, events + [e], maxBatch, b, i) <==> AcceptedAt(w, events, maxBatch, b, i)
    {
      AcceptedEarlier(w, events, e, maxBatch, b, i);
    }
  }

  lemma SinceOneMore(events: seq<Event>, e: Event, a: nat)
    requires a < |events|
    ensures (events + [e])[a + 1..] == events[a + 1..] + [e] && (events + [e])[..a] == events[..a]
    ensures (events + [e])[a] == events[a]
  {
  }

  lemma ExplainedNext(w: World, events: seq<Event>, e: Event, maxBatch: int, a: nat, i: nat)
    requires Explained(w, events, maxBatch, a, i) && !AcceptedAt(w, events + [e], maxBatch, |events|, i)
    requires InUse(Run(w, events + [e], maxBatch).d, i)
    ensures Explained(w, events + [e], maxBatch, a, i)
  {
    AcceptedLast(w, events, e, maxBatch, i);
    StillLast(w, events, e, maxBatch, a, i);
    RunOneMore(w, events, e, maxBatch);
    EventKeepsSlot(Run(w, events, maxBatch), e, maxBatch, i);
    SinceOneMore(events, e, a);
    TokensForAppend(events[a + 1..], e, i);
  }

  lemma ExplainedFirst(w: World, events: seq<Event>, e: Event, maxBatch: int, i: nat)
    requires AcceptedAt(w, events + [e], maxBatch, |events|, i)
    requires var d := Run(w, events, maxBatch).d; |d.states| == |d.tickets|
    ensures Explained(w, events + [e], maxBatch, |events|, i)
  {
    AcceptedLast(w, events, e, maxBatch, i);
    RunOneMore(w, events, e, maxBatch);
    assert (events + [e])[|events| + 1..] == [] && (events + [e])[..|events|] == events;
  }

  lemma AllExplainedNext(w: World, events: seq<Event>, e: Event, maxBatch: int)
    requires AllExplained(w, events, maxBatch)
    ensures AllExplained(w, events + [e], maxBatch)
  {
    RunOneMore(w, events, e, maxBatch);
    var now := Run(w, events, maxBatch);
    NewlyUsed(now, e, maxBatch, 0);
    forall i: nat | InUse(Apply(now, e, maxBatch).d, i)
      ensures exists a: nat :: Explained(w, events + [e], maxBatch, a, i)
    {
      AcceptedLast(w, events, e, maxBatch, i);
      if AcceptedAt(w, events + [e], maxBatch, |events|, i) {
        ExplainedFirst(w, events, e, maxBatch, i);
      } else {
        NewlyUsed(now, e, maxBatch, i);
        var a: nat :| Explained(w, events, maxBatch, a, i);
        ExplainedNext(w, events, e, maxBatch, a, i);
      }
    }
  }

  /** In every run from the start, whatever the events are: a slot in use belongs to the last request accepted into it,
      and its tokens are those reported for its id since then, in that order. */
  lemma {:induction false} RunExplained(w: World, events: seq<Event>, maxBatch: int)
    requires w.d == NO_REQUESTS
    ensures AllExplained(w, events, maxBatch)
  {
    if events == [] {
      NothingUsed(w, maxBatch);
    } else {
      var shorter, e := events[..|events| - 1], events[|events| - 1];
      assert events == shorter + [e];
      RunExplained(w, shorter, maxBatch);
      AllExplainedNext(w, shorter, e, maxBatch);
    }
  }

  lemma NothingUsed(w: World, maxBatch: int)
    requires w.d == NO_REQUESTS
    ensures AllExplained(w, [], maxBatch)
  {
    assert Run(w, [], maxBatch) == w;
  }

  /** Main result on outputs: collecting after any run from the start, each output is the answer to one accepted
      request: its id, its prompt, and exactly the tokens reported for that id since its acceptance, in the order of the
      events. */
  lemma OutputsAreReports(w: World, events: seq<Event>, maxBatch: int, outputs: seq<Output>, k: nat)
    requires w.d == NO_REQUESTS && k < |outputs|
    requires var d := Run(w, events, maxBatch).d; HandedOut(d, Collected(d, |d.states|), outputs)
    ensures var d := Run(w, events, maxBatch).d;
            Answered(w, events, maxBatch, outputs[k], Collected(d, |d.states|).collected[|d.collected| + k])
  {
    var d := Run(w, events, maxBatch).d;
    var t := Collected(d, |d.states|).collected[|d.collected| + k];
    var i := AnsweredSlot(d, outputs[k], t);
    RunExplained(w, events, maxBatch);
    var a: nat :| Explained(w, events, maxBatch, a, i);
    SlotAnswers(w, events, maxBatch, outputs[k], t, a, i);
  }

  lemma AnsweredSlot(d: Sched, o: Output, t: nat) returns (i: nat)
    requires OutputFits(d, o, t)
    ensures InUse(d, i) && i < |d.tickets| && d.tickets[i] == t
    ensures o == Output(d.states[i].id, d.states[i].prompt, d.states[i].generated)
  {
    i :| Collectable(d, i) && i < |d.tickets| && d.tickets[i] == t
         && o == Output(d.states[i].id, d.states[i].prompt, d.states[i].generated);
  }

  lemma SlotAnswers(w: World, events: seq<Event>, maxBatch: int, o: Output, t: nat, a: nat, i: nat)
    requires Explained(w, events, maxBatch, a, i) && t == Run(w, events, maxBatch).d.tickets[i]
    requires var s := Run(w, events, maxBatch).d.states[i]; o == Output(s.id, s.prompt, s.generated)
    ensures Answers(w, events, maxBatch, o, t, a, i)
  {
  }

  // ---------------------------------------------------------------- phases

  /** How a disciplined event moves the phase of a slot that stays in use. */
  lemma PhaseMoves(w: World, e: Event, maxBatch: int, i: nat)
    requires Orderly(w.d) && Disciplined(w, e) && InUse(w.d, i)
    requires !(e.Submit? && SubmitStatus(w.d, e.request).Success? && SlotOf(w.d, e.request) == i)
    ensures i < |Apply(w, e, maxBatch).d.states|
    ensures var s, s' := w.d.states[i], Apply(w, e, maxBatch).d.states[i];
            && (e == Finish(i) ==> s'.phase == Finished)
            && (e.Token? && e.id == i ==>
                  s.phase != Finished && s'.phase == if |s'.generated| >= s'.maxTokens then Finished else s.phase)
            && (e.Progress? && e.id == i ==>
                  s.phase != Finished && s'.phase == if e.tokens >= |s.prompt| then Decoding else s.phase)
            && (e != Finish(i) && !(e.Token? && e.id == i) && !(e.Progress? && e.id == i) ==>
                  s'.phase == s.phase || (s.phase == Waiting && s'.phase == Prefilling))
  {
    match e
    case Admit =>
      AdmitAllSlots(w, maxBatch);
      assert SlotGood(w.d, i);
    case Collect => CollectedStates(w.d, |w.d.states|);
    case _ =>
  }

  /** What one more event adds to the end and to the prefill of a request. */
  lemma EndedOneMore(events: seq<Event>, e: Event, i: nat, r: Request)
    ensures EndedBy(events + [e], i, r) <==>
              || EndedBy(events, i, r) || e == Finish(i)
              || |TokensFor(events, i) + TokenOf(e, i)| >= r.maxTokens
    ensures PrefilledBy(events + [e], i, r) <==>
              PrefilledBy(events, i, r) || (e.Progress? && e.id == i && e.tokens >= |r.prompt|)
  {
    TokensForAppend(events, e, i);
    if PrefilledBy(events, i, r) {
      var n :| n >= |r.prompt| && Progress(i, n) in events;
      assert Progress(i, n) in events + [e];
    }
  }

  lemma PhaseNext(w: World, events: seq<Event>, e: Event, maxBatch: int, a: nat, i: nat)
    requires Explained(w, events, maxBatch, a, i) && PhaseExplained(w, events, maxBatch, a, i)
    requires Orderly(Run(w, events, maxBatch).d) && Disciplined(Run(w, events, maxBatch), e)
    requires Explained(w, events + [e], maxBatch, a, i)
    ensures PhaseExplained(w, events + [e], maxBatch, a, i)
  {
    RunOneMore(w, events, e, maxBatch);
    SinceOneMore(events, e, a);
    AcceptedLast(w, events, e, maxBatch, i);
    PhaseMoves(Run(w, events, maxBatch), e, maxBatch, i);
    EndedOneMore(events[a + 1..], e, i, events[a].request);
    TokensForAppend(events[a + 1..], e, i);
  }

  lemma PhaseFirst(w: World, events: seq<Event>, e: Event, maxBatch: int, i: nat)
    requires Explained(w, events + [e], maxBatch, |events|, i)
    ensures PhaseExplained(w, events + [e], maxBatch, |events|, i)
  {
    AcceptedLast(w, events, e, maxBatch, i);
    RunOneMore(w, events, e, maxBatch);
    assert (events + [e])[|events| + 1..] == [];
  }

  /** The last acceptance is one event. */
  lemma LastIsUnique(w: World, events: seq<Event>, maxBatch: int, a: nat, b: nat, i: nat)
    requires LastAcceptedAt(w, events, maxBatch, a, i) && LastAcceptedAt(w, events, maxBatch, b, i)
    ensures a == b
  {
  }

  lemma ExplainedAt(w: World, events: seq<Event>, maxBatch: int, a: nat, i: nat)
    requires w.d == NO_REQUESTS && LastAcceptedAt(w, events, maxBatch, a, i)
    requires InUse(Run(w, events, maxBatch).d, i)
    ensures Explained(w, events, maxBatch, a, i)
  {
    RunExplained(w, events, maxBatch);
    var b: nat :| Explained(w, events, maxBatch, b, i);
    LastIsUnique(w, events, maxBatch, a, b, i);
  }

  lemma PhasesNext(w: World, events: seq<Event>, e: Event, maxBatch: int, a: nat, i: nat)
    requires w.d == NO_REQUESTS && PhasesExplained(w, events, maxBatch)
    requires Orderly(Run(w, events, maxBatch).d) && Disciplined(Run(w, events, maxBatch), e)
    requires LastAcceptedAt(w, events + [e], maxBatch, a, i) && InUse(Run(w, events + [e], maxBatch).d, i)
    ensures PhaseExplained(w, events + [e], maxBatch, a, i)
  {
    ExplainedAt(w, events + [e], maxBatch, a, i);
    if a == |events| {
      PhaseFirst(w, events, e, maxBatch, i);
    } else {
      RunOneMore(w, events, e, maxBatch);
      AcceptedLast(w, events, e, maxBatch, i);
      NewlyUsed(Run(w, events, maxBatch), e, maxBatch, i);
      StillLast(w, events, e, maxBatch, a, i);
      ExplainedAt(w, events, maxBatch, a, i);
      PhaseNext(w, events, e, maxBatch, a, i);
    }
  }

  lemma AllPhasesNext(w: World, events: seq<Event>, e: Event, maxBatch: int)
    requires w.d == NO_REQUESTS && PhasesExplained(w, events, maxBatch)
    requires Orderly(Run(w, events, maxBatch).d) && Disciplined(Run(w, events, maxBatch), e)
    ensures PhasesExplained(w, events + [e], maxBatch)
  {
    forall a: nat, i: nat
      | LastAcceptedAt(w, events + [e], maxBatch, a, i) && InUse(Run(w, events + [e], maxBatch).d, i)
      ensures PhaseExplained(w, events + [e], maxBatch, a, i)
    {
      PhasesNext(w, events, e, maxBatch, a, i);
    }
  }

  lemma NothingIsOrderly(d: Sched)
    requires d.states == [] && d.waiting == [] && d.active == [] && d.accepted == [] && d.tickets == []
    requires d.collected == []
    ensures Orderly(d)
  {
    assert d.waiting + d.active == [];
    assert Ledger(d) && Fifo(d);
  }

  lemma OrderlyFromStart(w: World, events: seq<Event>, maxBatch: int)
    requires w.d == NO_REQUESTS && Good(w.c) && AllDisciplined(w, events, maxBatch)
    ensures Orderly(Run(w, events, maxBatch).d)
  {
    NothingIsOrderly(w.d);
    RunOrderly(w, events, maxBatch);
  }

  /** In every disciplined run from the start: a request is finished exactly when it was marked so or has all its
      tokens, and until then decodes exactly when its whole prompt was reported as processed. */
  lemma {:induction false} RunPhases(w: World, events: seq<Event>, maxBatch: int)
    requires w.d == NO_REQUESTS && Good(w.c) && AllDisciplined(w, events, maxBatch)
    ensures PhasesExplained(w, events, maxBatch)
  {
    if events == [] {
      NoPhases(w, maxBatch);
    } else {
      RunStep(w, events, maxBatch);
      RunPhases(w, events[..|events| - 1], maxBatch);
      LastPhases(w, events, maxBatch);
    }
  }

  lemma LastPhases(w: World, events: seq<Event>, maxBatch: int)
    requires w.d == NO_REQUESTS && Good(w.c) && AllDisciplined(w, events, maxBatch) && events != []
    requires PhasesExplained(w, events[..|events| - 1], maxBatch)
    ensures PhasesExplained(w, events, maxBatch)
  {
    var shorter, e := events[..|events| - 1], events[|events| - 1];
    assert events == shorter + [e];
    RunStep(w, events, maxBatch);
    OrderlyFromStart(w, shorter, maxBatch);
    AllPhasesNext(w, shorter, e, maxBatch);
  }

  lemma NoPhases(w: World, maxBatch: int)
    ensures PhasesExplained(w, [], maxBatch)
  {
  }
}
