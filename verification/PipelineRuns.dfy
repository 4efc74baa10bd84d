/** The composed service can finish an event, and it can do so before anybody has received the
    result: the acknowledgement waits for the enriched row, not for its delivery. */
module PipelineRuns {
  import opened Types
  import opened Pipeline
  import opened Retry
  import C = Consumer
  import E = Enrichment
  import O = OutboxProtocol
  import Outbox
  import Aggregation
  import Conservation

  /** The event is completed, no handler is left, and its enriched row `r` is in the outbox:
      published and delivered, or pending and never delivered. */
  ghost predicate Finished(t: State, e: EventId, r: Outbox.RowId, delivered: bool) {
    && Conservation.RowIsCompleted(t.c, C.EventKey(e)) && t.c.handlers == map[]
    && r in t.ob.rows && t.ob.rows[r].payload.EnrichedEvent? && t.ob.rows[r].payload.eventId == e
    && (if delivered then t.ob.rows[r].status.Published? && O.Doc(r, t.ob.rows[r].payload) in t.ob.delivered
        else t.ob.rows[r].status.Pending? && forall doc :: doc in t.ob.delivered ==> doc.id != r)
  }

  ghost predicate IsRun(s: State, steps: seq<Step>, e: EventId, r: Outbox.RowId, delivered: bool) {
    && Valid(s, steps) && Aggregation.AllBenign(s, steps, C.EventKey(e))
    && steps != [] && IsAck(steps[|steps| - 1])
    && Finished(Exec(s, steps), e, r, delivered)
  }

  predicate IsAck(x: Step) { x.ca.Some? && x.ca.value.Ack? }

  /** A run of benign steps acknowledges the event last, with or without its result delivered. */
  ghost predicate CanAck(s: State, e: EventId, delivered: bool) {
    exists steps, r :: IsRun(s, steps, e, r, delivered)
  }

  lemma Before(s: State, x: Step, e: EventId, delivered: bool)
    requires Enabled(s, x) && Aggregation.Benign(s, x, C.EventKey(e))
    requires CanAck(Apply(s, x), e, delivered)
    ensures CanAck(s, e, delivered)
  {
    var rest, r :| IsRun(Apply(s, x), rest, e, r, delivered);
    var steps := [x] + rest;
    assert steps[1..] == rest;
    assert IsRun(s, steps, e, r, delivered);
  }

  lemma OutboxStep(c: C.State, en: E.State, ob: O.State, o: O.Action, e: EventId, delivered: bool)
    requires O.Enabled(ob, o) && OutboxAlone(State(c, en, ob), o)
    requires CanAck(State(c, en, O.Apply(ob, o)), e, delivered)
    ensures CanAck(State(c, en, ob), e, delivered)
  {
    Before(State(c, en, ob), Step(None, None, Some(o)), e, delivered);
  }

  lemma StageStep(c: C.State, en: E.State, ob: O.State, b: E.Action, e: EventId, delivered: bool)
    requires E.Enabled(en, b) && OrchestratorAlone(State(c, en, ob), b)
    requires CanAck(State(c, E.Apply(en, b), ob), e, delivered)
    ensures CanAck(State(c, en, ob), e, delivered)
  {
    Before(State(c, en, ob), Step(None, Some(b), None), e, delivered);
  }

  /** The handler at work on the event, and its attempt. */
  ghost predicate AtWork(c: C.State, h: nat, e: EventId) {
    h in c.handlers && c.handlers.Keys == {h} && c.handlers[h].attached && c.handlers[h].pc.Working?
      && c.handlers[h].msg.body.Event? && c.handlers[h].msg.body.eventId == e
  }

  predicate AttemptAt(en: E.State, h: nat, listing: RawListing, e: EventId, pc: E.Pc) {
    h in en.attempts && en.attempts[h] == E.Attempt(listing, e, pc)
  }

  // ---- completing and acknowledging

  lemma AckLast(s: State, h: nat, e: EventId, r: Outbox.RowId, delivered: bool)
    requires h in s.c.handlers && s.c.handlers.Keys == {h} && s.c.handlers[h].pc.Finished?
    requires Finished(s.(c := s.c.(handlers := map[])), e, r, delivered)
    ensures CanAck(s, e, delivered)
  {
    var ack := Step(Some(C.Ack(h)), None, None);
    assert s.c.handlers - {h} == map[];
    assert Apply(s, ack) == s.(c := s.c.(handlers := map[]));
    var steps := [ack];
    assert steps[1..] == [] && Exec(s, steps) == Apply(s, ack);
    assert steps[0] == ack && Conservation.Benign(s.c, C.Ack(h));
    assert Aggregation.Benign(s, steps[0], C.EventKey(e));
    assert Aggregation.AllBenign(Apply(s, steps[0]), steps[1..], C.EventKey(e));
    assert Aggregation.AllBenign(s, steps, C.EventKey(e));
    assert IsRun(s, steps, e, r, delivered);
  }

  lemma CompleteAndAck(c: C.State, en: E.State, ob: O.State, h: nat, e: EventId, r: Outbox.RowId, delivered: bool)
    requires AtWork(c, h, e) && h in en.attempts && en.attempts[h].pc.Published?
    requires r in ob.rows && ob.rows[r].payload.EnrichedEvent? && ob.rows[r].payload.eventId == e
    requires if delivered then ob.rows[r].status.Published? && O.Doc(r, ob.rows[r].payload) in ob.delivered
             else ob.rows[r].status.Pending? && forall doc :: doc in ob.delivered ==> doc.id != r
    ensures CanAck(State(c, en, ob), e, delivered)
  {
    var s, complete := State(c, en, ob), Step(Some(C.Complete(h)), None, None);
    var c1 := C.Apply(c, C.Complete(h));
    assert Conservation.RowIsCompleted(c1, C.EventKey(e));
    AckLast(State(c1, en, ob), h, e, r, delivered);
    Before(s, complete, e, delivered);
  }

  // ---- draining one row

  /** Nobody drains, and `r` is the one row there is to claim. */
  ghost predicate OneToDrain(ob: O.State, r: Outbox.RowId) {
    ob.drainers == map[] && r in ob.rows && ob.rows[r].status.Pending? && Outbox.Claimables(ob.rows, ob.clock) == {r}
  }

  function Claimed(ob: O.State, r: Outbox.RowId): O.State
    requires r in ob.rows
  {
    O.State(Outbox.SetStatus(ob.rows, r, Outbox.Processing(ob.clock)),
            map[0 := O.Publishing(ob.clock, [O.Doc(r, ob.rows[r].payload)])], ob.delivered, ob.clock)
  }

  /** A drain of one row, begun with nothing in hand, takes the row. */
  lemma TakeRow(c: C.State, en: E.State, ob: O.State, r: Outbox.RowId, e: EventId, delivered: bool)
    requires OneToDrain(ob, r) && CanAck(State(c, en, Claimed(ob, r)), e, delivered)
    ensures CanAck(State(c, en, ob.(drainers := map[0 := O.Claiming(ob.clock, 1, [])])), e, delivered)
  {
    var doc := O.Doc(r, ob.rows[r].payload);
    var ob1 := ob.(drainers := map[0 := O.Claiming(ob.clock, 1, [])]);
    assert forall q :: q in ob.rows && Outbox.Claimable(ob.rows[q], ob.clock) ==>
      q in Outbox.Claimables(ob.rows, ob.clock);
    assert r in Outbox.Claimables(ob.rows, ob.clock);
    var ob2 := O.Apply(ob1, O.ClaimNext(0, r));
    assert [] + [doc] == [doc];
    assert ob2.drainers == map[0 := O.Claiming(ob.clock, 0, [doc])];
    assert O.Apply(ob2, O.EndClaim(0)) == Claimed(ob, r);
    OutboxStep(c, en, ob2, O.EndClaim(0), e, delivered);
    OutboxStep(c, en, ob1, O.ClaimNext(0, r), e, delivered);
  }

  lemma DrainClaims(c: C.State, en: E.State, ob: O.State, r: Outbox.RowId, e: EventId, delivered: bool)
    requires OneToDrain(ob, r) && CanAck(State(c, en, Claimed(ob, r)), e, delivered)
    ensures CanAck(State(c, en, ob), e, delivered)
  {
    TakeRow(c, en, ob, r, e, delivered);
    assert O.Apply(ob, O.StartDrain(0, 1)) == ob.(drainers := map[0 := O.Claiming(ob.clock, 1, [])]);
    OutboxStep(c, en, ob, O.StartDrain(0, 1), e, delivered);
  }

  /** The publish raises, and the row goes back to pending. */
  lemma DrainFails(c: C.State, en: E.State, ob: O.State, r: Outbox.RowId, e: EventId, delivered: bool)
    requires OneToDrain(ob, r) && CanAck(State(c, en, ob), e, delivered) && ob.rows[r].payload.EnrichedEvent?
    ensures CanAck(State(c, en, Claimed(ob, r)), e, delivered)
  {
    var doc := O.Doc(r, ob.rows[r].payload);
    var ob0 := Claimed(ob, r);
    var ob1 := O.Apply(ob0, O.PublishRaises(0, false));
    assert ob1.drainers == map[0 := O.Releasing(ob.clock, [doc])];
    var ob2 := O.Apply(ob1, O.Release(0));
    assert [doc][1..] == [];
    assert ob2.rows == ob.rows && ob2.drainers == map[0 := O.Publishing(ob.clock, [])];
    var ob3 := O.Apply(ob2, O.EndDrain(0));
    assert ob3.drainers == map[] && ob3 == ob;
    OutboxStep(c, en, ob2, O.EndDrain(0), e, delivered);
    OutboxStep(c, en, ob1, O.Release(0), e, delivered);
    OutboxStep(c, en, ob0, O.PublishRaises(0, false), e, delivered);
  }

  function Sent(ob: O.State, r: Outbox.RowId): O.State
    requires r in ob.rows
  {
    O.State(Outbox.SetStatus(ob.rows, r, Outbox.Published(ob.clock)), map[],
            ob.delivered + [O.Doc(r, ob.rows[r].payload)], ob.clock)
  }

  /** After a publish that got through, the mark and the end of the drain. */
  lemma DrainMarks(c: C.State, en: E.State, ob: O.State, r: Outbox.RowId, e: EventId, delivered: bool)
    requires OneToDrain(ob, r) && CanAck(State(c, en, Sent(ob, r)), e, delivered)
    ensures CanAck(State(c, en, O.Apply(Claimed(ob, r), O.PublishOk(0))), e, delivered)
  {
    var doc := O.Doc(r, ob.rows[r].payload);
    var ob1 := O.Apply(Claimed(ob, r), O.PublishOk(0));
    assert ob1.drainers == map[0 := O.Marking(ob.clock, [doc])];
    var ob2 := O.Apply(ob1, O.Mark(0));
    assert [doc][1..] == [];
    assert ob2.rows == Sent(ob, r).rows && ob2.drainers == map[0 := O.Publishing(ob.clock, [])];
    var ob3 := O.Apply(ob2, O.EndDrain(0));
    assert ob3 == Sent(ob, r);
    OutboxStep(c, en, ob2, O.EndDrain(0), e, delivered);
    OutboxStep(c, en, ob1, O.Mark(0), e, delivered);
  }

  // ---- from the published result on

  lemma ResultInOutbox(c: C.State, en: E.State, ob: O.State, h: nat, e: EventId, r: Outbox.RowId, delivered: bool)
    requires AtWork(c, h, e) && h in en.attempts && en.attempts[h].pc.Published?
    requires OneToDrain(ob, r) && ob.rows[r].payload.EnrichedEvent? && ob.rows[r].payload.eventId == e
    requires forall doc :: doc in ob.delivered ==> doc.id != r
    ensures CanAck(State(c, en, ob), e, delivered)
  {
    if delivered {
      var sent := Sent(ob, r);
      CompleteAndAck(c, en, sent, h, e, r, delivered);
      DrainMarks(c, en, ob, r, e, delivered);
      OutboxStep(c, en, Claimed(ob, r), O.PublishOk(0), e, delivered);
    } else {
      CompleteAndAck(c, en, ob, h, e, r, delivered);
      DrainFails(c, en, ob, r, e, delivered);
    }
    DrainClaims(c, en, ob, r, e, delivered);
  }

  /** An outbox at rest: nobody drains and there is nothing to claim. */
  ghost predicate AtRest(ob: O.State) {
    ob.drainers == map[] && Outbox.Claimables(ob.rows, ob.clock) == {}
  }

  lemma PublishResult(c: C.State, en: E.State, ob: O.State, h: nat, listing: RawListing, e: EventId,
                      document: EnrichedListing, r: Outbox.RowId, delivered: bool)
    requires AtWork(c, h, e) && AttemptAt(en, h, listing, e, E.Publish(document))
    requires AtRest(ob) && r !in ob.rows && forall doc :: doc in ob.delivered ==> doc.id != r
    ensures CanAck(State(c, en, ob), e, delivered)
  {
    var b, o := E.DoPublish(h), O.Enqueue(r, Outbox.EnrichedEvent(e, document, None, 0));
    var en1, ob1 := E.Apply(en, b), O.Apply(ob, o);
    assert forall q :: q in Outbox.Claimables(ob1.rows, ob1.clock) <==>
      q == r || q in Outbox.Claimables(ob.rows, ob.clock);
    ResultInOutbox(c, en1, ob1, h, e, r, delivered);
    Before(State(c, en, ob), Step(None, Some(b), Some(o)), e, delivered);
  }

  // ---- the stages

  /** One stage after the other, from an attempt whose working document is still blank. */
  lemma RunStages(c: C.State, en: E.State, ob: O.State, h: nat, listing: RawListing, e: EventId, delivered: bool)
    requires AttemptAt(en, h, listing, e, E.Stages(FreshDocument(listing), E.Idle, E.Idle))
    requires forall en', document :: AttemptAt(en', h, listing, e, E.Publish(document)) ==>
      CanAck(State(c, en', ob), e, delivered)
    ensures CanAck(State(c, en, ob), e, delivered)
  {
    var en1 := E.Apply(en, E.LlmCall(h));
    var en2 := E.Apply(en1, E.LlmReturn(h, NO_OPTIONS));
    var en3 := E.Apply(en2, E.LlmStore(h));
    RunCv(c, en3, ob, h, listing, e, FreshDocument(listing).(options := NO_OPTIONS, llmDone := true), delivered);
    StageStep(c, en2, ob, E.LlmStore(h), e, delivered);
    StageStep(c, en1, ob, E.LlmReturn(h, NO_OPTIONS), e, delivered);
    StageStep(c, en, ob, E.LlmCall(h), e, delivered);
  }

  lemma RunCv(c: C.State, en: E.State, ob: O.State, h: nat, listing: RawListing, e: EventId, state: EnrichedListing,
              delivered: bool)
    requires AttemptAt(en, h, listing, e, E.Stages(state, E.Stored, E.Idle)) && state.llmDone
    requires forall en', document :: AttemptAt(en', h, listing, e, E.Publish(document)) ==>
      CanAck(State(c, en', ob), e, delivered)
    ensures CanAck(State(c, en, ob), e, delivered)
  {
    var en1 := E.Apply(en, E.CvCall(h));
    var en2 := E.Apply(en1, E.CvReturn(h, []));
    StoreCv(c, en2, ob, h, listing, e, state, delivered);
    StageStep(c, en1, ob, E.CvReturn(h, []), e, delivered);
    StageStep(c, en, ob, E.CvCall(h), e, delivered);
  }

  lemma StoreCv(c: C.State, en: E.State, ob: O.State, h: nat, listing: RawListing, e: EventId,
                state: EnrichedListing, delivered: bool)
    requires AttemptAt(en, h, listing, e, E.Stages(state, E.Stored, E.Returned([]))) && state.llmDone
    requires forall en', document :: AttemptAt(en', h, listing, e, E.Publish(document)) ==>
      CanAck(State(c, en', ob), e, delivered)
    ensures CanAck(State(c, en, ob), e, delivered)
  {
    Finalize(c, E.Apply(en, E.CvStore(h)), ob, h, listing, e, state.(defects := [], cvDone := true), delivered);
    StageStep(c, en, ob, E.CvStore(h), e, delivered);
  }

  lemma Finalize(c: C.State, en: E.State, ob: O.State, h: nat, listing: RawListing, e: EventId,
                 state: EnrichedListing, delivered: bool)
    requires AttemptAt(en, h, listing, e, E.Stages(state, E.Stored, E.Stored)) && state.IsFullyEnriched()
    requires forall en', document :: AttemptAt(en', h, listing, e, E.Publish(document)) ==>
      CanAck(State(c, en', ob), e, delivered)
    ensures CanAck(State(c, en, ob), e, delivered)
  {
    var en1 := E.Apply(en, E.Gather(h));
    var en2 := E.Apply(en1, E.WriteFinal(h));
    assert AttemptAt(en2, h, listing, e, E.Publish(state.(enrichedAt := Some(en1.clock))));
    StageStep(c, en1, ob, E.WriteFinal(h), e, delivered);
    StageStep(c, en, ob, E.Gather(h), e, delivered);
  }

  /** The attempt reads the document that ingest stored, and starts from it. */
  lemma ReadAndPrepare(c: C.State, en: E.State, ob: O.State, h: nat, listing: RawListing, e: EventId, delivered: bool)
    requires AttemptAt(en, h, listing, e, E.Fetch)
    requires listing.externalId in en.docs && en.docs[listing.externalId] == FreshDocument(listing)
    requires forall en', document :: AttemptAt(en', h, listing, e, E.Publish(document)) ==>
      CanAck(State(c, en', ob), e, delivered)
    ensures CanAck(State(c, en, ob), e, delivered)
  {
    var en1 := E.Apply(en, E.Read(h));
    assert AttemptAt(en1, h, listing, e, E.Prepare(Some(FreshDocument(listing))));
    var en2 := E.Apply(en1, E.WritePrepared(h));
    RunStages(c, en2, ob, h, listing, e, delivered);
    StageStep(c, en1, ob, E.WritePrepared(h), e, delivered);
    StageStep(c, en, ob, E.Read(h), e, delivered);
  }

  lemma Enrich(c: C.State, en: E.State, ob: O.State, h: nat, listing: RawListing, e: EventId, r: Outbox.RowId,
               delivered: bool)
    requires AtWork(c, h, e) && AttemptAt(en, h, listing, e, E.Fetch)
    requires listing.externalId in en.docs && en.docs[listing.externalId] == FreshDocument(listing)
    requires AtRest(ob) && r !in ob.rows && forall doc :: doc in ob.delivered ==> doc.id != r
    ensures CanAck(State(c, en, ob), e, delivered)
  {
    forall en', document | AttemptAt(en', h, listing, e, E.Publish(document))
      ensures CanAck(State(c, en', ob), e, delivered)
    {
      PublishResult(c, en', ob, h, listing, e, document, r, delivered);
    }
    ReadAndPrepare(c, en, ob, h, listing, e, delivered);
  }

  // ---- from the ingest on

  /** The message is delivered and claimed, which starts the attempt. */
  lemma DeliverAndClaim(c: C.State, en: E.State, ob: O.State, m: Message, r: Outbox.RowId, delivered: bool)
    requires c.handlers == map[] && c.work == {m} && m.body.Event? && m.body.eventId !in c.inbox && en.attempts == map[]
    requires var listing := m.body.listing;
      listing.externalId in en.docs && en.docs[listing.externalId] == FreshDocument(listing)
    requires AtRest(ob) && r !in ob.rows && forall doc :: doc in ob.delivered ==> doc.id != r
    ensures CanAck(State(c, en, ob), m.body.eventId, delivered)
  {
    var e, listing, h := m.body.eventId, m.body.listing, c.nextHandler;
    var c1 := C.Apply(c, C.Deliver(m));
    assert c1.handlers == map[h := C.Handler(m, true, C.Start)];
    var a, b := C.InsertClaim(h), E.Begin(h, listing, e);
    var c2, en2 := C.Apply(c1, a), E.Apply(en, b);
    assert c2.handlers[h] == C.Handler(m, true, C.Working(c1.clock));
    Enrich(c2, en2, ob, h, listing, e, r, delivered);
    assert !Conservation.Orphans(c1, a, h);
    Before(State(c1, en, ob), Step(Some(a), Some(b), None), e, delivered);
    Before(State(c, en, ob), Step(Some(C.Deliver(m)), None, None), e, delivered);
  }

  /** The raw row is drained, which puts the message on the work queue. */
  lemma DrainRaw(c: C.State, en: E.State, ob: O.State, q: Outbox.RowId, listing: RawListing, e: EventId,
                 requestId: Option<string>, delivered: bool)
    requires c.handlers == map[] && c.work == {} && e !in c.inbox && en.attempts == map[]
    requires listing.externalId in en.docs && en.docs[listing.externalId] == FreshDocument(listing)
    requires OneToDrain(ob, q) && ob.rows[q].payload == Outbox.RawEvent(e, listing, requestId) && ob.delivered == []
    requires forall r :: r in ob.rows ==> r <= q
    ensures CanAck(State(c, en, ob), e, delivered)
  {
    var body := Event(e, listing, requestId, 0);
    var m := Message(c.nextTag, body, None, false);
    var a, o := C.Arrive(body, None), O.PublishOk(0);
    var c1, ob0 := C.Apply(c, a), Claimed(ob, q);
    assert c1.work == {m};
    var sent := Sent(ob, q);
    assert Outbox.Claimables(sent.rows, sent.clock) == {} by {
      assert forall r :: r in Outbox.Claimables(sent.rows, sent.clock) ==>
        r in Outbox.Claimables(ob.rows, ob.clock) && r != q;
    }
    DeliverAndClaim(c1, en, sent, m, q + 1, delivered);
    DrainMarks(c1, en, ob, q, e, delivered);
    Before(State(c, en, ob0), Step(Some(a), None, Some(o)), e, delivered);
    DrainClaims(c, en, ob, q, e, delivered);
  }

  /** From every start whose outbox is at rest, a new listing can be ingested, enriched, completed
      and acknowledged, and that with its result delivered, but also, since an error of the drain
      does not fail the attempt, with its result pending and received by nobody. */
  lemma AckWithOrWithoutDelivery(s: State, listing: RawListing, e: EventId, requestId: Option<string>, delivered: bool)
    requires Aggregation.Init(s) && e !in s.c.inbox && AtRest(s.ob)
    ensures CanAck(s, e, delivered)
  {
    var q := Outbox.Bound(s.ob.rows.Keys);
    assert q !in s.ob.rows.Keys;
    var b, o := E.EnqueueRaw(listing), O.Enqueue(q, Outbox.RawEvent(e, listing, requestId));
    var en1, ob1 := E.Apply(s.en, b), O.Apply(s.ob, o);
    assert forall r :: r in Outbox.Claimables(ob1.rows, ob1.clock) <==>
      r == q || r in Outbox.Claimables(s.ob.rows, s.ob.clock);
    DrainRaw(s.c, en1, ob1, q, listing, e, requestId, delivered);
    OutboxStep(s.c, en1, s.ob, o, e, delivered);
    StageStep(s.c, s.en, s.ob, b, e, delivered);
  }
}
