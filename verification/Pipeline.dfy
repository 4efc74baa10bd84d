/** The enrichment service as a whole: consumer, orchestrator and outbox stepping together over
    one inbox, one listing store, one outbox and one broker. */
module Pipeline {
  import opened Types
  import C = Consumer
  import E = Enrichment
  import O = OutboxProtocol
  import Outbox
  import Inbox

  datatype State = State(c: C.State, en: E.State, ob: O.State)

  /** One step: what each part does in it, `None` for a part that does nothing. */
  datatype Step = Step(ca: Option<C.Action>, ea: Option<E.Action>, oa: Option<O.Action>)

  predicate GrantsClaim(s: C.State, a: C.Action)
    requires C.Enabled(s, a)
  {
    match a
    case InsertClaim(h) => s.handlers[h].msg.body.eventId !in s.inbox
    case UpdateClaim(h) =>
      var m := s.handlers[h].msg;
      m.body.eventId in s.inbox && Inbox.Claimable(s.inbox[m.body.eventId], m.redelivered, s.handlers[h].pc.now)
    case _ => false
  }

  /** The consumer alone: it waits for the orchestrator before it completes or fails an attempt,
      and after completing one only mark_completed itself may still raise. */
  predicate ConsumerAlone(s: State, a: C.Action)
    requires C.Enabled(s.c, a)
  {
    match a
    case InsertClaim(h) => !GrantsClaim(s.c, a)
    case UpdateClaim(h) => !GrantsClaim(s.c, a)
    case Complete(h) => h in s.en.attempts && s.en.attempts[h].pc.Published?
    case WorkRaises(h, _) => h in s.en.attempts && !s.en.attempts[h].Running()
    case LateRaise(_, error) => error.Transient?
    case ReportFailure(_) => false
    case Crash(h) => h !in s.en.attempts
    case Tick(_) => false
    case _ => true
  }

  /** A granted claim starts the attempt, and a crash ends it. */
  predicate ConsumerWithOrchestrator(s: State, a: C.Action, b: E.Action)
    requires C.Enabled(s.c, a)
  {
    match a
    case Crash(h) => b == E.Drop(h)
    case InsertClaim(h) =>
      GrantsClaim(s.c, a) && b == E.Begin(h, s.c.handlers[h].msg.body.listing, s.c.handlers[h].msg.body.eventId)
    case UpdateClaim(h) =>
      GrantsClaim(s.c, a) && b == E.Begin(h, s.c.handlers[h].msg.body.listing, s.c.handlers[h].msg.body.eventId)
    case _ => false
  }

  predicate Publishes(s: State, b: E.Action)
    requires E.Enabled(s.en, b)
  {
    match b
    case DoPublish(_) => true
    case Raise(t, reached) => reached && s.en.attempts[t].pc.Publish?
    case _ => false
  }

  predicate OrchestratorAlone(s: State, b: E.Action)
    requires E.Enabled(s.en, b)
  {
    !Publishes(s, b) && !b.Begin? && !b.Drop? && !b.Tick?
  }

  /** Publishing an enriched document is enqueueing an outbox row. */
  predicate OrchestratorWithOutbox(s: State, b: E.Action, o: O.Action)
    requires E.Enabled(s.en, b)
  {
    Publishes(s, b) && o.Enqueue? && o.payload.EnrichedEvent?
      && o.payload.eventId == s.en.attempts[b.t].eventId && o.payload.document == s.en.attempts[b.t].pc.document
  }

  function Received(payload: Outbox.Payload): Body
    requires payload.RawEvent?
  {
    Event(payload.eventId, payload.listing, payload.requestId, 0)
  }

  predicate ReachesBroker(s: State, o: O.Action) {
    && (o.PublishOk? || (o.PublishRaises? && o.reached))
    && o.d in s.ob.drainers && s.ob.drainers[o.d].docs != []
  }

  predicate DeliversRaw(s: State, o: O.Action) {
    ReachesBroker(s, o) && s.ob.drainers[o.d].docs[0].payload.RawEvent?
  }

  /** Giving up enqueues a failure row first; publishing a raw row puts a message on the work
      queue. */
  predicate ConsumerWithOutbox(s: State, a: C.Action, o: O.Action)
    requires C.Enabled(s.c, a)
  {
    match a
    case ReportFailure(h) =>
      var m, count := s.c.handlers[h].msg, s.c.handlers[h].pc.count;
      && o.Enqueue? && o.payload.FailedEvent? && o.payload.retryCount == count
      && (if m.body.Event? then o.payload.eventId == m.body.eventId && o.payload.externalId == m.body.listing.externalId
                                && o.payload.requestId == m.body.requestId
          else o.payload.externalId == UNKNOWN_EXTERNAL_ID && o.payload.requestId == None)
    case Arrive(body, header) => DeliversRaw(s, o) && header == None
      && body == Received(s.ob.drainers[o.d].docs[0].payload)
    case _ => false
  }

  /** Drainers, ingests enqueueing a raw row, and a failure row whose enqueue raised all the same. */
  predicate OutboxAlone(s: State, o: O.Action) {
    (o.Enqueue? ==> !o.payload.EnrichedEvent?) && !DeliversRaw(s, o) && !o.Tick?
  }

  ghost predicate Enabled(s: State, x: Step) {
    && (x.ca.Some? ==> C.Enabled(s.c, x.ca.value))
    && (x.ea.Some? ==> E.Enabled(s.en, x.ea.value))
    && (x.oa.Some? ==> O.Enabled(s.ob, x.oa.value))
    && match x
       case Step(Some(a), None, None) => ConsumerAlone(s, a)
       case Step(Some(a), Some(b), None) => ConsumerWithOrchestrator(s, a, b)
       case Step(None, Some(b), None) => OrchestratorAlone(s, b)
       case Step(None, Some(b), Some(o)) => OrchestratorWithOutbox(s, b, o)
       case Step(Some(a), None, Some(o)) => ConsumerWithOutbox(s, a, o)
       case Step(None, None, Some(o)) => OutboxAlone(s, o)
       case Step(Some(a), Some(b), Some(o)) => a.Tick? && b.Tick? && o.Tick? && a.dt == b.dt == o.dt
       case Step(None, None, None) => false
  }

  ghost function Apply(s: State, x: Step): State
    requires Enabled(s, x)
  {
    State(if x.ca.Some? then C.Apply(s.c, x.ca.value) else s.c,
          if x.ea.Some? then E.Apply(s.en, x.ea.value) else s.en,
          if x.oa.Some? then O.Apply(s.ob, x.oa.value) else s.ob)
  }

  ghost predicate Valid(s: State, steps: seq<Step>)
    decreases |steps|
  {
    steps != [] ==> Enabled(s, steps[0]) && Valid(Apply(s, steps[0]), steps[1..])
  }

  ghost function Exec(s: State, steps: seq<Step>): State
    requires Valid(s, steps)
    decreases |steps|
  {
    if steps == [] then s else Exec(Apply(s, steps[0]), steps[1..])
  }
}
