/** What an acknowledgement of the pipeline stands for. */
module Aggregation {
  import opened Types
  import opened Pipeline
  import opened Triggers
  import opened FailureReports
  import C = Consumer
  import E = Enrichment
  import O = OutboxProtocol
  import Outbox
  import Conservation
  import Cache = EnrichmentCache

  ghost predicate Benign(s: State, x: Step, k: C.Key)
    requires Enabled(s, x)
  {
    x.ca.Some? ==> Conservation.BenignFor(s.c, x.ca.value, k)
  }

  ghost predicate AllBenign(s: State, steps: seq<Step>, k: C.Key)
    requires Valid(s, steps)
    decreases |steps|
  {
    steps != [] ==> Benign(s, steps[0], k) && AllBenign(Apply(s, steps[0]), steps[1..], k)
  }

  ghost predicate HasRow(s: State, p: E.Publication) {
    exists r :: r in s.ob.rows && s.ob.rows[r].payload.EnrichedEvent?
      && s.ob.rows[r].payload.eventId == p.eventId && s.ob.rows[r].payload.document == p.document
  }

  ghost predicate WasPublished(s: State, e: EventId) {
    exists p :: p in s.en.publications && p.eventId == e
  }

  /** A handler at work has its attempt. */
  predicate AttemptLinked(s: State, h: nat)
    requires h in s.c.handlers
  {
    var x := s.c.handlers[h];
    x.pc.Working? && x.msg.body.Event? ==>
      h in s.en.attempts && s.en.attempts[h].eventId == x.msg.body.eventId
        && s.en.attempts[h].listing == x.msg.body.listing
  }

  ghost predicate Links(s: State, old0: set<EventId>) {
    && (forall h :: h in s.c.handlers ==> AttemptLinked(s, h))
    && (forall p :: p in s.en.publications ==> HasRow(s, p))
    && (forall e :: e in s.c.inbox && s.c.inbox[e].Completed? && e !in old0 ==> WasPublished(s, e))
    && (forall doc :: doc in s.ob.delivered && doc.payload.RawEvent? ==> C.EventKey(doc.payload.eventId) in s.c.seen)
  }

  ghost predicate PartsOk(s: State) {
    Cache.Inv(s.en) && O.DeliveryInv(s.ob)
  }

  lemma RowsLast(s: State, x: Step)
    requires Enabled(s, x)
    ensures O.Grows(s.ob, Apply(s, x).ob)
    ensures forall p :: HasRow(s, p) ==> HasRow(Apply(s, x), p)
  {
    var t := Apply(s, x);
    if x.oa.Some? {
      O.GrowsStep(s.ob, x.oa.value);
    }
    forall p | HasRow(s, p) ensures HasRow(t, p) {
      var r :| r in s.ob.rows && s.ob.rows[r].payload.EnrichedEvent?
        && s.ob.rows[r].payload.eventId == p.eventId && s.ob.rows[r].payload.document == p.document;
      assert r in t.ob.rows && t.ob.rows[r].payload == s.ob.rows[r].payload;
    }
  }

  lemma PartsStep(s: State, x: Step)
    requires PartsOk(s) && Enabled(s, x)
    ensures PartsOk(Apply(s, x))
  {
    if x.ea.Some? {
      Cache.InvStep(s.en, x.ea.value);
    }
    if x.oa.Some? {
      O.DocsFaithfulStep(s.ob, x.oa.value);
      O.MarkedAfterDeliveryStep(s.ob, x.oa.value);
    }
  }

  /** A handler gets to work by a granted claim, and keeps its message. */
  lemma WorkOrigin(c: C.State, a: C.Action, h: nat)
    requires C.Enabled(c, a) && h in C.Apply(c, a).handlers && C.Apply(c, a).handlers[h].pc.Working?
    ensures h in c.handlers && C.Apply(c, a).handlers[h].msg == c.handlers[h].msg
    ensures c.handlers[h].pc.Working? || (GrantsClaim(c, a) && (a == C.InsertClaim(h) || a == C.UpdateClaim(h)))
  {
  }

  lemma AttemptLinkStep(s: State, x: Step, h: nat)
    requires Enabled(s, x) && h in Apply(s, x).c.handlers
    requires h in s.c.handlers ==> AttemptLinked(s, h)
    ensures AttemptLinked(Apply(s, x), h)
  {
    var t := Apply(s, x);
    if t.c.handlers[h].pc.Working? && x.ca.Some? {
      WorkOrigin(s.c, x.ca.value, h);
    }
    if x.ea.Some? && h in s.en.attempts && x.ea.value != E.Drop(h) {
      E.IdentityLasts(s.en, x.ea.value, h);
    }
  }

  lemma PublicationLinkStep(s: State, x: Step, p: E.Publication)
    requires Enabled(s, x) && p in Apply(s, x).en.publications
    requires p in s.en.publications ==> HasRow(s, p)
    ensures HasRow(Apply(s, x), p)
  {
    RowsLast(s, x);
    if p !in s.en.publications {
      E.PublicationsGrow(s.en, x.ea.value);
      assert x.oa.value.r in Apply(s, x).ob.rows;
    }
  }

  lemma CompletedLinkStep(s: State, x: Step, e: EventId, old0: set<EventId>)
    requires Enabled(s, x) && Links(s, old0) && PartsOk(s) && e !in old0
    requires e in Apply(s, x).c.inbox && Apply(s, x).c.inbox[e].Completed?
    ensures WasPublished(Apply(s, x), e)
  {
    var t := Apply(s, x);
    if x.ea.Some? {
      E.PublicationsGrow(s.en, x.ea.value);
    }
    if e in s.c.inbox && s.c.inbox[e].Completed? {
      var p :| p in s.en.publications && p.eventId == e;
      assert p in t.en.publications;
    } else {
      var a := x.ca.value;
      assert a.Complete? && s.c.handlers[a.h].msg.body.eventId == e;
      assert AttemptLinked(s, a.h);
      var y := s.en.attempts[a.h];
      assert Cache.AttemptOk(s.en, y);
      assert E.Publication(y.eventId, y.listing, y.pc.document) in t.en.publications;
    }
  }

  lemma DeliveredLinkStep(s: State, x: Step, doc: O.Doc)
    requires Enabled(s, x) && doc in Apply(s, x).ob.delivered && doc.payload.RawEvent?
    requires doc in s.ob.delivered ==> C.EventKey(doc.payload.eventId) in s.c.seen
    ensures C.EventKey(doc.payload.eventId) in Apply(s, x).c.seen
  {
  }

  lemma LinksStep(s: State, x: Step, old0: set<EventId>)
    requires Links(s, old0) && PartsOk(s) && Enabled(s, x)
    ensures Links(Apply(s, x), old0)
  {
    var t := Apply(s, x);
    forall h | h in t.c.handlers ensures AttemptLinked(t, h) { AttemptLinkStep(s, x, h); }
    forall p | p in t.en.publications ensures HasRow(t, p) { PublicationLinkStep(s, x, p); }
    forall e | e in t.c.inbox && t.c.inbox[e].Completed? && e !in old0 ensures WasPublished(t, e) {
      CompletedLinkStep(s, x, e, old0);
    }
    forall doc | doc in t.ob.delivered && doc.payload.RawEvent? ensures C.EventKey(doc.payload.eventId) in t.c.seen {
      DeliveredLinkStep(s, x, doc);
    }
  }

  ghost predicate Init(s: State) {
    C.Init(s.c) && Cache.Init(s.en) && O.Init(s.ob)
  }

  lemma {:induction false} LinksAlways(s: State, steps: seq<Step>, old0: set<EventId>)
    requires Links(s, old0) && PartsOk(s) && Valid(s, steps)
    ensures Links(Exec(s, steps), old0) && PartsOk(Exec(s, steps))
    decreases |steps|
  {
    if steps != [] {
      LinksStep(s, steps[0], old0);
      PartsStep(s, steps[0]);
      LinksAlways(Apply(s, steps[0]), steps[1..], old0);
    }
  }

  lemma {:induction false} ConsumerInvAlways(s: State, steps: seq<Step>, k: C.Key)
    requires Conservation.Inv(s.c, k) && Valid(s, steps) && AllBenign(s, steps, k)
    ensures Conservation.Inv(Exec(s, steps).c, k)
    decreases |steps|
  {
    if steps != [] {
      if steps[0].ca.Some? {
        Conservation.InvStep(s.c, steps[0].ca.value, k);
      }
      ConsumerInvAlways(Apply(s, steps[0]), steps[1..], k);
    }
  }

  lemma StartIsOk(s: State)
    requires Init(s)
    ensures Links(s, s.c.inbox.Keys) && PartsOk(s) && forall k :: Conservation.Inv(s.c, k)
  {
  }

  /** The outbox holds, for good, a row that announces `e` with a finished document, which agrees
      with the stage results and is on the inputs of a message of `e` that arrived. */
  ghost predicate Aggregated(t: State, e: EventId, arrived: Arrivals) {
    exists p :: p in t.en.publications && p.eventId == e && (e, p.trigger) in arrived && HasRow(t, p)
      && p.document.IsFullyEnriched() && Cache.Agrees(t.en, p.document) && Cache.Matches(p.document, p.trigger)
  }

  /** Ack on aggregation: in every reachable state, faults included, an event the service has
      completed has its enriched row in the outbox. */
  lemma CompletedMeansAggregated(s: State, steps: seq<Step>, e: EventId)
    requires Init(s) && Valid(s, steps) && e !in s.c.inbox
    requires Conservation.RowIsCompleted(Exec(s, steps).c, C.EventKey(e))
    ensures Aggregated(Exec(s, steps), e, Arrived(steps))
  {
    StartIsOk(s);
    LinksAlways(s, steps, s.c.inbox.Keys);
    TriggersArrived(s, steps);
    var t := Exec(s, steps);
    var p :| p in t.en.publications && p.eventId == e;
    assert Cache.PublicationOk(t.en, p) && HasRow(t, p);
  }

  /** Given up for good, with the failure on record. */
  ghost predicate GivenUp(s: State, steps: seq<Step>, k: C.Key)
    requires Valid(s, steps)
  {
    exists m, r :: m in Exec(s, steps).c.dlq && C.KeyOf(m.body) == k
      && ReportedAs(s, steps, m, r) && HasFailureRow(Exec(s, steps), m, r)
  }

  /** From ingest to result: a raw row the outbox has marked published belongs to an event that
      is aggregated, dead-lettered with its failure row enqueued, or on its way, as long as no
      handler of that event meets one of the faults. */
  lemma PublishedRawIsAccountedFor(s: State, steps: seq<Step>, r: Outbox.RowId, e: EventId)
    requires Init(s) && Valid(s, steps) && AllBenign(s, steps, C.EventKey(e)) && e !in s.c.inbox
    requires var rows := Exec(s, steps).ob.rows;
      r in rows && rows[r].payload.RawEvent? && rows[r].status.Published? && rows[r].payload.eventId == e
    ensures var t, k := Exec(s, steps), C.EventKey(e);
      Aggregated(t, e, Arrived(steps)) || GivenUp(s, steps, k) || Conservation.InFlight(t.c, k)
  {
    var k, t := C.EventKey(e), Exec(s, steps);
    StartIsOk(s);
    LinksAlways(s, steps, s.c.inbox.Keys);
    ConsumerInvAlways(s, steps, k);
    assert O.Doc(r, t.ob.rows[r].payload) in t.ob.delivered;
    Conservation.SafeIsAccountedFor(t.c, k);
    NeverLegacy(s, steps, e);
    if Conservation.Settled(t.c, k) {
      CompletedMeansAggregated(s, steps, e);
    } else if Conservation.HasMessage(t.c.dlq, k) {
      var m :| m in t.c.dlq && C.KeyOf(m.body) == k;
      DeadLetterMeansReported(s, steps, m);
    }
  }

  lemma {:induction false} NeverLegacy(s: State, steps: seq<Step>, e: EventId)
    requires Valid(s, steps) && (e in s.c.inbox ==> !s.c.inbox[e].Legacy?)
    ensures var t := Exec(s, steps); e in t.c.inbox ==> !t.c.inbox[e].Legacy?
    decreases |steps|
  {
    if steps != [] {
      if steps[0].ca.Some? {
        Conservation.LegacyIsOld(s.c, [steps[0].ca.value], e);
        assert [steps[0].ca.value][1..] == [];
      }
      NeverLegacy(Apply(s, steps[0]), steps[1..], e);
    }
  }
}
