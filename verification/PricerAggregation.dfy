/** What a completed event of the pricer stands for: the consumer and its SQL tables stepping
    together, with drains and other handlers at every await. */
module PricerAggregation {
  import opened Types
  import opened PricerStores
  import opened Triggers
  import C = Consumer
  import R = Retry

  /** `store.inbox` is the consumer's inbox. `saved` is the outbox row that a handler's save, once
      it has returned, has left. */
  datatype State = State(c: C.State, store: Sql, saved: map<nat, int>)

  datatype Action =
    | Consume(a: C.Action)
    | SaveResult(h: nat, result: PricingResult)
    | SaveRaises(h: nat, result: PricingResult, applied: bool, error: R.Failure)
    | DrainStep(command: Command)

  /** The claim is held, and the listing of the message is priced. */
  predicate Pricing(s: State, h: nat, result: PricingResult) {
    && h in s.c.handlers && s.c.handlers[h].pc.Working? && s.c.handlers[h].msg.body.Event?
    && h !in s.saved && result.externalId == s.c.handlers[h].msg.body.listing.externalId
  }

  /** The event is completed only after the save has returned. */
  predicate Enabled(s: State, x: Action) {
    match x
    case Consume(a) => C.Enabled(s.c, a) && (a.Complete? ==> a.h in s.saved)
    case SaveResult(h, result) => Pricing(s, h, result)
    case SaveRaises(h, result, _, error) => Pricing(s, h, result) && !error.Poison?
    case DrainStep(command) => command.ClaimPending? || command.MarkPublished? || command.ReleaseOutboxClaim?
  }

  ghost function Saved(s: State, h: nat, result: PricingResult): Sql
    requires Pricing(s, h, result)
  {
    var body := s.c.handlers[h].msg.body;
    SqlStep(s.store, Save(result, Some(body.eventId), body.requestId), s.c.clock).0
  }

  ghost function Consumed(s: State, a: C.Action): State
    requires C.Enabled(s.c, a)
  {
    var c := C.Apply(s.c, a);
    s.(c := c, store := s.store.(inbox := c.inbox))
  }

  ghost function Apply(s: State, x: Action): State
    requires Enabled(s, x)
  {
    match x
    case Consume(a) => Consumed(s, a)
    case SaveResult(h, result) => s.(store := Saved(s, h, result), saved := s.saved[h := s.store.nextId])
    case SaveRaises(h, result, applied, _) =>
      Consumed(if applied then s.(store := Saved(s, h, result)) else s, C.WorkRaises(h, x.error))
    case DrainStep(command) => s.(store := SqlStep(s.store, command, s.c.clock).0)
  }

  ghost predicate Valid(s: State, acts: seq<Action>)
    decreases |acts|
  {
    acts != [] ==> Enabled(s, acts[0]) && Valid(Apply(s, acts[0]), acts[1..])
  }

  ghost function Exec(s: State, acts: seq<Action>): State
    requires Valid(s, acts)
    decreases |acts|
  {
    if acts == [] then s else Exec(Apply(s, acts[0]), acts[1..])
  }

  function ArrivingBy(x: Action): Arrivals {
    if x.Consume? && x.a.Arrive? && x.a.body.Event? then {(x.a.body.eventId, x.a.body.listing)} else {}
  }

  function ArrivedIn(acts: seq<Action>): Arrivals {
    if acts == [] then {} else ArrivingBy(acts[0]) + ArrivedIn(acts[1..])
  }

  // ---- the tables

  /** No later row is about the same listing. */
  predicate IsNewest(store: Sql, id: int) {
    && id in store.outbox
    && forall q :: q in store.outbox && store.outbox[q].result.externalId == store.outbox[id].result.externalId ==>
         q <= id
  }

  /** Rows are numbered, and a listing's result is the one its newest row announces. */
  ghost predicate TablesAgree(store: Sql) {
    && (forall id :: id in store.outbox ==> id < store.nextId && store.outbox[id].result.externalId in store.items)
    && (forall id :: IsNewest(store, id) ==> store.items[store.outbox[id].result.externalId] == store.outbox[id].result)
  }

  predicate KeepsRow(row: Row, later: Row) {
    && later.eventId == row.eventId && later.requestId == row.requestId && later.result == row.result
    && (row.status.Sent? ==> later.status.Sent?)
  }

  /** The later tables have every row, about the same event and result, and published if it was. */
  predicate KeepsRows(store: Sql, later: Sql) {
    forall id :: id in store.outbox ==> id in later.outbox && KeepsRow(store.outbox[id], later.outbox[id])
  }

  lemma SaveKeeps(store: Sql, result: PricingResult, eventId: Option<EventId>, requestId: Option<string>, now: Time)
    requires TablesAgree(store)
    ensures var later := SqlStep(store, Save(result, eventId, requestId), now).0;
      TablesAgree(later) && KeepsRows(store, later)
  {
    var later := SqlStep(store, Save(result, eventId, requestId), now).0;
    forall id | IsNewest(later, id) ensures later.items[later.outbox[id].result.externalId] == later.outbox[id].result {
      if id != store.nextId {
        assert store.nextId in later.outbox;
        assert forall q :: q in store.outbox ==> q in later.outbox && later.outbox[q] == store.outbox[q];
        assert IsNewest(store, id);
      }
    }
  }

  lemma DrainKeeps(store: Sql, command: Command, now: Time)
    requires TablesAgree(store) && (command.ClaimPending? || command.MarkPublished? || command.ReleaseOutboxClaim?)
    ensures var later := SqlStep(store, command, now).0; TablesAgree(later) && KeepsRows(store, later)
  {
    var later := SqlStep(store, command, now).0;
    DrainKeepsRows(store, command, now);
    SameAnnouncements(store, later);
  }

  lemma DrainKeepsRows(store: Sql, command: Command, now: Time)
    requires command.ClaimPending? || command.MarkPublished? || command.ReleaseOutboxClaim?
    ensures var later := SqlStep(store, command, now).0;
      && KeepsRows(store, later) && later.items == store.items && later.nextId == store.nextId
      && later.outbox.Keys == store.outbox.Keys
  {
  }

  lemma SameAnnouncements(store: Sql, later: Sql)
    requires TablesAgree(store) && KeepsRows(store, later) && later.outbox.Keys == store.outbox.Keys
    requires later.items == store.items && later.nextId == store.nextId
    ensures TablesAgree(later)
  {
    assert forall id :: id in store.outbox <==> id in later.outbox;
    forall id | IsNewest(later, id) ensures IsNewest(store, id) {}
  }

  lemma TablesStep(s: State, x: Action)
    requires TablesAgree(s.store) && Enabled(s, x)
    ensures TablesAgree(Apply(s, x).store) && KeepsRows(s.store, Apply(s, x).store)
  {
    match x
    case Consume(_) =>
      assert forall id :: IsNewest(Apply(s, x).store, id) ==> IsNewest(s.store, id);
    case SaveResult(h, result) =>
      var body := s.c.handlers[h].msg.body;
      SaveKeeps(s.store, result, Some(body.eventId), body.requestId, s.c.clock);
    case SaveRaises(h, result, applied, _) =>
      var body := s.c.handlers[h].msg.body;
      SaveKeeps(s.store, result, Some(body.eventId), body.requestId, s.c.clock);
      var before := if applied then Saved(s, h, result) else s.store;
      assert forall id :: IsNewest(Apply(s, x).store, id) ==> IsNewest(before, id);
    case DrainStep(command) => DrainKeeps(s.store, command, s.c.clock);
  }

  /** In every reachable state: rows are never deleted and keep event and result, a published row
      stays published, and the stored result of a listing is the one its newest row announces. */
  lemma {:induction false} TablesAlwaysAgree(s: State, acts: seq<Action>)
    requires TablesAgree(s.store) && Valid(s, acts)
    ensures TablesAgree(Exec(s, acts).store) && KeepsRows(s.store, Exec(s, acts).store)
    decreases |acts|
  {
    if acts != [] {
      TablesStep(s, acts[0]);
      TablesAlwaysAgree(Apply(s, acts[0]), acts[1..]);
    }
  }

  // ---- completion

  predicate IsCompleted(c: C.State, e: EventId) { e in c.inbox && c.inbox[e].Completed? }

  /** The row announces a result for event `e` on listing `x`. */
  predicate Announces(row: Row, e: EventId, x: ListingId) {
    row.result.externalId == x && row.eventId == EventIdOf(Some(e), row.result)
  }

  predicate SavedFor(s: State, h: nat, body: Body)
    requires h in s.saved
  {
    body.Event? && s.saved[h] in s.store.outbox
      && Announces(s.store.outbox[s.saved[h]], body.eventId, body.listing.externalId)
  }

  /** The outbox announces a result for `e`, on the listing of a message of `e` that arrived. */
  ghost predicate Priced(s: State, e: EventId, arrived: Arrivals) {
    exists id, listing :: PricedBy(s, e, arrived, id, listing)
  }

  predicate PricedBy(s: State, e: EventId, arrived: Arrivals, id: int, listing: RawListing) {
    id in s.store.outbox && (e, listing) in arrived && Announces(s.store.outbox[id], e, listing.externalId)
  }

  ghost predicate SavesLinked(s: State) {
    && (forall h :: h in s.saved || h in s.c.handlers ==> h < s.c.nextHandler)
    && (forall h :: h in s.saved && h in s.c.handlers ==> SavedFor(s, h, s.c.handlers[h].msg.body))
  }

  ghost predicate CompletedLinked(s: State, old0: set<EventId>, arrived: Arrivals) {
    forall e :: IsCompleted(s.c, e) && e !in old0 ==> Priced(s, e, arrived)
  }

  /** A handler of before the step keeps its message, and a new one has a new id. */
  lemma ConsumerKeeps(s: State, x: Action)
    requires Enabled(s, x)
    ensures s.c.nextHandler <= Apply(s, x).c.nextHandler
    ensures forall h :: h in Apply(s, x).c.handlers && h != s.c.nextHandler ==>
      h in s.c.handlers && Apply(s, x).c.handlers[h].msg == s.c.handlers[h].msg
    ensures s.c.nextHandler in Apply(s, x).c.handlers && s.c.nextHandler !in s.c.handlers ==>
      s.c.nextHandler < Apply(s, x).c.nextHandler
  {
    if x.Consume? {
      ConsumerKeepsMessages(s.c, x.a);
    } else if x.SaveRaises? {
      ConsumerKeepsMessages(s.c, C.WorkRaises(x.h, x.error));
    }
  }

  lemma ConsumerKeepsMessages(c: C.State, a: C.Action)
    requires C.Enabled(c, a)
    ensures c.nextHandler <= C.Apply(c, a).nextHandler
    ensures forall h :: h in C.Apply(c, a).handlers && h != c.nextHandler ==>
      h in c.handlers && C.Apply(c, a).handlers[h].msg == c.handlers[h].msg
    ensures c.nextHandler in C.Apply(c, a).handlers && c.nextHandler !in c.handlers ==>
      c.nextHandler < C.Apply(c, a).nextHandler
  {
  }

  lemma SavedForStep(s: State, x: Action, h: nat)
    requires SavesLinked(s) && TablesAgree(s.store) && Enabled(s, x)
    requires h in Apply(s, x).saved && h in Apply(s, x).c.handlers
    ensures SavedFor(Apply(s, x), h, Apply(s, x).c.handlers[h].msg.body)
  {
    ConsumerKeeps(s, x);
    if h in s.saved {
      TablesStep(s, x);
      assert SavedFor(s, h, s.c.handlers[h].msg.body);
    }
  }

  lemma SavesLinkedStep(s: State, x: Action)
    requires SavesLinked(s) && TablesAgree(s.store) && Enabled(s, x)
    ensures SavesLinked(Apply(s, x))
  {
    ConsumerKeeps(s, x);
    forall h | h in Apply(s, x).saved && h in Apply(s, x).c.handlers
      ensures SavedFor(Apply(s, x), h, Apply(s, x).c.handlers[h].msg.body)
    {
      SavedForStep(s, x, h);
    }
  }

  lemma PricedLasts(s: State, t: State, e: EventId, arrived: Arrivals, more: Arrivals)
    requires Priced(s, e, arrived) && KeepsRows(s.store, t.store) && arrived <= more
    ensures Priced(t, e, more)
  {
    var id, listing :| PricedBy(s, e, arrived, id, listing);
    assert PricedBy(t, e, more, id, listing);
  }

  lemma CompletedByConsumer(c: C.State, a: C.Action, e: EventId)
    requires C.Enabled(c, a) && IsCompleted(C.Apply(c, a), e) && !IsCompleted(c, e)
    ensures a.Complete? && c.handlers[a.h].msg.body.eventId == e
  {
  }

  /** An event is completed by a handler of its own whose save has returned. */
  lemma CompletedBySaver(s: State, x: Action, e: EventId)
    requires Enabled(s, x) && IsCompleted(Apply(s, x).c, e) && !IsCompleted(s.c, e)
    ensures x.Consume? && x.a.Complete? && x.a.h in s.saved && s.c.handlers[x.a.h].msg.body.eventId == e
  {
    if x.SaveRaises? {
      CompletedByConsumer(s.c, C.WorkRaises(x.h, x.error), e);
    } else {
      CompletedByConsumer(s.c, x.a, e);
    }
  }

  lemma CompletedLinkedStep(s: State, x: Action, e: EventId, old0: set<EventId>, arrived: Arrivals, more: Arrivals)
    requires SavesLinked(s) && CompletedLinked(s, old0, arrived) && MessagesFrom(s.c, arrived)
    requires TablesAgree(s.store) && Enabled(s, x) && arrived <= more
    requires IsCompleted(Apply(s, x).c, e) && e !in old0
    ensures Priced(Apply(s, x), e, more)
  {
    TablesStep(s, x);
    if !IsCompleted(s.c, e) {
      CompletedBySaver(s, x, e);
      var h := x.a.h;
      var body := s.c.handlers[h].msg.body;
      assert SavedFor(s, h, body) && BodyFrom(body, arrived);
      assert PricedBy(s, e, arrived, s.saved[h], body.listing);
    }
    PricedLasts(s, Apply(s, x), e, arrived, more);
  }

  lemma ConsumerSteps(s: State, x: Action, arrived: Arrivals, more: Arrivals)
    requires MessagesFrom(s.c, arrived) && Enabled(s, x) && more == arrived + ArrivingBy(x)
    ensures MessagesFrom(Apply(s, x).c, more)
  {
    if x.Consume? {
      MessagesFromStep(s.c, x.a, arrived, more);
    } else if x.SaveRaises? {
      MessagesFromStep(s.c, C.WorkRaises(x.h, x.error), arrived, more);
    }
  }

  ghost predicate Init(s: State) {
    C.Init(s.c) && s.saved == map[] && TablesAgree(s.store)
  }

  lemma {:induction false} LinksAlways(s: State, acts: seq<Action>, old0: set<EventId>, arrived: Arrivals)
    requires SavesLinked(s) && CompletedLinked(s, old0, arrived) && MessagesFrom(s.c, arrived)
    requires TablesAgree(s.store) && Valid(s, acts)
    ensures CompletedLinked(Exec(s, acts), old0, arrived + ArrivedIn(acts))
    decreases |acts|
  {
    if acts == [] {
      assert arrived + ArrivedIn(acts) == arrived;
    } else {
      var x := acts[0];
      var t, more := Apply(s, x), arrived + ArrivingBy(x);
      TablesStep(s, x);
      SavesLinkedStep(s, x);
      ConsumerSteps(s, x, arrived, more);
      forall e | IsCompleted(t.c, e) && e !in old0 ensures Priced(t, e, more) {
        CompletedLinkedStep(s, x, e, old0, arrived, more);
      }
      LinksAlways(t, acts[1..], old0, more);
      assert more + ArrivedIn(acts[1..]) == arrived + ArrivedIn(acts);
    }
  }

  /** The row announces a result for `e` on the listing, a message of `e` with it has arrived, and
      the listing has a stored result. */
  predicate AnnouncedAndStored(s: State, e: EventId, arrived: Arrivals, id: int, listing: RawListing) {
    PricedBy(s, e, arrived, id, listing) && listing.externalId in s.store.items
  }

  /** Ack on aggregation at the pricer: in every reachable state, faults included, an event that the
      service has completed has its priced row in the outbox, with its own event id and a result on
      the listing of one of its messages; and the listing has a stored result. */
  lemma CompletedMeansPriced(s: State, acts: seq<Action>, e: EventId)
    requires Init(s) && Valid(s, acts) && e !in s.c.inbox && IsCompleted(Exec(s, acts).c, e)
    ensures exists id, listing :: AnnouncedAndStored(Exec(s, acts), e, ArrivedIn(acts), id, listing)
  {
    LinksAlways(s, acts, s.c.inbox.Keys, {});
    TablesAlwaysAgree(s, acts);
    var arrived := {} + ArrivedIn(acts);
    assert arrived == ArrivedIn(acts);
    assert Priced(Exec(s, acts), e, arrived);
    var id, listing :| PricedBy(Exec(s, acts), e, arrived, id, listing);
    assert AnnouncedAndStored(Exec(s, acts), e, ArrivedIn(acts), id, listing);
  }

  // ---- completion can be had

  ghost predicate CanPrice(s: State, e: EventId) {
    exists acts :: IsPricingRun(s, acts, e)
  }

  /** A run at whose end the event is completed, nobody is at work, and its row has been published. */
  ghost predicate IsPricingRun(s: State, acts: seq<Action>, e: EventId) {
    && Valid(s, acts)
    && var t := Exec(s, acts);
       && IsCompleted(t.c, e) && t.c.handlers == map[]
       && exists id :: IsPublishedFor(t.store, id, e)
  }

  predicate IsPublishedFor(store: Sql, id: int, e: EventId) {
    id in store.outbox && store.outbox[id].status.Sent?
    && store.outbox[id].eventId == EventIdOf(Some(e), store.outbox[id].result)
  }

  lemma Before(s: State, x: Action, e: EventId)
    requires Enabled(s, x) && CanPrice(Apply(s, x), e)
    ensures CanPrice(s, e)
  {
    var rest :| IsPricingRun(Apply(s, x), rest, e);
    var acts := [x] + rest;
    assert acts[1..] == rest;
    assert IsPricingRun(s, acts, e);
  }

  /** A saved result whose row is there can be published, completed and acknowledged. */
  lemma SavedCanBeCompleted(s: State, h: nat, id: int)
    requires s.c.handlers.Keys == {h} && s.c.handlers[h].pc.Working? && s.c.handlers[h].msg.body.Event?
    requires h in s.saved && id in s.store.outbox
    requires s.store.outbox[id].eventId == EventIdOf(Some(s.c.handlers[h].msg.body.eventId), s.store.outbox[id].result)
    ensures CanPrice(s, s.c.handlers[h].msg.body.eventId)
  {
    var e := s.c.handlers[h].msg.body.eventId;
    var s1 := Apply(s, DrainStep(MarkPublished(id)));
    var s2 := Apply(s1, Consume(C.Complete(h)));
    assert s2.c.handlers[h].pc.Finished?;
    var s3 := Apply(s2, Consume(C.Ack(h)));
    assert s3.c.handlers == map[];
    assert IsPublishedFor(s3.store, id, e);
    assert IsPricingRun(s3, [], e);
    Before(s2, Consume(C.Ack(h)), e);
    Before(s1, Consume(C.Complete(h)), e);
    Before(s, DrainStep(MarkPublished(id)), e);
  }

  /** From every start a new event can be delivered, claimed, priced, completed and acknowledged, with
      its row published. */
  lemma NewEventCanBePriced(s: State, body: Body, result: PricingResult)
    requires Init(s) && body.Event? && body.eventId !in s.c.inbox && result.externalId == body.listing.externalId
    ensures CanPrice(s, body.eventId)
  {
    var e, h, m := body.eventId, s.c.nextHandler, R.Message(s.c.nextTag, body, None, false);
    var s1 := Apply(s, Consume(C.Arrive(body, None)));
    assert m in s1.c.work;
    var s2 := Apply(s1, Consume(C.Deliver(m)));
    assert s2.c.handlers == map[h := C.Handler(m, true, C.Start)];
    var s3 := Apply(s2, Consume(C.InsertClaim(h)));
    assert s3.c.handlers[h] == C.Handler(m, true, C.Working(s.c.clock));
    var s4 := Apply(s3, SaveResult(h, result));
    SavedCanBeCompleted(s4, h, s3.store.nextId);
    Before(s3, SaveResult(h, result), e);
    Before(s2, Consume(C.InsertClaim(h)), e);
    Before(s1, Consume(C.Deliver(m)), e);
    Before(s, Consume(C.Arrive(body, None)), e);
  }
}
