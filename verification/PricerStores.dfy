/** The pricer's two repositories, the one on SQL tables and the in-memory one, each as a step
    function on whole transactions and as a class whose methods take those steps. */
module PricerStores {
  import opened Types
  import Inbox

  /** The priced figures are opaque. */
  datatype PricingResult = PricingResult(externalId: ListingId, pricedAt: Time, figures: string)

  /** The identity, the headers and the payload of a claimed row. */
  datatype Message = Message(id: int, eventId: EventId, requestId: string, result: PricingResult)

  datatype Command =
    | TryClaim(event: EventId, reclaim: bool)
    | MarkCompleted(event: EventId)
    | ReleaseClaim(event: EventId)
    | Save(result: PricingResult, eventId: Option<EventId>, requestId: Option<string>)
    | ClaimPending(limit: int)
    | MarkPublished(outboxId: int)
    | ReleaseOutboxClaim(outboxId: int)

  datatype Reply = Done | Granted(claimed: bool) | Batch(messages: seq<Message>)

  /** An absent or empty id falls back to the listing's. */
  function EventIdOf(eventId: Option<EventId>, result: PricingResult): EventId {
    if eventId.Some? && eventId.value != "" then eventId.value else result.externalId
  }

  function OrEmpty(s: Option<string>): string { if s.Some? then s.value else "" }

  /** Some of the oldest claimable ids, in id order. */
  ghost predicate IsOldestSoFar(ids: seq<int>, claimable: set<int>, limit: int) {
    && (forall i, j :: 0 <= i < j < |ids| ==> ids[i] < ids[j])
    && (forall i :: 0 <= i < |ids| ==> ids[i] in claimable)
    && (forall i, q :: 0 <= i < |ids| && q in claimable && q !in ids ==> ids[i] < q)
    && |ids| <= (if limit < 0 then 0 else limit)
  }

  /** The batch both repositories hand out: short only when no claimable row is left. */
  ghost predicate IsOldest(ids: seq<int>, claimable: set<int>, limit: int) {
    IsOldestSoFar(ids, claimable, limit) && (|ids| < limit ==> forall q :: q in claimable ==> q in ids)
  }

  lemma NextOldest(ids: seq<int>, id: int, claimable: set<int>, limit: int)
    requires IsOldestSoFar(ids, claimable, limit) && |ids| < limit
    requires id in claimable && id !in ids && forall q :: q in claimable && q !in ids ==> id <= q
    ensures IsOldestSoFar(ids + [id], claimable, limit)
  {
  }

  predicate IsLeast(least: int, s: set<int>) {
    least in s && forall q :: q in s ==> least <= q
  }

  lemma EmptyOrInhabited(s: set<int>)
    ensures s == {} || exists x :: x in s
  {
    if forall x :: x !in s {
      assert s == {};
    }
  }

  lemma {:induction false} LeastExists(s: set<int>)
    requires s != {}
    ensures exists least :: IsLeast(least, s)
    decreases |s|
  {
    EmptyOrInhabited(s);
    var x :| x in s;
    if s == {x} {
      assert IsLeast(x, s);
    } else {
      var rest := s - {x};
      LeastExists(rest);
      var y :| IsLeast(y, rest);
      forall q | q in s ensures q == x || q in rest {}
      assert IsLeast(if y < x then y else x, s);
    }
  }

  ghost function Least(s: set<int>): (least: int)
    requires s != {}
    ensures IsLeast(least, s)
  {
    LeastExists(s);
    var least :| IsLeast(least, s);
    least
  }

  lemma FirstIsOldest(least: int, rest: seq<int>, claimable: set<int>, limit: int)
    requires IsLeast(least, claimable) && limit > 0 && IsOldest(rest, claimable - {least}, limit - 1)
    ensures IsOldest([least] + rest, claimable, limit)
  {
    var ids := [least] + rest;
    forall q | q in claimable && q !in ids ensures q in claimable - {least} && q !in rest {}
    forall q | q in claimable && |ids| < limit ensures q in ids {
      if q != least {
        assert q in claimable - {least};
      }
    }
  }

  ghost function Oldest(claimable: set<int>, limit: int): (ids: seq<int>)
    ensures IsOldest(ids, claimable, limit)
    decreases |claimable|
  {
    if limit <= 0 || claimable == {} then []
    else
      var least := Least(claimable);
      FirstIsOldest(least, Oldest(claimable - {least}, limit - 1), claimable, limit);
      [least] + Oldest(claimable - {least}, limit - 1)
  }

  /** A batch is determined by what is claimable, so the two loops cannot hand out different ones. */
  lemma {:induction false} OldestIsUnique(a: seq<int>, b: seq<int>, claimable: set<int>, limit: int)
    requires IsOldest(a, claimable, limit) && IsOldest(b, claimable, limit)
    ensures a == b
    decreases |a|
  {
    if |a| == 0 {
      NoLonger(b, claimable, limit);
    } else if |b| == 0 {
      NoLonger(a, claimable, limit);
    } else {
      SameFirst(a, b, claimable, limit);
      var least := a[0];
      TailIsOldest(a, claimable, limit);
      TailIsOldest(b, claimable, limit);
      OldestIsUnique(a[1..], b[1..], claimable - {least}, limit - 1);
      assert a == [least] + a[1..] && b == [least] + b[1..];
    }
  }

  lemma BatchFromSome(a: seq<int>, claimable: set<int>, limit: int)
    requires IsOldest(a, claimable, limit) && |a| > 0
    ensures exists q :: q in claimable
  {
    var q := a[0];
    assert q in claimable;
  }

  lemma NoLonger(a: seq<int>, claimable: set<int>, limit: int)
    requires IsOldest(a, claimable, limit) && IsOldest([], claimable, limit)
    ensures a == []
  {
    EmptyOrInhabited(claimable);
    if |a| > 0 {
      BatchFromSome(a, claimable, limit);
    }
  }

  lemma FirstIsLeast(a: seq<int>, claimable: set<int>, limit: int)
    requires IsOldest(a, claimable, limit) && |a| > 0
    ensures a[0] in claimable && forall q :: q in claimable ==> a[0] <= q
  {
    forall q | q in claimable ensures a[0] <= q {
      if q in a {
        var i :| 0 <= i < |a| && a[i] == q;
      }
    }
  }

  lemma SameFirst(a: seq<int>, b: seq<int>, claimable: set<int>, limit: int)
    requires IsOldest(a, claimable, limit) && IsOldest(b, claimable, limit) && |a| > 0 && |b| > 0
    ensures a[0] == b[0]
  {
    FirstIsLeast(a, claimable, limit);
    FirstIsLeast(b, claimable, limit);
  }

  lemma TailIsOldest(a: seq<int>, claimable: set<int>, limit: int)
    requires IsOldest(a, claimable, limit) && |a| > 0
    ensures IsOldest(a[1..], claimable - {a[0]}, limit - 1)
  {
    forall q | q in a && q != a[0] ensures q in a[1..] {
      var i :| 0 <= i < |a| && a[i] == q;
      assert a[1..][i - 1] == q;
    }
  }

  function IdsOf(messages: seq<Message>): seq<int> {
    seq(|messages|, i requires 0 <= i < |messages| => messages[i].id)
  }

  // ---- in memory

  datatype InboxStatus = Processing | Completed

  datatype Memory = Memory(
    items: map<ListingId, PricingResult>, inbox: map<EventId, InboxStatus>,
    outbox: map<int, Message>, processing: set<int>, published: set<int>, nextId: int)
  {
    /** Ids are handed out from one up. */
    ghost predicate Numbered() {
      && nextId >= 1
      && (forall id :: id in outbox <==> 1 <= id < nextId)
      && (forall id :: id in outbox ==> outbox[id].id == id)
    }

    /** And only those are ever leased or marked. */
    ghost predicate Valid() {
      && Numbered()
      && processing <= outbox.Keys && processing !! published
      && (forall id :: id in published ==> id < nextId)
    }

    function Pending(): set<int> { outbox.Keys - published - processing }
  }

  ghost function Messages(outbox: map<int, Message>, ids: seq<int>): seq<Message>
    requires forall i :: 0 <= i < |ids| ==> ids[i] in outbox
  {
    seq(|ids|, i requires 0 <= i < |ids| => outbox[ids[i]])
  }

  ghost function Elements(ids: seq<int>): set<int> { set i | 0 <= i < |ids| :: ids[i] }

  /** What a scan in id order has taken once it reached `bound`. */
  ghost predicate TakenBelow(ids: seq<int>, pending: set<int>, bound: int) {
    && (forall i, j :: 0 <= i < j < |ids| ==> ids[i] < ids[j])
    && (forall i :: 0 <= i < |ids| ==> ids[i] in pending && ids[i] < bound)
    && (forall q :: q in pending && q < bound ==> q in ids)
  }

  lemma NotYetTaken(ids: seq<int>, pending: set<int>, id: int)
    requires TakenBelow(ids, pending, id)
    ensures id !in Elements(ids)
    ensures id !in pending ==> TakenBelow(ids, pending, id + 1)
  {
  }

  lemma TakeNext(ids: seq<int>, pending: set<int>, id: int)
    requires TakenBelow(ids, pending, id) && id in pending
    ensures TakenBelow(ids + [id], pending, id + 1)
    ensures Elements(ids + [id]) == Elements(ids) + {id}
  {
    var more := ids + [id];
    assert more[|ids|] == id;
    forall q | q in pending && q < id + 1 ensures q in more {}
    forall x | x in Elements(ids) + {id} ensures x in Elements(more) {
      if x != id {
        var i :| 0 <= i < |ids| && ids[i] == x;
        assert more[i] == x;
      }
    }
  }

  lemma TakenIsOldest(ids: seq<int>, pending: set<int>, id: int, limit: int, end: int)
    requires TakenBelow(ids, pending, id) && |ids| <= (if limit < 0 then 0 else limit)
    requires forall q :: q in pending ==> q < end
    requires id >= end || |ids| >= limit
    ensures ids == Oldest(pending, limit)
  {
    assert IsOldest(ids, pending, limit);
    OldestIsUnique(ids, Oldest(pending, limit), pending, limit);
  }

  ghost function MemoryStep(m: Memory, c: Command): (Memory, Reply) {
    match c
    case TryClaim(e, reclaim) =>
      if e !in m.inbox then (m.(inbox := m.inbox[e := Processing]), Granted(true))
      else (m, Granted(m.inbox[e].Processing? && reclaim))
    case MarkCompleted(e) => (m.(inbox := m.inbox[e := Completed]), Done)
    case ReleaseClaim(e) =>
      (if e in m.inbox && m.inbox[e].Processing? then m.(inbox := m.inbox - {e}) else m, Done)
    case Save(result, eventId, requestId) =>
      (m.(items := m.items[result.externalId := result],
          outbox := m.outbox[m.nextId := Message(m.nextId, EventIdOf(eventId, result), OrEmpty(requestId), result)],
          nextId := m.nextId + 1), Done)
    case ClaimPending(limit) =>
      var ids := Oldest(m.Pending(), limit);
      (m.(processing := m.processing + Elements(ids)), Batch(Messages(m.outbox, ids)))
    case MarkPublished(id) =>
      (m.(processing := m.processing - {id}, published := m.published + {id}), Done)
    case ReleaseOutboxClaim(id) =>
      (m.(processing := m.processing - {id}), Done)
  }

  /** A batch of the oldest ids that are neither published nor leased, each with its message; just
      these are leased, and nothing else changes. */
  ghost predicate MemoryHandsOut(before: Memory, after: Memory, claimed: seq<Message>, limit: int) {
    && IsOldest(IdsOf(claimed), before.outbox.Keys - before.published - before.processing, limit)
    && (forall i :: 0 <= i < |claimed| ==>
          claimed[i].id in before.outbox && claimed[i] == before.outbox[claimed[i].id])
    && (forall id :: id in after.processing <==> id in before.processing || id in IdsOf(claimed))
    && after == before.(processing := after.processing)
  }

  lemma MemoryStepHandsOut(m: Memory, limit: int)
    requires m.Numbered()
    ensures var step := MemoryStep(m, ClaimPending(limit)); MemoryHandsOut(m, step.0, step.1.messages, limit)
  {
    var ids := Oldest(m.Pending(), limit);
    assert IdsOf(Messages(m.outbox, ids)) == ids;
    assert forall id :: id in Elements(ids) <==> id in ids;
  }

  class InMemoryPricingRepository {
    var items: map<ListingId, PricingResult>
    var inbox: map<EventId, InboxStatus>
    var outbox: map<int, Message>
    var processing: set<int>
    var published: set<int>
    var nextOutboxId: int

    ghost function State(): Memory
      reads this
    {
      Memory(items, inbox, outbox, processing, published, nextOutboxId)
    }

    constructor ()
      ensures State() == Memory(map[], map[], map[], {}, {}, 1) && State().Valid()
    {
      items, inbox, outbox, processing, published, nextOutboxId := map[], map[], map[], {}, {}, 1;
    }

    method TryClaim(event: EventId, reclaimProcessing: bool) returns (claimed: bool)
      modifies this`inbox
      ensures claimed <==> event !in old(inbox) || (old(inbox)[event] == Processing && reclaimProcessing)
      ensures inbox == if event in old(inbox) then old(inbox) else old(inbox)[event := Processing]
      ensures (State(), Granted(claimed)) == MemoryStep(old(State()), Command.TryClaim(event, reclaimProcessing))
    {
      if event !in inbox {
        inbox := inbox[event := Processing];
        return true;
      }
      if inbox[event].Completed? {
        return false;
      }
      return inbox[event].Processing? && reclaimProcessing;
    }

    method MarkCompleted(event: EventId)
      modifies this`inbox
      ensures inbox == old(inbox)[event := Completed]
      ensures State() == MemoryStep(old(State()), Command.MarkCompleted(event)).0
    {
      inbox := inbox[event := Completed];
    }

    method ReleaseClaim(event: EventId)
      modifies this`inbox
      ensures inbox ==
        if event in old(inbox) && old(inbox)[event] == Processing then old(inbox) - {event} else old(inbox)
      ensures State() == MemoryStep(old(State()), Command.ReleaseClaim(event)).0
    {
      if event in inbox && inbox[event] == Processing {
        inbox := inbox - {event};
      }
    }

    method Save(result: PricingResult, eventId: Option<EventId>, requestId: Option<string>)
      modifies this`items, this`outbox, this`nextOutboxId
      ensures items == old(items)[result.externalId := result] && nextOutboxId == old(nextOutboxId) + 1
      ensures outbox == old(outbox)[old(nextOutboxId) := Message(
        old(nextOutboxId),
        if eventId.None? || eventId.value == "" then result.externalId else eventId.value,
        if requestId.None? then "" else requestId.value,
        result)]
      ensures State() == MemoryStep(old(State()), Command.Save(result, eventId, requestId)).0
    {
      items := items[result.externalId := result];
      var outboxId := nextOutboxId;
      nextOutboxId := nextOutboxId + 1;
      outbox := outbox[outboxId := Message(outboxId, EventIdOf(eventId, result), OrEmpty(requestId), result)];
    }

    /** One scan in id order, skipping what is published or claimed. */
    method ClaimPending(limit: int) returns (claimed: seq<Message>)
      requires State().Numbered()
      modifies this`processing
      ensures MemoryHandsOut(old(State()), State(), claimed, limit)
      ensures (State(), Batch(claimed)) == MemoryStep(old(State()), Command.ClaimPending(limit))
    {
      claimed := [];
      ghost var ids: seq<int> := [];
      ghost var before, pending := State(), State().Pending();
      var id := 1;
      while id < nextOutboxId
        invariant 1 <= id <= nextOutboxId
        invariant |ids| <= (if limit < 0 then 0 else limit)
        invariant TakenBelow(ids, pending, id)
        invariant processing == old(processing) + Elements(ids)
        invariant claimed == Messages(outbox, ids)
      {
        NotYetTaken(ids, pending, id);
        if id in published || id in processing {
          id := id + 1;
          continue;
        }
        if |claimed| >= limit {
          break;
        }
        TakeNext(ids, pending, id);
        processing := processing + {id};
        claimed := claimed + [outbox[id]];
        ids := ids + [id];
        id := id + 1;
      }
      TakenIsOldest(ids, pending, id, limit, nextOutboxId);
      assert State() == before.(processing := before.processing + Elements(ids));
      MemoryStepHandsOut(before, limit);
    }

    method MarkPublished(outboxId: int)
      modifies this`processing, this`published
      ensures processing == old(processing) - {outboxId} && published == old(published) + {outboxId}
      ensures State() == MemoryStep(old(State()), Command.MarkPublished(outboxId)).0
    {
      processing := processing - {outboxId};
      published := published + {outboxId};
    }

    method ReleaseOutboxClaim(outboxId: int)
      modifies this`processing
      ensures processing == old(processing) - {outboxId}
      ensures State() == MemoryStep(old(State()), Command.ReleaseOutboxClaim(outboxId)).0
    {
      processing := processing - {outboxId};
    }
  }

  // ---- on SQL tables

  datatype RowStatus = Waiting | Leased(claimedAt: Time) | Sent(publishedAt: Time)

  datatype Row = Row(eventId: EventId, requestId: string, result: PricingResult, status: RowStatus)

  datatype Sql = Sql(
    items: map<ListingId, PricingResult>, inbox: Inbox.Table, outbox: map<int, Row>, nextId: int)
  {
    ghost predicate Valid() {
      && nextId >= 1
      && (forall id :: id in outbox <==> 1 <= id < nextId)
      && HasStatuses()
    }

    /** The status column is never null. */
    ghost predicate HasStatuses() {
      forall e :: e in inbox ==> !inbox[e].Legacy?
    }

    predicate IsStale(id: int, now: Time) {
      id in outbox && outbox[id].status.Leased? && outbox[id].status.claimedAt < now - CLAIM_STALE_AFTER
    }

    predicate IsClaimable(id: int, now: Time) {
      id in outbox && (outbox[id].status.Waiting? || IsStale(id, now))
    }

    ghost function Claimable(now: Time): set<int> { set id | id in outbox && IsClaimable(id, now) }
  }

  function AsMessage(id: int, row: Row): Message { Message(id, row.eventId, row.requestId, row.result) }

  function AllMessages(outbox: map<int, Row>): map<int, Message> {
    map id | id in outbox :: AsMessage(id, outbox[id])
  }

  ghost function WithStatus(outbox: map<int, Row>, ids: seq<int>, status: RowStatus): map<int, Row> {
    map id | id in outbox :: if id in ids then outbox[id].(status := status) else outbox[id]
  }

  /** A row leased in this transaction is not claimed again by it. */
  lemma LeftClaimable(s: Sql, ids: seq<int>, now: Time)
    ensures forall q :: q in s.(outbox := WithStatus(s.outbox, ids, Leased(now))).Claimable(now) <==>
      q in s.Claimable(now) && q !in ids
  {
  }

  ghost function SqlStep(s: Sql, c: Command, now: Time): (Sql, Reply) {
    match c
    case TryClaim(e, reclaim) =>
      (s.(inbox := Inbox.Apply(s.inbox, Inbox.Claim(e, reclaim, now))),
       Granted(Inbox.ClaimOutcome(s.inbox, e, reclaim, now).Some?))
    case MarkCompleted(e) => (s.(inbox := Inbox.MarkCompleted(s.inbox, e, now)), Done)
    case ReleaseClaim(e) => (s.(inbox := Inbox.ReleaseClaim(s.inbox, e)), Done)
    case Save(result, eventId, requestId) =>
      (s.(items := s.items[result.externalId := result],
          outbox := s.outbox[s.nextId := Row(EventIdOf(eventId, result), OrEmpty(requestId), result, Waiting)],
          nextId := s.nextId + 1), Done)
    case ClaimPending(limit) =>
      var ids := Oldest(s.Claimable(now), limit);
      (s.(outbox := WithStatus(s.outbox, ids, Leased(now))), Batch(Messages(AllMessages(s.outbox), ids)))
    case MarkPublished(id) => (s.(outbox := WithStatus(s.outbox, [id], Sent(now))), Done)
    case ReleaseOutboxClaim(id) =>
      (if id in s.outbox && s.outbox[id].status.Leased? then s.(outbox := WithStatus(s.outbox, [id], Waiting)) else s,
       Done)
  }

  /** Rows that wait, and rows whose lease is more than five minutes old. */
  ghost function Unleased(s: Sql, now: Time): set<int> {
    set id | id in s.outbox
      && (|| s.outbox[id].status.Waiting?
          || (s.outbox[id].status.Leased? && s.outbox[id].status.claimedAt + 5 * 60 * 1000 < now))
  }

  /** A batch of the oldest unleased ids, each with its row's event, header and result; just these
      rows are leased, and nothing else changes. */
  ghost predicate SqlHandsOut(before: Sql, after: Sql, claimed: seq<Message>, limit: int, now: Time) {
    && IsOldest(IdsOf(claimed), Unleased(before, now), limit)
    && (forall i :: 0 <= i < |claimed| ==> claimed[i].id in before.outbox)
    && (forall i :: 0 <= i < |claimed| ==>
          var row := before.outbox[claimed[i].id];
          claimed[i].eventId == row.eventId && claimed[i].requestId == row.requestId && claimed[i].result == row.result)
    && after.outbox.Keys == before.outbox.Keys
    && (forall id :: id in before.outbox ==>
          after.outbox[id] ==
            if id in IdsOf(claimed) then before.outbox[id].(status := Leased(now)) else before.outbox[id])
    && after == before.(outbox := after.outbox)
  }

  lemma SqlStepHandsOut(s: Sql, limit: int, now: Time)
    ensures var step := SqlStep(s, ClaimPending(limit), now); SqlHandsOut(s, step.0, step.1.messages, limit, now)
  {
    var ids := Oldest(s.Claimable(now), limit);
    assert IdsOf(Messages(AllMessages(s.outbox), ids)) == ids;
    assert Unleased(s, now) == s.Claimable(now);
  }

  class PricingRepository {
    var items: map<ListingId, PricingResult>
    var inbox: Inbox.Table
    var outbox: map<int, Row>
    var nextId: int

    ghost function State(): Sql
      reads this
    {
      Sql(items, inbox, outbox, nextId)
    }

    constructor ()
      ensures State() == Sql(map[], map[], map[], 1) && State().Valid()
    {
      items, inbox, outbox, nextId := map[], map[], map[], 1;
    }

    /** Insert, or on a duplicate key update the row if its lease may be taken over. */
    method TryClaim(event: EventId, reclaimProcessing: bool, now: Time) returns (claimed: bool)
      requires State().HasStatuses()
      modifies this`inbox
      ensures claimed <==>
        || event !in old(inbox)
        || (old(inbox)[event].Processing? && reclaimProcessing)
        || (old(inbox)[event].Processing? && old(inbox)[event].claimedAt + 5 * 60 * 1000 < now)
      ensures inbox == if claimed then old(inbox)[event := Inbox.Processing(now)] else old(inbox)
      ensures (State(), Granted(claimed)) == SqlStep(old(State()), Command.TryClaim(event, reclaimProcessing), now)
    {
      if event !in inbox {
        inbox := inbox[event := Inbox.Processing(now)];
        return true;
      }
      claimed := inbox[event].Processing? && (reclaimProcessing || inbox[event].claimedAt < now - CLAIM_STALE_AFTER);
      if claimed {
        inbox := inbox[event := Inbox.Processing(now)];
      }
    }

    method MarkCompleted(event: EventId, now: Time)
      modifies this`inbox
      ensures inbox == old(inbox)[event := Inbox.Completed(now)]
      ensures State() == SqlStep(old(State()), Command.MarkCompleted(event), now).0
    {
      inbox := inbox[event := Inbox.Completed(now)];
    }

    method ReleaseClaim(event: EventId, now: Time)
      modifies this`inbox
      ensures inbox ==
        if event in old(inbox) && old(inbox)[event].Processing? then old(inbox) - {event} else old(inbox)
      ensures State() == SqlStep(old(State()), Command.ReleaseClaim(event), now).0
    {
      if event in inbox && inbox[event].Processing? {
        inbox := inbox - {event};
      }
    }

    method Save(result: PricingResult, eventId: Option<EventId>, requestId: Option<string>, now: Time)
      modifies this`items, this`outbox, this`nextId
      ensures items == old(items)[result.externalId := result] && nextId == old(nextId) + 1
      ensures outbox == old(outbox)[old(nextId) := Row(
        if eventId.None? || eventId.value == "" then result.externalId else eventId.value,
        if requestId.None? then "" else requestId.value,
        result, Waiting)]
      ensures State() == SqlStep(old(State()), Command.Save(result, eventId, requestId), now).0
    {
      items := items[result.externalId := result];
      outbox := outbox[nextId := Row(EventIdOf(eventId, result), OrEmpty(requestId), result, Waiting)];
      nextId := nextId + 1;
    }

    method FirstClaimable(now: Time) returns (id: Option<int>)
      ensures id.None? <==> State().Claimable(now) == {}
      ensures id.Some? ==> IsLeast(id.value, State().Claimable(now))
    {
      var open := set id | id in outbox && (outbox[id].status.Waiting? ||
        (outbox[id].status.Leased? && outbox[id].status.claimedAt < now - CLAIM_STALE_AFTER));
      assert open == State().Claimable(now);
      if open == {} {
        return None;
      }
      LeastExists(open);
      var least :| least in open && IsLeast(least, open);
      id := Some(least);
    }

    /** Up to `limit` times, the first claimable row by id. */
    method ClaimPending(limit: int, now: Time) returns (claimed: seq<Message>)
      modifies this`outbox
      ensures SqlHandsOut(old(State()), State(), claimed, limit, now)
      ensures (State(), Batch(claimed)) == SqlStep(old(State()), Command.ClaimPending(limit), now)
    {
      claimed := [];
      ghost var ids: seq<int> := [];
      ghost var before := State();
      ghost var claimable := before.Claimable(now);
      assert outbox == WithStatus(before.outbox, [], Leased(now));
      while |claimed| < limit
        invariant IsOldestSoFar(ids, claimable, limit)
        invariant outbox == WithStatus(before.outbox, ids, Leased(now))
        invariant claimed == Messages(AllMessages(before.outbox), ids)
      {
        LeftClaimable(before, ids, now);
        var first := FirstClaimable(now);
        if first.None? {
          break;
        }
        var id := first.value;
        NextOldest(ids, id, claimable, limit);
        claimed := claimed + [AsMessage(id, outbox[id])];
        outbox := outbox[id := outbox[id].(status := Leased(now))];
        ids := ids + [id];
      }
      OldestIsUnique(ids, Oldest(claimable, limit), claimable, limit);
      SqlStepHandsOut(before, limit, now);
    }

    method MarkPublished(outboxId: int, now: Time)
      modifies this`outbox
      ensures outbox == if outboxId in old(outbox)
                        then old(outbox)[outboxId := old(outbox)[outboxId].(status := Sent(now))] else old(outbox)
      ensures State() == SqlStep(old(State()), Command.MarkPublished(outboxId), now).0
    {
      if outboxId !in outbox {
        assert outbox == WithStatus(outbox, [outboxId], Sent(now));
        return;
      }
      outbox := outbox[outboxId := outbox[outboxId].(status := Sent(now))];
    }

    method ReleaseOutboxClaim(outboxId: int, now: Time)
      modifies this`outbox
      ensures outbox == if outboxId in old(outbox) && old(outbox)[outboxId].status.Leased?
                        then old(outbox)[outboxId := old(outbox)[outboxId].(status := Waiting)] else old(outbox)
      ensures State() == SqlStep(old(State()), Command.ReleaseOutboxClaim(outboxId), now).0
    {
      if outboxId in outbox && outbox[outboxId].status.Leased? {
        outbox := outbox[outboxId := outbox[outboxId].(status := Waiting)];
      }
    }
  }
}
