/** When the acknowledgement of an event follows the delivery of its result: publishing enqueues the
    result's row and drains once, inline, and whatever that drain comes to the event is completed
    and acknowledged. */
module InlineAck {
  import opened Types
  import opened Pipeline
  import opened Outbox
  import opened OutboxDrain
  import opened Batches
  import opened InlineDrain
  import C = Consumer
  import E = Enrichment
  import O = OutboxProtocol
  import Conservation

  /** A step of a drainer, in the whole: the delivery of a raw row puts a message on the work queue. */
  function InWhole(s: State, o: O.Action): Step {
    if DeliversRaw(s, o) then
      Step(Some(C.Arrive(Received(s.ob.drainers[o.d].docs[0].payload), None)), None, Some(o))
    else Step(None, None, Some(o))
  }

  ghost function Lifted(s: State, acts: seq<O.Action>): seq<Step>
    requires O.Valid(s.ob, acts) && AllDrainSteps(acts)
    decreases |acts|
  {
    if acts == [] then []
    else
      assert IsDrainStep(acts[0]);
      [InWhole(s, acts[0])] + Lifted(Apply(s, InWhole(s, acts[0])), acts[1..])
  }

  /** Everything but the outbox and the messages on the work queue is as it was. */
  predicate OnlyDrained(s: State, t: State) {
    && t.en == s.en && t.c.handlers == s.c.handlers && t.c.inbox == s.c.inbox && t.c.clock == s.c.clock
    && s.c.work <= t.c.work && t.c.retry == s.c.retry && t.c.dlq == s.c.dlq
  }

  lemma {:induction false} LiftedRuns(s: State, acts: seq<O.Action>)
    requires O.Valid(s.ob, acts) && AllDrainSteps(acts)
    ensures Valid(s, Lifted(s, acts))
    ensures var t := Exec(s, Lifted(s, acts)); t.ob == O.Exec(s.ob, acts) && OnlyDrained(s, t)
    decreases |acts|
  {
    if acts != [] {
      var x := InWhole(s, acts[0]);
      assert IsDrainStep(acts[0]);
      assert Enabled(s, x);
      LiftedRuns(Apply(s, x), acts[1..]);
      assert ([x] + Lifted(Apply(s, x), acts[1..]))[1..] == Lifted(Apply(s, x), acts[1..]);
    }
  }

  lemma {:induction false} Concatenated(s: State, a: seq<Step>, b: seq<Step>)
    requires Valid(s, a) && Valid(Exec(s, a), b)
    ensures Valid(s, a + b) && Exec(s, a + b) == Exec(Exec(s, a), b)
    decreases |a|
  {
    if a == [] {
      assert a + b == b;
    } else {
      assert (a + b)[0] == a[0] && (a + b)[1..] == a[1..] + b;
      Concatenated(Apply(s, a[0]), a[1..], b);
    }
  }

  // ---- the run

  /** The handler `h` has its attempt's document to publish, and `r` is a free row for it. */
  ghost predicate ReadyToPublish(s: State, h: nat, r: RowId) {
    && h in s.c.handlers && s.c.handlers[h].pc.Working? && s.c.handlers[h].msg.body.Event?
    && h in s.en.attempts && s.en.attempts[h].pc.Publish?
    && s.en.attempts[h].eventId == s.c.handlers[h].msg.body.eventId
    && r !in s.ob.rows && forall doc :: doc in s.ob.delivered ==> doc.id != r
  }

  function ResultPayload(s: State, h: nat): Payload
    requires h in s.en.attempts && s.en.attempts[h].pc.Publish?
  {
    EnrichedEvent(s.en.attempts[h].eventId, s.en.attempts[h].pc.document, None, 0)
  }

  function ResultRow(s: State, h: nat): Row
    requires h in s.en.attempts && s.en.attempts[h].pc.Publish?
  {
    Row(ResultPayload(s, h), s.ob.clock, Pending)
  }

  function Publishing(s: State, h: nat, r: RowId): Step
    requires h in s.en.attempts && s.en.attempts[h].pc.Publish?
  {
    Step(None, Some(E.DoPublish(h)), Some(O.Enqueue(r, ResultPayload(s, h))))
  }

  /** The inline drain. A claim that raises leaves the rows it got leased. */
  function InlineActs(d: nat, batch: seq<RowId>, claimRaisesAfter: Option<nat>, fates: Fates): seq<O.Action> {
    var limit := Claims(DRAIN_LIMIT, claimRaisesAfter);
    if claimRaisesAfter.Some? then [O.StartDrain(d, limit)] + (ClaimActs(d, batch, 0) + [O.Crash(d)])
    else DrainActs(d, limit, batch, fates)
  }

  /** Publish and enqueue, drain inline, complete, acknowledge. */
  ghost function PublishToAck(s: State, h: nat, r: RowId, acts: seq<O.Action>): seq<Step>
    requires ReadyToPublish(s, h, r) && Enabled(s, Publishing(s, h, r))
    requires O.Valid(Apply(s, Publishing(s, h, r)).ob, acts) && AllDrainSteps(acts)
  {
    [Publishing(s, h, r)]
      + (Lifted(Apply(s, Publishing(s, h, r)), acts)
        + [Step(Some(C.Complete(h)), None, None), Step(Some(C.Ack(h)), None, None)])
  }

  lemma CompleteThenAck(s: State, h: nat)
    requires h in s.c.handlers && s.c.handlers[h].pc.Working? && s.c.handlers[h].msg.body.Event?
    requires h in s.en.attempts && s.en.attempts[h].pc.Published?
    ensures var steps := [Step(Some(C.Complete(h)), None, None), Step(Some(C.Ack(h)), None, None)];
      && Valid(s, steps) && var t := Exec(s, steps);
         t.ob == s.ob && Conservation.RowIsCompleted(t.c, s.c.handlers[h].Key()) && h !in t.c.handlers
  {
    var complete, ack := Step(Some(C.Complete(h)), None, None), Step(Some(C.Ack(h)), None, None);
    var steps := [complete, ack];
    var s1 := Apply(s, complete);
    assert s1.c.handlers[h].pc.Finished?;
    assert Enabled(s1, ack);
    assert steps[1..] == [ack] && [ack][1..] == [];
    assert Exec(s1, [ack]) == Apply(s1, ack);
  }

  /** Whatever the inline drain does, the run goes through to the acknowledgement. */
  lemma RunsToAck(s: State, h: nat, r: RowId, acts: seq<O.Action>)
    requires ReadyToPublish(s, h, r) && Enabled(s, Publishing(s, h, r))
    requires O.Valid(Apply(s, Publishing(s, h, r)).ob, acts) && AllDrainSteps(acts)
    ensures var steps := PublishToAck(s, h, r, acts);
      && Valid(s, steps) && var t := Exec(s, steps);
         && t.ob == O.Exec(Apply(s, Publishing(s, h, r)).ob, acts)
         && Conservation.RowIsCompleted(t.c, s.c.handlers[h].Key()) && h !in t.c.handlers
  {
    var x := Publishing(s, h, r);
    var s1 := Apply(s, x);
    LiftedRuns(s1, acts);
    var s2 := Exec(s1, Lifted(s1, acts));
    CompleteThenAck(s2, h);
    var settle := [Step(Some(C.Complete(h)), None, None), Step(Some(C.Ack(h)), None, None)];
    Concatenated(s1, Lifted(s1, acts), settle);
    assert ([x] + (Lifted(s1, acts) + settle))[1..] == Lifted(s1, acts) + settle;
  }

  lemma PublishingIsEnabled(s: State, h: nat, r: RowId)
    requires ReadyToPublish(s, h, r)
    ensures Enabled(s, Publishing(s, h, r))
    ensures var ob := Apply(s, Publishing(s, h, r)).ob;
      ob.rows == s.ob.rows[r := ResultRow(s, h)] && ob.drainers == s.ob.drainers && ob.delivered == s.ob.delivered
        && ob.clock == s.ob.clock
  {
  }

  /** What the inline drain adds to what has been delivered. */
  lemma InlineOutcome(ob: O.State, d: nat, batch: seq<RowId>, claimRaisesAfter: Option<nat>, fates: Fates)
    requires d !in ob.drainers && IsOldestBatch(ob.rows, batch, Claims(DRAIN_LIMIT, claimRaisesAfter), ob.clock)
    ensures forall q :: q in batch ==> q in ob.rows
    ensures var acts := InlineActs(d, batch, claimRaisesAfter, fates);
      && O.Valid(ob, acts) && AllDrainSteps(acts)
      && O.Exec(ob, acts).delivered == ob.delivered
           + (if claimRaisesAfter.Some? then [] else DocsOf(ob.rows, SentOf(batch[..Handled(batch, fates)], fates)))
  {
    var limit := Claims(DRAIN_LIMIT, claimRaisesAfter);
    DrainIsARun(ob, d, limit, batch, fates);
    if claimRaisesAfter.Some? {
      var s1, s2 := O.Apply(ob, O.StartDrain(d, limit)), Claimed(ob, d, batch, |batch|, limit);
      StartedIsClaimed(ob, d, batch, limit);
      ClaimRun(ob, d, batch, 0, limit);
      var t := O.Apply(s2, O.Crash(d));
      First(s2, O.Crash(d), [], t);
      Then(s1, ClaimActs(d, batch, 0), s2, [O.Crash(d)], t);
      First(ob, O.StartDrain(d, limit), ClaimActs(d, batch, 0) + [O.Crash(d)], t);
    }
  }

  lemma DeliveredIffSent(rows: Rows, sent: seq<RowId>, r: RowId)
    requires (forall q :: q in sent ==> q in rows) && r in rows
    ensures O.Doc(r, rows[r].payload) in DocsOf(rows, sent) <==> r in sent
  {
    var docs := DocsOf(rows, sent);
    if r in sent {
      var k :| 0 <= k < |sent| && sent[k] == r;
      assert docs[k] == O.Doc(r, rows[r].payload);
    }
  }

  /** Exactly when the acknowledgement of an event follows the delivery of its result, read off the
      outbox before the publish, for a result newer than everything claimable and no other drain in
      between: when the inline drain's claim does not raise, fewer rows than its limit could be
      claimed before, no release in front of the result raises, and the result's own publish gets
      to the broker. The event is completed and acknowledged in any case. */
  lemma AckFollowsDeliveryIff(s: State, h: nat, r: RowId, d: nat, batch: seq<RowId>, claimRaisesAfter: Option<nat>,
                              fates: Fates)
    requires ReadyToPublish(s, h, r) && d !in s.ob.drainers && IsNewest(s.ob.rows, s.ob.clock, s.ob.clock)
    requires IsOldestBatch(s.ob.rows[r := ResultRow(s, h)], batch, Claims(DRAIN_LIMIT, claimRaisesAfter), s.ob.clock)
    ensures Enabled(s, Publishing(s, h, r))
    ensures var acts, ob := InlineActs(d, batch, claimRaisesAfter, fates), Apply(s, Publishing(s, h, r)).ob;
      O.Valid(ob, acts) && AllDrainSteps(acts)
    ensures var steps := PublishToAck(s, h, r, InlineActs(d, batch, claimRaisesAfter, fates));
      && Valid(s, steps) && var t := Exec(s, steps);
         && Conservation.RowIsCompleted(t.c, s.c.handlers[h].Key()) && h !in t.c.handlers
         && (O.Doc(r, ResultPayload(s, h)) in t.ob.delivered <==>
               InlineDrainSends(s.ob.rows, DRAIN_LIMIT, s.ob.clock, claimRaisesAfter, fates, r))
  {
    PublishingIsEnabled(s, h, r);
    var ob := Apply(s, Publishing(s, h, r)).ob;
    InlineOutcome(ob, d, batch, claimRaisesAfter, fates);
    RunsToAck(s, h, r, InlineActs(d, batch, claimRaisesAfter, fates));
    if claimRaisesAfter.None? {
      var n := Handled(batch, fates);
      NewRowIsHandledIff(s.ob.rows, r, ResultRow(s, h), batch, DRAIN_LIMIT, s.ob.clock, fates);
      InReaching(batch[..n], r, fates);
      DeliveredIffSent(ob.rows, SentOf(batch[..n], fates), r);
    }
  }
}
