/** A message is dead-lettered only after a failure row of its own has been enqueued. */
module FailureReports {
  import opened Types
  import opened Retry
  import opened Pipeline
  import C = Consumer
  import O = OutboxProtocol
  import Outbox

  /** The step enqueues row `r` for the failure of `m`. */
  ghost predicate Reports(s: State, x: Step, m: Message, r: Outbox.RowId)
    requires Enabled(s, x)
  {
    && x.ca.Some? && x.ca.value.ReportFailure? && s.c.handlers[x.ca.value.h].msg == m
    && x.oa.value.r == r
  }

  ghost predicate ReportedAs(s: State, steps: seq<Step>, m: Message, r: Outbox.RowId)
    requires Valid(s, steps)
    decreases |steps|
  {
    steps != [] && (Reports(s, steps[0], m, r) || ReportedAs(Apply(s, steps[0]), steps[1..], m, r))
  }

  /** Names the event, or the stand-ins for a body that does not parse, and the message's count or,
      for attempts that are used up, the next one. */
  predicate IsFailureOf(payload: Outbox.Payload, m: Message, maxRetries: int) {
    var body, count := m.body, ReadRetryCount(m);
    && payload.FailedEvent?
    && (payload.retryCount == count || (payload.retryCount == count + 1 && count + 1 >= maxRetries))
    && (if body.Event? then payload.eventId == body.eventId && payload.externalId == body.listing.externalId
                            && payload.requestId == body.requestId
        else payload.externalId == UNKNOWN_EXTERNAL_ID && payload.requestId == None)
  }

  predicate HasFailureRow(s: State, m: Message, r: Outbox.RowId) {
    r in s.ob.rows && IsFailureOf(s.ob.rows[r].payload, m, s.c.maxRetries)
  }

  /** A handler that gives up knows the count it is going to report. */
  ghost predicate CountsKnown(c: C.State) {
    forall h :: h in c.handlers && c.handlers[h].pc.GivingUp? ==> IsReportable(c, c.handlers[h])
  }

  predicate IsReportable(c: C.State, x: C.Handler)
    requires x.pc.GivingUp?
  {
    var count := ReadRetryCount(x.msg);
    x.pc.count == count || (x.pc.count == count + 1 && count + 1 >= c.maxRetries)
  }

  lemma CountsKnownStep(c: C.State, a: C.Action)
    requires CountsKnown(c) && C.Enabled(c, a)
    ensures CountsKnown(C.Apply(c, a)) && C.Apply(c, a).maxRetries == c.maxRetries
  {
    var t := C.Apply(c, a);
    forall h | h in t.handlers && t.handlers[h].pc.GivingUp? ensures IsReportable(t, t.handlers[h]) {
      if h in c.handlers && c.handlers[h].pc.GivingUp? {
        assert IsReportable(c, c.handlers[h]);
      }
    }
  }

  lemma CountsKnownIn(s: State, x: Step)
    requires CountsKnown(s.c) && Enabled(s, x)
    ensures CountsKnown(Apply(s, x).c) && Apply(s, x).c.maxRetries == s.c.maxRetries
  {
    if x.ca.Some? {
      CountsKnownStep(s.c, x.ca.value);
    }
  }

  lemma MaximumLasts(s: State, x: Step)
    requires Enabled(s, x)
    ensures Apply(s, x).c.maxRetries == s.c.maxRetries
  {
  }

  lemma {:induction false} RowsLast(s: State, steps: seq<Step>)
    requires Valid(s, steps)
    ensures forall r :: r in s.ob.rows ==>
      r in Exec(s, steps).ob.rows && Exec(s, steps).ob.rows[r].payload == s.ob.rows[r].payload
    ensures Exec(s, steps).c.maxRetries == s.c.maxRetries
    decreases |steps|
  {
    if steps != [] {
      MaximumLasts(s, steps[0]);
      if steps[0].oa.Some? {
        O.GrowsStep(s.ob, steps[0].oa.value);
      }
      RowsLast(Apply(s, steps[0]), steps[1..]);
    }
  }

  lemma ReportWritesRow(s: State, x: Step, m: Message, r: Outbox.RowId)
    requires Enabled(s, x) && Reports(s, x, m, r) && CountsKnown(s.c)
    ensures HasFailureRow(Apply(s, x), m, r) && r !in s.ob.rows
  {
    assert IsReportable(s.c, s.c.handlers[x.ca.value.h]);
  }

  /** The report is there for good, and its row was free before. */
  lemma {:induction false} ReportIsRow(s: State, steps: seq<Step>, m: Message, r: Outbox.RowId)
    requires Valid(s, steps) && ReportedAs(s, steps, m, r) && CountsKnown(s.c)
    ensures HasFailureRow(Exec(s, steps), m, r) && r !in s.ob.rows
    decreases |steps|
  {
    var t := Apply(s, steps[0]);
    CountsKnownIn(s, steps[0]);
    if Reports(s, steps[0], m, r) {
      ReportWritesRow(s, steps[0], m, r);
      RowsLast(t, steps[1..]);
    } else {
      ReportIsRow(t, steps[1..], m, r);
      if steps[0].oa.Some? {
        O.GrowsStep(s.ob, steps[0].oa.value);
      }
    }
  }

  /** No row is the report of two messages. */
  lemma {:induction false} ReportsAreOwn(s: State, steps: seq<Step>, m: Message, m': Message, r: Outbox.RowId)
    requires Valid(s, steps) && ReportedAs(s, steps, m, r) && ReportedAs(s, steps, m', r) && CountsKnown(s.c)
    ensures m == m'
    decreases |steps|
  {
    var t := Apply(s, steps[0]);
    CountsKnownIn(s, steps[0]);
    if ReportedAs(t, steps[1..], m, r) {
      ReportIsRow(t, steps[1..], m, r);
    }
    if ReportedAs(t, steps[1..], m', r) {
      ReportIsRow(t, steps[1..], m', r);
    }
    if !Reports(s, steps[0], m, r) && !Reports(s, steps[0], m', r) {
      ReportsAreOwn(t, steps[1..], m, m', r);
    }
  }

  ghost predicate AboutToReject(c: C.State, m: Message) {
    exists h :: h in c.handlers && c.handlers[h].msg == m && c.handlers[h].pc.ToReject?
  }

  /** Dead-lettered, or past the report and about to be. */
  ghost predicate Condemned(c: C.State, m: Message) {
    m in c.dlq || AboutToReject(c, m)
  }

  lemma ConsumerCondemns(c: C.State, a: C.Action, m: Message)
    requires C.Enabled(c, a) && Condemned(C.Apply(c, a), m) && !Condemned(c, m)
    ensures a.ReportFailure? && c.handlers[a.h].msg == m
  {
    var t := C.Apply(c, a);
    assert AboutToReject(t, m);
    var h :| h in t.handlers && t.handlers[h].msg == m && t.handlers[h].pc.ToReject?;
    assert a == C.ReportFailure(h);
  }

  lemma CondemnedStep(s: State, x: Step, m: Message)
    requires Enabled(s, x) && Condemned(Apply(s, x).c, m) && !Condemned(s.c, m)
    ensures exists r :: Reports(s, x, m, r)
  {
    ConsumerCondemns(s.c, x.ca.value, m);
    assert Reports(s, x, m, x.oa.value.r);
  }

  lemma {:induction false} CondemnedWasReported(s: State, steps: seq<Step>, m: Message)
    requires Valid(s, steps) && Condemned(Exec(s, steps).c, m) && !Condemned(s.c, m)
    ensures exists r :: ReportedAs(s, steps, m, r)
    decreases |steps|
  {
    var t := Apply(s, steps[0]);
    if Condemned(t.c, m) {
      CondemnedStep(s, steps[0], m);
      var r :| Reports(s, steps[0], m, r);
      assert ReportedAs(s, steps, m, r);
    } else {
      CondemnedWasReported(t, steps[1..], m);
      var r :| ReportedAs(t, steps[1..], m, r);
      assert ReportedAs(s, steps, m, r);
    }
  }

  /** In every run, faults included: a dead-lettered message was reported by the handler that held
      it, in a row that names its event and count, stays in the outbox, and is no other message's
      report. */
  lemma DeadLetterMeansReported(s: State, steps: seq<Step>, m: Message)
    requires C.Init(s.c) && Valid(s, steps) && m in Exec(s, steps).c.dlq
    ensures exists r ::
      && ReportedAs(s, steps, m, r) && HasFailureRow(Exec(s, steps), m, r)
      && forall m' :: m' != m ==> !ReportedAs(s, steps, m', r)
  {
    CondemnedWasReported(s, steps, m);
    var r :| ReportedAs(s, steps, m, r);
    ReportIsRow(s, steps, m, r);
    forall m' | ReportedAs(s, steps, m', r) ensures m' == m {
      ReportsAreOwn(s, steps, m, m', r);
    }
  }
}
