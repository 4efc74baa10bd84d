/** Whatever is published for an event is on the listing of a message of that event. */
module Triggers {
  import opened Types
  import opened Retry
  import opened Pipeline
  import C = Consumer
  import E = Enrichment

  /** The event and the listing of every message that a run puts on the work queue from outside. */
  type Arrivals = set<(EventId, RawListing)>

  function ArrivingIn(x: Step): Arrivals {
    if x.ca.Some? && x.ca.value.Arrive? && x.ca.value.body.Event? then
      {(x.ca.value.body.eventId, x.ca.value.body.listing)}
    else {}
  }

  function Arrived(steps: seq<Step>): Arrivals {
    if steps == [] then {} else ArrivingIn(steps[0]) + Arrived(steps[1..])
  }

  predicate BodyFrom(body: Body, arrived: Arrivals) {
    body.Event? ==> (body.eventId, body.listing) in arrived
  }

  ghost predicate MessagesFrom(c: C.State, arrived: Arrivals) {
    && (forall m :: m in c.work || m in c.retry ==> BodyFrom(m.body, arrived))
    && (forall h :: h in c.handlers ==> BodyFrom(c.handlers[h].msg.body, arrived))
  }

  ghost predicate AttemptsFrom(en: E.State, arrived: Arrivals) {
    && (forall h :: h in en.attempts ==> (en.attempts[h].eventId, en.attempts[h].listing) in arrived)
    && (forall p :: p in en.publications ==> (p.eventId, p.trigger) in arrived)
  }

  lemma MessagesFromStep(c: C.State, a: C.Action, arrived: Arrivals, more: Arrivals)
    requires MessagesFrom(c, arrived) && C.Enabled(c, a) && arrived <= more
    requires a.Arrive? ==> BodyFrom(a.body, more)
    ensures MessagesFrom(C.Apply(c, a), more)
  {
    var t := C.Apply(c, a);
    assert forall body :: BodyFrom(body, arrived) ==> BodyFrom(body, more);
    forall m | m in t.work || m in t.retry ensures BodyFrom(m.body, more) {
      if m !in c.work && m !in c.retry && !a.Arrive? {
        assert BodyFrom(c.handlers[a.h].msg.body, more);
      }
    }
    forall h | h in t.handlers ensures BodyFrom(t.handlers[h].msg.body, more) {
      if h in c.handlers {
        assert t.handlers[h].msg == c.handlers[h].msg || a.Deliver?;
      }
    }
  }

  lemma AttemptsFromStep(s: State, x: Step, arrived: Arrivals, more: Arrivals)
    requires MessagesFrom(s.c, arrived) && AttemptsFrom(s.en, arrived) && Enabled(s, x) && arrived <= more
    ensures AttemptsFrom(Apply(s, x).en, more)
  {
    var t := Apply(s, x);
    if x.ea.Some? {
      E.PublicationsGrow(s.en, x.ea.value);
      forall h | h in t.en.attempts ensures (t.en.attempts[h].eventId, t.en.attempts[h].listing) in more {
        if h in s.en.attempts && x.ea.value != E.Drop(h) {
          E.IdentityLasts(s.en, x.ea.value, h);
        }
      }
    }
  }

  lemma {:induction false} FromArrivals(s: State, steps: seq<Step>, arrived: Arrivals)
    requires MessagesFrom(s.c, arrived) && AttemptsFrom(s.en, arrived) && Valid(s, steps)
    ensures var t, all := Exec(s, steps), arrived + Arrived(steps); MessagesFrom(t.c, all) && AttemptsFrom(t.en, all)
    decreases |steps|
  {
    if steps != [] {
      var x := steps[0];
      var more := arrived + ArrivingIn(x);
      if x.ca.Some? {
        MessagesFromStep(s.c, x.ca.value, arrived, more);
      }
      AttemptsFromStep(s, x, arrived, more);
      FromArrivals(Apply(s, x), steps[1..], more);
      assert more + Arrived(steps[1..]) == arrived + Arrived(steps);
    } else {
      assert arrived + Arrived(steps) == arrived;
    }
  }

  /** Over every run from empty queues and a store with no attempt and no publication. */
  lemma TriggersArrived(s: State, steps: seq<Step>)
    requires C.Init(s.c) && s.en.attempts == map[] && s.en.publications == {} && Valid(s, steps)
    ensures forall p :: p in Exec(s, steps).en.publications ==> (p.eventId, p.trigger) in Arrived(steps)
  {
    FromArrivals(s, steps, {});
    assert {} + Arrived(steps) == Arrived(steps);
  }
}
