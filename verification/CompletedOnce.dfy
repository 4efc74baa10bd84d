/** Once an event is completed, the business step is never started for it again: not by a later
    delivery, a redelivery or a retry copy, and not because the drain that follows completion
    raises and the handler calls release_claim. */
module CompletedOnce {
  import opened Types
  import opened Consumer
  import opened Conservation
  import opened InboxLeases

  /** Whoever is at work on the event now was already at work when it was completed. */
  ghost predicate OnlyEarlier(s: State, t: State, e: EventId) {
    forall h :: h in t.handlers && Live(t.handlers[h]) && t.handlers[h].msg.body.eventId == e ==>
      h in s.handlers && Live(s.handlers[h])
  }

  /** No claim on `e` is granted in the run, so no handler enters the business step. */
  ghost predicate NeverGranted(s: State, acts: seq<Action>, e: EventId)
    requires Valid(s, acts)
    decreases |acts|
  {
    acts != [] ==>
      && !GrantedFor(s, acts[0], e)
      && NeverGranted(Apply(s, acts[0]), acts[1..], e)
  }

  predicate GrantedFor(s: State, a: Action, e: EventId)
    requires Enabled(s, a)
  {
    && (a.InsertClaim? || a.UpdateClaim?)
    && s.handlers[a.h].msg.body.eventId == e
    && Apply(s, a).handlers[a.h].pc.Working?
  }

  lemma RefusedStep(s: State, a: Action, e: EventId)
    requires Enabled(s, a) && RowIsCompleted(s, EventKey(e))
    ensures RowIsCompleted(Apply(s, a), EventKey(e)) && !GrantedFor(s, a, e)
    ensures OnlyEarlier(s, Apply(s, a), e) || s.nextHandler in s.handlers
  {
  }

  /** Over every run from a state where `e` is completed, with any faults. */
  lemma {:induction false} CompletedWorkIsNotRepeated(s: State, acts: seq<Action>, e: EventId)
    requires Valid(s, acts) && RowIsCompleted(s, EventKey(e))
    requires forall h :: h in s.handlers ==> h < s.nextHandler
    ensures NeverGranted(s, acts, e)
    ensures OnlyEarlier(s, Exec(s, acts), e)
    decreases |acts|
  {
    if acts != [] {
      RefusedStep(s, acts[0], e);
      CompletedWorkIsNotRepeated(Apply(s, acts[0]), acts[1..], e);
      var t := Exec(s, acts);
      forall h | h in t.handlers && Live(t.handlers[h]) && t.handlers[h].msg.body.eventId == e
        ensures h in s.handlers && Live(s.handlers[h])
      {
        KeyLasts(Apply(s, acts[0]), acts[1..], h);
      }
    }
  }

  /** Handler ids are not reused and a handler keeps its message. */
  lemma {:induction false} KeyLasts(s: State, acts: seq<Action>, h: nat)
    requires Valid(s, acts) && h in s.handlers && h in Exec(s, acts).handlers
    requires forall g :: g in s.handlers ==> g < s.nextHandler
    ensures Exec(s, acts).handlers[h].msg == s.handlers[h].msg
    decreases |acts|
  {
    if acts != [] {
      var u := Apply(s, acts[0]);
      if h !in u.handlers {
        GoneForGood(u, acts[1..], h);
      } else {
        KeyLasts(u, acts[1..], h);
      }
    }
  }

  lemma {:induction false} GoneForGood(s: State, acts: seq<Action>, h: nat)
    requires Valid(s, acts) && h !in s.handlers && h < s.nextHandler
    ensures h !in Exec(s, acts).handlers
    decreases |acts|
  {
    if acts != [] {
      GoneForGood(Apply(s, acts[0]), acts[1..], h);
    }
  }
}
