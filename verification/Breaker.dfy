/** The circuit breaker: a timed state machine that also hears late results of calls it let
    through long ago. Instants and durations are in seconds. */
module Breaker {
  import opened Types

  datatype Mode = Closed | Open | HalfOpen

  datatype Settings = Settings(failureThreshold: int, recoveryTimeout: real)

  datatype Circuit = Circuit(failures: nat, mode: Mode, openedAt: Option<real>)

  const START := Circuit(0, Closed, None)

  /** A circuit that is not closed knows when it was opened, and had enough failures. */
  predicate WellFormed(s: Settings, b: Circuit) {
    !b.mode.Closed? ==> b.openedAt.Some? && b.failures >= s.failureThreshold
  }

  /** `None` is a refusal, which leaves the circuit as it is. */
  function Admission(s: Settings, b: Circuit, now: real): Option<Circuit>
    requires WellFormed(s, b)
  {
    match b.mode
    case Closed => Some(b)
    case HalfOpen => None
    case Open => if now - b.openedAt.value >= s.recoveryTimeout then Some(b.(mode := HalfOpen)) else None
  }

  function RecordSuccess(b: Circuit): Circuit {
    Circuit(0, Closed, None)
  }

  function RecordFailure(s: Settings, b: Circuit, now: real): Circuit {
    var failures := b.failures + 1;
    if failures >= s.failureThreshold then Circuit(failures, Open, Some(now)) else b.(failures := failures)
  }

  // ---------------------------------------------------------------- history

  datatype Event = Call(at: real) | Success(at: real) | Failure(at: real)

  function Next(s: Settings, b: Circuit, e: Event): Circuit
    requires WellFormed(s, b)
  {
    match e
    case Call(at) => var admitted := Admission(s, b, at); if admitted.Some? then admitted.value else b
    case Success(_) => RecordSuccess(b)
    case Failure(at) => RecordFailure(s, b, at)
  }

  function Replay(s: Settings, events: seq<Event>): (b: Circuit)
    ensures WellFormed(s, b)
  {
    if events == [] then START else Next(s, Replay(s, events[..|events| - 1]), events[|events| - 1])
  }

  /** The next four read the history alone. */
  function FailuresSinceSuccess(events: seq<Event>): nat {
    if events == [] then 0
    else match events[|events| - 1]
      case Call(_) => FailuresSinceSuccess(events[..|events| - 1])
      case Success(_) => 0
      case Failure(_) => FailuresSinceSuccess(events[..|events| - 1]) + 1
  }

  function LastFailure(events: seq<Event>): Option<real> {
    if events == [] then None
    else match events[|events| - 1]
      case Failure(at) => Some(at)
      case _ => LastFailure(events[..|events| - 1])
  }

  /** Some call since the last result came at least the recovery time after the last failure. */
  predicate CalledAfterRecovery(s: Settings, events: seq<Event>) {
    if events == [] then false
    else match events[|events| - 1]
      case Call(at) =>
        var earlier := events[..|events| - 1];
        CalledAfterRecovery(s, earlier)
          || (LastFailure(earlier).Some? && at - LastFailure(earlier).value >= s.recoveryTimeout)
      case _ => false
  }

  function CircuitOf(s: Settings, events: seq<Event>): Circuit {
    var failures := FailuresSinceSuccess(events);
    if failures < s.failureThreshold then Circuit(failures, Closed, None)
    else Circuit(failures, if CalledAfterRecovery(s, events) then HalfOpen else Open, LastFailure(events))
  }

  /** The state is a function of the history: the failures since the last success decide between
      closed and not, and a call since the last failure, late enough, between open and half open.
      Results of calls admitted at any earlier time are part of the history. */
  lemma {:induction false} StateIsHistory(s: Settings, events: seq<Event>)
    requires s.failureThreshold >= 1
    ensures Replay(s, events) == CircuitOf(s, events)
  {
    if events != [] {
      StateIsHistory(s, events[..|events| - 1]);
    }
  }

  /** Exactly the thresholds for which that holds: below one, a breaker nobody has used yet is
      closed without the history saying so. */
  lemma StateIsHistoryIff(s: Settings)
    ensures s.failureThreshold >= 1 <==> forall events :: Replay(s, events) == CircuitOf(s, events)
  {
    if s.failureThreshold >= 1 {
      forall events ensures Replay(s, events) == CircuitOf(s, events) {
        StateIsHistory(s, events);
      }
    } else {
      assert Replay(s, []) != CircuitOf(s, []);
    }
  }

  predicate Ordered(events: seq<Event>) {
    forall i, j :: 0 <= i < j < |events| ==> events[i].at <= events[j].at
  }

  /** Event i is a call that turned an open circuit half open. */
  predicate OpensProbe(s: Settings, events: seq<Event>, i: nat)
    requires i < |events|
  {
    events[i].Call? && Replay(s, events[..i]).mode.Open? && Replay(s, events[..i + 1]).mode.HalfOpen?
  }

  /** After a probe was let through, an open circuit was opened no earlier than that. */
  lemma {:induction false} ReopenedLater(s: Settings, events: seq<Event>, i: nat, n: nat)
    requires Ordered(events) && i < n <= |events| && OpensProbe(s, events, i)
    ensures var b := Replay(s, events[..n]); b.mode.Open? ==> b.openedAt.value >= events[i].at
    decreases n
  {
    if n > i + 1 {
      ReopenedLater(s, events, i, n - 1);
      assert events[..n][..n - 1] == events[..n - 1];
    }
  }

  /** Any two probes are at least the recovery time apart, late results or not. */
  lemma ProbesAreSpaced(s: Settings, events: seq<Event>, i: nat, j: nat)
    requires Ordered(events) && i < j < |events|
    requires OpensProbe(s, events, i) && OpensProbe(s, events, j)
    ensures events[j].at - events[i].at >= s.recoveryTimeout
  {
    ReopenedLater(s, events, i, j);
    assert events[..j + 1][..j] == events[..j];
  }

  // ---------------------------------------------------------------- the object

  class CircuitBreaker {
    const settings: Settings
    var failures: nat
    var state: Mode
    var openedAt: Option<real>

    constructor (settings: Settings)
      ensures this.settings == settings && Value() == START && Valid()
    {
      this.settings := settings;
      failures, state, openedAt := 0, Closed, None;
    }

    function Value(): Circuit
      reads this
    {
      Circuit(failures, state, openedAt)
    }

    predicate Valid()
      reads this
    {
      WellFormed(settings, Value())
    }

    method BeforeCall(now: real) returns (admitted: bool)
      requires Valid()
      modifies this
      ensures Valid() && Value() == Next(settings, old(Value()), Event.Call(now))
      ensures admitted <==> Admission(settings, old(Value()), now).Some?
      ensures admitted <==>
        || old(state) == Closed
        || (old(state) == Open && now - old(openedAt).value >= settings.recoveryTimeout)
      ensures state == if admitted && old(state) == Open then HalfOpen else old(state)
      ensures failures == old(failures) && openedAt == old(openedAt)
    {
      if state == Closed {
        return true;
      }
      if state == HalfOpen {
        return false;
      }
      if now - openedAt.value >= settings.recoveryTimeout {
        state := HalfOpen;
        return true;
      }
      return false;
    }

    method RecordSuccess(now: real)
      requires Valid()
      modifies this
      ensures Valid() && Value() == Next(settings, old(Value()), Success(now))
      ensures failures == 0 && state == Closed && openedAt == None
    {
      failures := 0;
      openedAt := None;
      state := Closed;
    }

    method RecordFailure(now: real)
      requires Valid()
      modifies this
      ensures Valid() && Value() == Next(settings, old(Value()), Failure(now))
      ensures failures == old(failures) + 1
      ensures if old(failures) + 1 >= settings.failureThreshold then state == Open && openedAt == Some(now)
              else state == old(state) && openedAt == old(openedAt)
    {
      failures := failures + 1;
      if failures >= settings.failureThreshold {
        openedAt := Some(now);
        state := Open;
      }
    }

    /** The guarded call: `result` is what the wrapped function returns, `None` if it raises.
        Refused calls do not run it, and record nothing. */
    method Call<T(==)>(start: real, end: real, result: Option<T>) returns (admitted: bool, r: Option<T>)
      requires Valid()
      modifies this
      ensures Valid()
      ensures admitted <==> Admission(settings, old(Value()), start).Some?
      ensures Value() == if !admitted then old(Value())
        else Next(settings, Next(settings, old(Value()), Event.Call(start)),
                  if result.Some? then Success(end) else Failure(end))
      ensures r == if admitted then result else None
    {
      admitted := BeforeCall(start);
      if !admitted {
        return false, None;
      }
      if result == None {
        RecordFailure(end);
      } else {
        RecordSuccess(end);
      }
      return true, result;
    }
  }
}
