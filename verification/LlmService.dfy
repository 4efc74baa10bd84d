/** The LLM facade that drives the breaker: every outcome of an admitted call is one record. */
module LlmService {
  import opened Types
  import opened Breaker

  /** How a client call ends. `RaisedCircuitOpen` is the breaker's own exception type coming out
      of the client, which the facade passes through without a record. */
  datatype Outcome =
    | Returned(options: ListingOptions)
    | HttpStatus(code: int)
    | Network
    | Parse
    | RaisedCircuitOpen
    | Other

  datatype Result =
    | Extracted(options: ListingOptions)
    | Refused
    | Failed(retryable: bool)

  predicate IsServerTrouble(code: int) { code == 429 || code >= 500 }

  /** Whether an outcome counts as a failure of the service; `None` when it is not recorded. */
  function Verdict(outcome: Outcome): Option<bool> {
    match outcome
    case Returned(_) => Some(false)
    case HttpStatus(code) => Some(IsServerTrouble(code))
    case Network => Some(true)
    case Parse => Some(false)
    case RaisedCircuitOpen => None
    case Other => Some(true)
  }

  /** What a mode is while an admitted call is in flight. */
  function Probing(mode: Mode): Mode { if mode == Open then HalfOpen else mode }

  function Recorded(s: Settings, b: Circuit, outcome: Outcome, now: real): Circuit
    requires WellFormed(s, b)
  {
    match Verdict(outcome)
    case None => b
    case Some(failed) => Next(s, b, if failed then Failure(now) else Success(now))
  }

  class LlmService {
    const breaker: CircuitBreaker
    const hasApiKey: bool

    constructor (breaker: CircuitBreaker, hasApiKey: bool)
      ensures this.breaker == breaker && this.hasApiKey == hasApiKey
    {
      this.breaker, this.hasApiKey := breaker, hasApiKey;
    }

    /** A closed circuit, or an open one whose recovery time is over. */
    predicate LetsThrough(start: real)
      requires breaker.Valid()
      reads breaker
    {
      || breaker.state == Closed
      || (breaker.state == Open && start - breaker.openedAt.value >= breaker.settings.recoveryTimeout)
    }

    predicate IsCleared()
      reads breaker
    {
      breaker.failures == 0 && breaker.state == Closed && breaker.openedAt == None
    }

    /** One failure more than before; from the threshold on that opens the circuit, and below it the
        circuit is as the admission left it. */
    predicate IsStruck(before: Circuit, end: real)
      reads breaker
    {
      && breaker.failures == before.failures + 1
      && (if breaker.failures >= breaker.settings.failureThreshold
          then breaker.state == Open && breaker.openedAt == Some(end)
          else breaker.state == Probing(before.mode) && breaker.openedAt == before.openedAt)
    }

    /** `heuristic` is the local answer used without an API key; `outcome` is what the client
        does if it is called, between `start` and `end`. */
    method ExtractOptions(heuristic: ListingOptions, outcome: Outcome, start: real, end: real) returns (r: Result)
      requires breaker.Valid()
      modifies breaker
      ensures breaker.Valid()
      ensures !hasApiKey ==> r == Extracted(heuristic) && breaker.Value() == old(breaker.Value())
      ensures hasApiKey && Admission(breaker.settings, old(breaker.Value()), start) == None ==>
        r == Refused && breaker.Value() == old(breaker.Value())
      ensures hasApiKey && Admission(breaker.settings, old(breaker.Value()), start).Some? ==>
        breaker.Value()
          == Recorded(breaker.settings, Admission(breaker.settings, old(breaker.Value()), start).value, outcome, end)
      ensures hasApiKey && !old(LetsThrough(start)) ==> r == Refused
      ensures hasApiKey && old(LetsThrough(start)) ==>
        match outcome
        case Returned(options) => r == Extracted(options) && IsCleared()
        case HttpStatus(code) =>
          if code == 429 || code >= 500 then r == Failed(true) && IsStruck(old(breaker.Value()), end)
          else r == Failed(false) && IsCleared()
        case Network => r == Failed(true) && IsStruck(old(breaker.Value()), end)
        case Parse => r == Failed(false) && IsCleared()
        case Other => r == Failed(true) && IsStruck(old(breaker.Value()), end)
        case RaisedCircuitOpen =>
          && r == Refused && breaker.failures == old(breaker.failures) && breaker.openedAt == old(breaker.openedAt)
          && breaker.state == Probing(old(breaker.state))
    {
      if !hasApiKey {
        return Extracted(heuristic);
      }
      var admitted := breaker.BeforeCall(start);
      if !admitted {
        return Refused;
      }
      match outcome {
        case RaisedCircuitOpen => r := Refused;
        case HttpStatus(code) =>
          if code == 429 || code >= 500 {
            breaker.RecordFailure(end);
            r := Failed(true);
          } else {
            breaker.RecordSuccess(end);
            r := Failed(false);
          }
        case Network =>
          breaker.RecordFailure(end);
          r := Failed(true);
        case Parse =>
          breaker.RecordSuccess(end);
          r := Failed(false);
        case Other =>
          breaker.RecordFailure(end);
          r := Failed(true);
        case Returned(options) =>
          breaker.RecordSuccess(end);
          r := Extracted(options);
      }
    }
  }

  // ---------------------------------------------------------------- concurrent calls

  /** Calls in flight, and the one that last turned the circuit half open. */
  datatype State = State(circuit: Circuit, inFlight: set<nat>, prober: Option<nat>)

  datatype Action = Begin(call: nat, at: real) | Finish(call: nat, outcome: Outcome, at: real)

  predicate Enabled(s: State, a: Action) {
    if a.Begin? then a.call !in s.inFlight else a.call in s.inFlight
  }

  /** A refused call never gets in flight. */
  function Apply(cfg: Settings, s: State, a: Action): State
    requires WellFormed(cfg, s.circuit) && Enabled(s, a)
  {
    match a
    case Begin(call, at) =>
      var admitted := Admission(cfg, s.circuit, at);
      if admitted == None then s
      else State(admitted.value, s.inFlight + {call}, if s.circuit.mode.Open? then Some(call) else s.prober)
    case Finish(call, outcome, at) =>
      State(Recorded(cfg, s.circuit, outcome, at), s.inFlight - {call}, s.prober)
  }

  ghost predicate Valid(cfg: Settings, s: State, acts: seq<Action>)
    decreases |acts|
  {
    && WellFormed(cfg, s.circuit)
    && (acts != [] ==> Enabled(s, acts[0]) && Valid(cfg, Apply(cfg, s, acts[0]), acts[1..]))
  }

  ghost function Exec(cfg: Settings, s: State, acts: seq<Action>): (t: State)
    requires Valid(cfg, s, acts)
    ensures WellFormed(cfg, t.circuit)
    decreases |acts|
  {
    if acts == [] then s else Exec(cfg, Apply(cfg, s, acts[0]), acts[1..])
  }

  predicate Recovered(cfg: Settings, b: Circuit, at: real) {
    b.mode.Open? ==> b.openedAt.Some? && at - b.openedAt.value >= cfg.recoveryTimeout
  }

  predicate ClientKeepsOut(acts: seq<Action>) {
    forall i :: 0 <= i < |acts| ==> acts[i].Finish? ==> !acts[i].outcome.RaisedCircuitOpen?
  }

  predicate ProbeInFlight(s: State) {
    s.circuit.mode.HalfOpen? ==> s.prober.Some? && s.prober.value in s.inFlight
  }

  /** The breaker cannot get stuck: as long as the client does not raise the breaker's own
      exception, a half open circuit still waits for the call that opened the probe, over every
      interleaving of calls and results; with nothing in flight it is closed or open, and lets
      the next call through once the recovery time is over. */
  lemma {:induction false} NeverStuck(cfg: Settings, s: State, acts: seq<Action>)
    requires Valid(cfg, s, acts) && ClientKeepsOut(acts) && ProbeInFlight(s)
    ensures ProbeInFlight(Exec(cfg, s, acts))
    ensures var t := Exec(cfg, s, acts); t.inFlight == {} ==>
      && !t.circuit.mode.HalfOpen?
      && forall at :: Recovered(cfg, t.circuit, at) ==> Admission(cfg, t.circuit, at).Some?
    decreases |acts|
  {
    if acts != [] {
      assert acts[0].Finish? ==> !acts[0].outcome.RaisedCircuitOpen?;
      NeverStuck(cfg, Apply(cfg, s, acts[0]), acts[1..]);
    }
  }

  /** And that condition is needed: when the probe itself ends in that exception, the circuit is
      half open with nothing in flight, and refuses every later call for ever. */
  lemma PassedThroughProbeSticks(cfg: Settings, s: State, call: nat, at: real, end: real)
    requires WellFormed(cfg, s.circuit) && s.circuit.mode.Open? && s.inFlight == {}
    requires Admission(cfg, s.circuit, at).Some?
    ensures var acts := [Begin(call, at), Finish(call, RaisedCircuitOpen, end)];
      Valid(cfg, s, acts) && Stuck(Exec(cfg, s, acts))
  {
    var acts := [Begin(call, at), Finish(call, RaisedCircuitOpen, end)];
    assert acts[1..][1..] == [];
    var s1 := Apply(cfg, s, acts[0]);
    assert s1.inFlight == {call} && s1.inFlight - {call} == {};
    var s2 := Apply(cfg, s1, acts[1]);
    assert Exec(cfg, s1, acts[1..]) == Exec(cfg, s2, []) == s2;
  }

  predicate Stuck(s: State) {
    s.circuit.mode.HalfOpen? && s.inFlight == {}
  }

  lemma {:induction false} StuckForEver(cfg: Settings, s: State, acts: seq<Action>)
    requires Stuck(s) && Valid(cfg, s, acts)
    ensures Exec(cfg, s, acts) == s
    decreases |acts|
  {
    if acts != [] {
      StuckForEver(cfg, s, acts[1..]);
    }
  }
}
