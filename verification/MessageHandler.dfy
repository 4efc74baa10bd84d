/** One message handled without interruption, as the two consumers' code does it. Every step is a
    step of the interleaved machine, so a handler is one of the machine's runs; and what it does
    to its message is exactly the settlement the retry rules ask for. */
module MessageHandler {
  import opened Types
  import opened Retry
  import opened Consumer
  import opened Conservation
  import Inbox

  // ---------------------------------------------------------------- runs and their faults

  ghost function Blame(m: Message, fault: bool): set<Key> {
    if fault then {KeyOf(m.body)} else {}
  }

  /** The event whose handler meets a fault in this step, if any. */
  ghost function HarmedBy(s: State, a: Action): set<Key>
    requires Enabled(s, a)
  {
    match Actor(a)
    case None => {}
    case Some(h) => Blame(s.handlers[h].msg, !Benign(s, a))
  }

  /** A run from `s` to `t` in which the handlers of exactly the events `harmed` met faults. */
  ghost predicate RunsTo(s: State, acts: seq<Action>, t: State, harmed: set<Key>) {
    && Consumer.Valid(s, acts) && Exec(s, acts) == t
    && forall k :: k in harmed <==> !AllBenign(s, acts, k)
  }

  ghost predicate Reached(s: State, t: State, harmed: set<Key>) {
    exists acts :: RunsTo(s, acts, t, harmed)
  }

  lemma {:induction false} OneMoreStep(s: State, acts: seq<Action>, a: Action, k: Key)
    requires Consumer.Valid(s, acts) && Enabled(Exec(s, acts), a)
    ensures Consumer.Valid(s, acts + [a]) && Exec(s, acts + [a]) == Apply(Exec(s, acts), a)
    ensures AllBenign(s, acts + [a], k) <==> AllBenign(s, acts, k) && BenignFor(Exec(s, acts), a, k)
    decreases |acts|
  {
    if acts == [] {
      assert [a][1..] == [] && acts + [a] == [a];
    } else {
      assert (acts + [a])[1..] == acts[1..] + [a];
      OneMoreStep(Apply(s, acts[0]), acts[1..], a, k);
    }
  }

  lemma ReachedStep(s: State, t: State, harmed: set<Key>, a: Action)
    requires Reached(s, t, harmed) && Enabled(t, a)
    ensures Reached(s, Apply(t, a), harmed + HarmedBy(t, a))
  {
    var acts :| RunsTo(s, acts, t, harmed);
    var more, all := acts + [a], harmed + HarmedBy(t, a);
    OneMoreStep(s, acts, a, PoisonKey(""));
    forall k ensures k in all <==> !AllBenign(s, more, k) {
      OneMoreStep(s, acts, a, k);
    }
    assert RunsTo(s, more, Apply(t, a), all);
  }

  lemma ReachedStart(s: State)
    ensures Reached(s, s, {})
  {
    assert RunsTo(s, [], s, {});
  }

  /** Nobody but handler `h` holds the claim on its event or may take a row of it over. */
  ghost predicate Lonely(s: State, h: nat, m: Message) {
    !VouchedByOthers(s, h, KeyOf(m.body))
  }

  /** A handler's own step, other than giving the message back, changes nobody else's standing. */
  lemma StaysLonely(s: State, a: Action, h: nat, m: Message)
    requires Enabled(s, a) && Actor(a) == Some(h) && !a.NackStopping? && !a.Crash? && !a.Detach?
    ensures Lonely(Apply(s, a), h, m) == Lonely(s, h, m)
  {
    var t := Apply(s, a);
    assert t.work == s.work;
    assert forall g :: g != h ==> (g in s.handlers <==> g in t.handlers);
    assert forall g :: g != h && g in s.handlers ==> s.handlers[g] == t.handlers[g];
  }

  /** With its channel open only a call that raises can be a fault of a handler. */
  lemma AttachedIsBenign(s: State, a: Action, h: nat)
    requires Enabled(s, a) && Actor(a) == Some(h) && s.handlers[h].attached
    requires !a.ClaimRaises? && !a.ReleaseRaises?
    ensures Benign(s, a)
  {
  }

  // ---------------------------------------------------------------- one handling

  /** try_claim is an insert and, on a duplicate, an update; either may raise. */
  datatype ClaimCall = Answers | InsertRaises(applied: bool) | UpdateRaises(applied: bool)

  /** What the calls a handler makes come to: the claim, the business call, mark_completed, the
      drain after completion, release_claim, and the publishing of a retry copy or of a failure. */
  datatype Environment = Environment(
    claim: ClaimCall, work: Option<Failure>, completion: Call, drain: Option<Failure>, release: Call,
    retryPublish: Call, failurePublish: Call)
  {
    predicate Proper() { work != Some(Poison) && drain != Some(Poison) }
  }

  /** Whether the claim is granted; `None` when it raises. */
  function Granted(inbox: Inbox.Table, m: Message, claim: ClaimCall, now: Time): Option<bool>
    requires m.body.Event?
  {
    if claim.InsertRaises? || (claim.UpdateRaises? && m.body.eventId in inbox) then None
    else Some(Inbox.ClaimOutcome(inbox, m.body.eventId, m.redelivered, now).Some?)
  }

  /** The inbox after the claim: what it says if it answers, and if it raises what was applied. */
  function Claimed(inbox: Inbox.Table, m: Message, claim: ClaimCall, now: Time): Inbox.Table
    requires m.body.Event?
  {
    var e := m.body.eventId;
    if claim.InsertRaises? && !(claim.applied && e !in inbox) then inbox
    else if claim.UpdateRaises? && e in inbox && !claim.applied then inbox
    else Inbox.Apply(inbox, Inbox.Claim(e, m.redelivered, now))
  }

  /** What is raised while the claim is held, if anything. */
  function HeldFailure(env: Environment, drains: bool): Option<Failure> {
    if env.work.Some? then env.work
    else if env.completion.Raises? then Some(Transient)
    else if drains then env.drain
    else None
  }

  /** What handling one body comes to, as a function of the inbox. */
  function FailureOf(inbox: Inbox.Table, m: Message, env: Environment, drains: bool, now: Time): Option<Failure> {
    if m.body.Malformed? then Some(Poison)
    else
      var granted := Granted(inbox, m, env.claim, now);
      if granted.None? then Some(Transient)
      else if !granted.value || HeldFailure(env, drains).None? then None
      else if env.release.Raises? then Some(Transient)
      else HeldFailure(env, drains)
  }

  function ReleasedBy(inbox: Inbox.Table, e: EventId, release: Call): Inbox.Table {
    if release == Raises(false) then inbox else Inbox.ReleaseClaim(inbox, e)
  }

  /** The inbox after the part that runs with the claim held: a completion that was applied is
      final, and a failure before it leaves no claim behind unless the release is not applied. */
  function HeldAfter(claimed: Inbox.Table, e: EventId, env: Environment, now: Time): Inbox.Table {
    if env.work.None? && env.completion != Raises(false) then Inbox.MarkCompleted(claimed, e, now)
    else ReleasedBy(claimed, e, env.release)
  }

  function InboxAfter(inbox: Inbox.Table, m: Message, env: Environment, now: Time): Inbox.Table {
    if m.body.Malformed? then inbox
    else
      var claimed := Claimed(inbox, m, env.claim, now);
      if Granted(inbox, m, env.claim, now) == Some(true) then HeldAfter(claimed, m.body.eventId, env, now) else claimed
  }

  // ---- what the calls come to, case by case

  /** The event has no row, or one this delivery may take over: a processing row that is stale or met
      by a redelivery, or a row without a status met by a first delivery. */
  predicate MayClaim(inbox: Inbox.Table, m: Message, now: Time)
    requires m.body.Event?
  {
    var e := m.body.eventId;
    e in inbox ==>
      match inbox[e]
      case Processing(at) => m.redelivered || at + 5 * 60 * 1000 < now
      case Completed(_) => false
      case Legacy => !m.redelivered
  }

  /** A body that does not parse fails before the inbox is asked. */
  lemma MalformedFails(inbox: Inbox.Table, m: Message, env: Environment, drains: bool, now: Time)
    requires m.body.Malformed?
    ensures FailureOf(inbox, m, env, drains, now) == Some(Poison) && InboxAfter(inbox, m, env, now) == inbox
  {
  }

  /** A duplicate is skipped without an error and without touching its row. */
  lemma RefusedIsSkipped(inbox: Inbox.Table, m: Message, env: Environment, drains: bool, now: Time)
    requires m.body.Event? && env.claim == Answers && !MayClaim(inbox, m, now)
    ensures FailureOf(inbox, m, env, drains, now) == None && InboxAfter(inbox, m, env, now) == inbox
  {
  }

  /** A claim that raises is a transient failure, and leaves of the two store calls what was applied. */
  lemma RaisingClaimFails(inbox: Inbox.Table, m: Message, env: Environment, drains: bool, now: Time)
    requires m.body.Event? && (env.claim.InsertRaises? || (env.claim.UpdateRaises? && m.body.eventId in inbox))
    ensures FailureOf(inbox, m, env, drains, now) == Some(Transient)
    ensures InboxAfter(inbox, m, env, now) ==
      if env.claim.applied && MayClaim(inbox, m, now) && (env.claim.InsertRaises? ==> m.body.eventId !in inbox)
      then inbox[m.body.eventId := Inbox.Processing(now)] else inbox
  {
  }

  /** With the claim granted: a failure of the work, or a completion that raises unapplied, releases
      the claim, and the release itself may raise instead; an applied completion stays whatever
      raises after it; the drain counts only where the service drains. */
  lemma GrantedRuns(inbox: Inbox.Table, m: Message, env: Environment, drains: bool, now: Time)
    requires m.body.Event? && env.claim == Answers && MayClaim(inbox, m, now)
    ensures var failure := if env.work.Some? then env.work
                           else if env.completion.Raises? then Some(Transient)
                           else if drains && env.drain.Some? then env.drain
                           else None;
      FailureOf(inbox, m, env, drains, now) == if failure.Some? && env.release.Raises? then Some(Transient) else failure
    ensures var e := m.body.eventId;
      InboxAfter(inbox, m, env, now) ==
        if env.work.None? && env.completion != Raises(false) then inbox[e := Inbox.Completed(now)]
        else if env.release == Raises(false) then inbox[e := Inbox.Processing(now)]
        else inbox - {e}
  {
    var e := m.body.eventId;
    assert inbox[e := Inbox.Processing(now)] - {e} == inbox - {e};
    assert inbox[e := Inbox.Processing(now)][e := Inbox.Completed(now)] == inbox[e := Inbox.Completed(now)];
  }

  /** The claim is granted, the work raises an error that is not retryable, and the calls after it
      return. */
  predicate FailsForGood(inbox: Inbox.Table, m: Message, env: Environment, now: Time) {
    && m.body.Event? && MayClaim(inbox, m, now) && env.claim == Answers
    && env.work == Some(Permanent) && env.release.Returns? && env.failurePublish.Returns?
  }

  lemma PermanentStays(inbox: Inbox.Table, m: Message, env: Environment, drains: bool, now: Time)
    requires FailsForGood(inbox, m, env, now)
    ensures FailureOf(inbox, m, env, drains, now) == Some(Permanent)
    ensures InboxAfter(inbox, m, env, now) == inbox - {m.body.eventId}
  {
    GrantedRuns(inbox, m, env, drains, now);
  }

  // ---- faults

  predicate HasProcessing(inbox: Inbox.Table, e: EventId) {
    e in inbox && inbox[e].Processing?
  }

  /** The claim raises over a processing row that only a redelivery may take over, or it was applied
      to a row that its handler then does not know it holds. */
  predicate ClaimHarms(inbox: Inbox.Table, m: Message, claim: ClaimCall)
    requires m.body.Event?
  {
    var e := m.body.eventId;
    match claim
    case Answers => false
    case InsertRaises(applied) => (m.redelivered && HasProcessing(inbox, e)) || (applied && e !in inbox)
    case UpdateRaises(applied) =>
      (m.redelivered && HasProcessing(inbox, e)) || (applied && !m.redelivered && e in inbox && inbox[e].Legacy?)
  }

  /** A failure before the completion is applied, and a release that is not applied. */
  predicate HoldHarms(env: Environment) {
    (env.work.Some? || env.completion == Raises(false)) && env.release == Raises(false)
  }

  /** The faults of an uninterrupted handling, read off inbox, message and environment. */
  predicate Harms(inbox: Inbox.Table, m: Message, env: Environment, now: Time) {
    m.body.Event?
    && (ClaimHarms(inbox, m, env.claim) || (Granted(inbox, m, env.claim, now) == Some(true) && HoldHarms(env)))
  }

  /** Exactly when an uninterrupted handling of a new event leaves a claim behind: an insert that
      was applied but raised, or a failure before completion whose release was not applied. Nothing
      else a handling of a new event meets is a fault. */
  lemma ClaimIsLeftIff(inbox: Inbox.Table, m: Message, env: Environment, now: Time)
    requires m.body.Event? && m.body.eventId !in inbox
    ensures HasProcessing(InboxAfter(inbox, m, env, now), m.body.eventId) <==>
        || env.claim == InsertRaises(true)
        || (!env.claim.InsertRaises? && (env.work.Some? || env.completion == Raises(false))
           && env.release == Raises(false))
    ensures HasProcessing(InboxAfter(inbox, m, env, now), m.body.eventId) <==> Harms(inbox, m, env, now)
  {
  }

  /** A failure event, without its error text. */
  datatype Report = Report(externalId: string, eventId: EventId, requestId: Option<string>, retryCount: int)

  /** `freshId` is the generated id a failure gets whose body does not parse. */
  function ReportOf(m: Message, count: int, freshId: EventId): Report {
    match m.body
    case Event(eventId, listing, requestId, _) => Report(listing.externalId, eventId, requestId, count)
    case Malformed(_) => Report(UNKNOWN_EXTERNAL_ID, freshId, None, count)
  }

  /** Whom a failure event is about, and the count it reports. */
  lemma ReportIsAbout(m: Message, count: int, freshId: EventId)
    ensures ReportOf(m, count, freshId).retryCount == count
    ensures m.body.Event? ==>
      && ReportOf(m, count, freshId).eventId == m.body.eventId
      && ReportOf(m, count, freshId).externalId == m.body.listing.externalId
      && ReportOf(m, count, freshId).requestId == m.body.requestId
    ensures m.body.Malformed? ==> ReportOf(m, count, freshId) == Report("unknown", freshId, None, count)
  {
  }

  /** How a message leaves the handler. An exception out of on_message leaves it with the broker,
      unsettled, until the channel closes. */
  datatype Ending = GivenBack | Settled(how: Settlement) | Unsettled

  function EndingOf(settlement: Settlement, env: Environment, reports: bool): Ending {
    if settlement.Retried? && env.retryPublish.Raises? then Unsettled
    else if settlement.Rejected? && reports && env.failurePublish.Raises? then Unsettled
    else Settled(settlement)
  }

  function Tagged(r: Settlement, tag: nat): Settlement {
    if r.Retried? then r.(copy := r.copy.(tag := tag)) else r
  }

  class Broker {
    var work: set<Message>
    var retry: set<Message>
    var deadLetters: set<Message>
    var nextTag: nat
    /** Failure events published, latest last. */
    var reported: seq<Report>

    constructor (w: set<Message>, r: set<Message>, d: set<Message>, tag: nat)
      ensures work == w && retry == r && deadLetters == d && nextTag == tag && reported == []
    {
      work, retry, deadLetters, nextTag, reported := w, r, d, tag, [];
    }

    method PublishRetry(copy: Message)
      requires copy.tag == nextTag
      modifies this
      ensures retry == old(retry) + {copy} && nextTag == old(nextTag) + 1
      ensures work == old(work) && deadLetters == old(deadLetters) && reported == old(reported)
    {
      retry, nextTag := retry + {copy}, nextTag + 1;
    }
  }

  /** The enrichment consumer reports failures and does not drain; the pricing consumer drains the
      outbox after completion and does not report. */
  class EventConsumer {
    const inbox: Inbox.InboxRepository
    const broker: Broker
    const policy: Policy
    const drainsAfterwards: bool
    const reportsFailures: bool
    var stopping: bool
    ghost const start: State
    ghost var machine: State
    /** The events whose handlers have met a fault. */
    ghost var harmed: set<Key>

    ghost predicate Valid()
      reads this, inbox, broker
    {
      && Reached(start, machine, harmed)
      && machine.inbox == inbox.rows && machine.maxRetries == policy.maxRetries
      && machine.work == broker.work && machine.retry == broker.retry
      && machine.dlq == broker.deadLetters && machine.nextTag == broker.nextTag
    }

    ghost predicate IsAt(h: nat, x: Handler)
      reads this
    {
      h in machine.handlers && machine.handlers[h] == x
    }

    constructor (i: Inbox.InboxRepository, b: Broker, p: Policy, drains: bool, reports: bool, ghost s: State)
      requires s.inbox == i.rows && s.work == b.work && s.retry == b.retry && s.dlq == b.deadLetters
      requires s.nextTag == b.nextTag && s.maxRetries == p.maxRetries
      ensures Valid() && inbox == i && broker == b && policy == p && drainsAfterwards == drains
        && reportsFailures == reports
      ensures start == s && machine == s && harmed == {} && !stopping
    {
      inbox, broker, policy, drainsAfterwards, reportsFailures, stopping := i, b, p, drains, reports, false;
      start, machine, harmed := s, s, {};
      ReachedStart(s);
    }

    ghost method Take(a: Action)
      requires Reached(start, machine, harmed) && Enabled(machine, a)
      modifies this`machine, this`harmed
      ensures Reached(start, machine, harmed)
      ensures machine == Apply(old(machine), a) && harmed == old(harmed) + HarmedBy(old(machine), a)
    {
      ReachedStep(start, machine, harmed, a);
      machine, harmed := Apply(machine, a), harmed + HarmedBy(machine, a);
    }

    /** A step of handler `h` that keeps its message. */
    ghost method Go(a: Action, h: nat, m: Message)
      requires Reached(start, machine, harmed) && Enabled(machine, a) && Actor(a) == Some(h)
      requires machine.handlers[h].msg == m && machine.handlers[h].attached
      requires !a.NackStopping? && !a.Crash? && !a.Detach?
      modifies this`machine, this`harmed
      ensures Reached(start, machine, harmed) && machine == Apply(old(machine), a)
      ensures Lonely(machine, h, m) == old(Lonely(machine, h, m))
      ensures harmed == old(harmed) + Blame(m, (a.ClaimRaises? || a.ReleaseRaises?) && Faulty(old(machine), a))
    {
      StaysLonely(machine, a, h, m);
      if !a.ClaimRaises? && !a.ReleaseRaises? {
        AttachedIsBenign(machine, a, h);
      }
      Take(a);
    }

    /** The claim: insert, and if a row is there, update it. */
    method TryClaim(m: Message, claim: ClaimCall, now: Time, ghost h: nat) returns (granted: Option<bool>)
      requires Valid() && m.body.Event? && IsAt(h, Handler(m, true, Start)) && now == machine.clock
      modifies this`machine, this`harmed, inbox
      ensures Valid() && machine.clock == now
      ensures Lonely(machine, h, m) == old(Lonely(machine, h, m))
      ensures harmed == old(harmed) + Blame(m, ClaimHarms(old(inbox.rows), m, claim) && old(Lonely(machine, h, m)))
      ensures granted == Granted(old(inbox.rows), m, claim, now)
      ensures inbox.rows == Claimed(old(inbox.rows), m, claim, now)
      ensures IsAt(h, Handler(m, true,
        if granted.None? then Failed(Transient) else if granted.value then Working(now) else ToAck(SkippedDuplicate)))
    {
      var e := m.body.eventId;
      var claimed: bool;
      if claim.InsertRaises? {
        if claim.applied && e !in inbox.rows {
          claimed := inbox.TryClaim(e, m.redelivered, now);
        }
        Go(ClaimRaises(h, claim.applied), h, m);
        return None;
      }
      Go(InsertClaim(h), h, m);
      if e in inbox.rows {
        granted := TryUpdate(m, claim, now, h);
        return;
      }
      claimed := inbox.TryClaim(e, m.redelivered, now);
      return Some(claimed);
    }

    /** The second half of the claim, over the row the insert met. */
    method TryUpdate(m: Message, claim: ClaimCall, now: Time, ghost h: nat) returns (granted: Option<bool>)
      requires Valid() && m.body.Event? && m.body.eventId in inbox.rows && !claim.InsertRaises?
      requires IsAt(h, Handler(m, true, Window(now))) && now == machine.clock
      modifies this`machine, this`harmed, inbox
      ensures Valid() && machine.clock == now
      ensures Lonely(machine, h, m) == old(Lonely(machine, h, m))
      ensures harmed == old(harmed) + Blame(m, ClaimHarms(old(inbox.rows), m, claim) && old(Lonely(machine, h, m)))
      ensures granted == Granted(old(inbox.rows), m, claim, now)
      ensures inbox.rows == Claimed(old(inbox.rows), m, claim, now)
      ensures IsAt(h, Handler(m, true,
        if granted.None? then Failed(Transient) else if granted.value then Working(now) else ToAck(SkippedDuplicate)))
    {
      var claimed: bool;
      if claim.UpdateRaises? {
        if claim.applied {
          claimed := inbox.TryClaim(m.body.eventId, m.redelivered, now);
        }
        Go(ClaimRaises(h, claim.applied), h, m);
        return None;
      }
      Go(UpdateClaim(h), h, m);
      claimed := inbox.TryClaim(m.body.eventId, m.redelivered, now);
      return Some(claimed);
    }

    /** `error` is what was raised while the claim was held. */
    method ReleaseAfter(m: Message, error: Failure, release: Call, ghost h: nat) returns (raised: Failure)
      requires Valid() && m.body.Event? && IsAt(h, Handler(m, true, Releasing(error)))
      modifies this`machine, this`harmed, inbox
      ensures Valid() && machine.clock == old(machine.clock)
      ensures Lonely(machine, h, m) == old(Lonely(machine, h, m))
      ensures harmed == old(harmed) + Blame(m,
        release == Raises(false) && HasProcessing(old(inbox.rows), m.body.eventId) && old(Lonely(machine, h, m)))
      ensures raised == if release.Raises? then Transient else error
      ensures inbox.rows == ReleasedBy(old(inbox.rows), m.body.eventId, release)
      ensures IsAt(h, Handler(m, true, Failed(raised)))
    {
      if release != Raises(false) {
        inbox.ReleaseClaim(m.body.eventId);
      }
      if release.Raises? {
        Go(ReleaseRaises(h, release.applied), h, m);
        return Transient;
      }
      Go(Release(h), h, m);
      return error;
    }

    /** handle_message: `raised` is the exception that gets out, if any. */
    method HandleMessage(m: Message, env: Environment, now: Time, ghost h: nat) returns (raised: Option<Failure>)
      requires Valid() && env.Proper() && IsAt(h, Handler(m, true, Start)) && now == machine.clock
      modifies this`machine, this`harmed, inbox
      ensures Valid()
      ensures Lonely(machine, h, m) == old(Lonely(machine, h, m))
      ensures harmed == old(harmed) + Blame(m, Harms(old(inbox.rows), m, env, now) && old(Lonely(machine, h, m)))
      ensures raised == FailureOf(old(inbox.rows), m, env, drainsAfterwards, now)
      ensures inbox.rows == InboxAfter(old(inbox.rows), m, env, now)
      ensures h in machine.handlers && machine.handlers[h].msg == m && machine.handlers[h].attached
      ensures var pc := machine.handlers[h].pc;
        if raised.Some? then pc == Failed(raised.value) else pc.Finished? || pc.ToAck?
    {
      if m.body.Malformed? {
        Go(ParseFails(h), h, m);
        return Some(Poison);
      }
      var claimed := TryClaim(m, env.claim, now, h);
      if claimed.None? {
        return Some(Transient);
      }
      if !claimed.value {
        return None;
      }
      raised := WorkAndComplete(m, env, now, h);
    }

    /** The part of handle_message that runs with the claim held. */
    method WorkAndComplete(m: Message, env: Environment, now: Time, ghost h: nat) returns (raised: Option<Failure>)
      requires Valid() && m.body.Event? && env.Proper() && IsAt(h, Handler(m, true, Working(now)))
        && now == machine.clock
      modifies this`machine, this`harmed, inbox
      ensures Valid()
      ensures Lonely(machine, h, m) == old(Lonely(machine, h, m))
      ensures harmed == old(harmed) + Blame(m,
        HoldHarms(env) && HasProcessing(old(inbox.rows), m.body.eventId) && old(Lonely(machine, h, m)))
      ensures raised.Some? <==> HeldFailure(env, drainsAfterwards).Some?
      ensures raised.Some? ==>
        raised.value == if env.release.Raises? then Transient else HeldFailure(env, drainsAfterwards).value
      ensures inbox.rows == HeldAfter(old(inbox.rows), m.body.eventId, env, now)
      ensures IsAt(h, Handler(m, true, if raised.Some? then Failed(raised.value) else Finished))
    {
      var error: Failure;
      if env.work.Some? {
        Go(WorkRaises(h, env.work.value), h, m);
        error := ReleaseAfter(m, env.work.value, env.release, h);
        return Some(error);
      }
      if env.completion == Raises(false) {
        Go(WorkRaises(h, Transient), h, m);
        error := ReleaseAfter(m, Transient, env.release, h);
        return Some(error);
      }
      error := Complete(m, env, now, h);
      raised := if env.completion.Raises? || (drainsAfterwards && env.drain.Some?) then Some(error) else None;
    }

    /** mark_completed, applied, and what may still raise after it; `error` is what gets out then. */
    method Complete(m: Message, env: Environment, now: Time, ghost h: nat) returns (error: Failure)
      requires Valid() && m.body.Event? && env.Proper() && IsAt(h, Handler(m, true, Working(now)))
        && now == machine.clock
      modifies this`machine, this`harmed, inbox
      ensures Valid()
      ensures Lonely(machine, h, m) == old(Lonely(machine, h, m))
      ensures harmed == old(harmed)
      ensures inbox.rows == Inbox.MarkCompleted(old(inbox.rows), m.body.eventId, now)
      ensures var late :=
        if env.completion.Raises? then Some(Transient) else if drainsAfterwards then env.drain else None;
        && (late.Some? ==> error == if env.release.Raises? then Transient else late.value)
        && IsAt(h, Handler(m, true, if late.Some? then Failed(error) else Finished))
    {
      error := Transient;
      inbox.MarkCompleted(m.body.eventId, now);
      Go(Action.Complete(h), h, m);
      if env.completion.Raises? {
        Go(LateRaise(h, Transient), h, m);
        error := ReleaseAfter(m, Transient, env.release, h);
      } else if drainsAfterwards && env.drain.Some? {
        Go(LateRaise(h, env.drain.value), h, m);
        error := ReleaseAfter(m, env.drain.value, env.release, h);
      }
    }

    /** What the exception that got out of the handling means for the message. */
    predicate Settles(m: Message, raised: Option<Failure>, env: Environment, r: Ending, tag: nat,
                      retry0: set<Message>, dead0: set<Message>)
      reads broker
    {
      var count := ReadRetryCount(m);
      match raised
      case None => r == Settled(Acked) && broker.retry == retry0 && broker.deadLetters == dead0
      case Some(Poison) => IsRejected(m, count, env, r, retry0, dead0)
      case Some(Permanent) => IsRejected(m, count, env, r, retry0, dead0)
      case Some(Transient) =>
        if count + 1 < policy.maxRetries then IsRetried(m, count + 1, env, r, tag, retry0, dead0)
        else IsRejected(m, count + 1, env, r, retry0, dead0)
    }

    /** on_message: the message is given back when the consumer is stopping, and otherwise settled
        in exactly one way, unless publishing its copy or its failure raises. */
    method OnMessage(m: Message, env: Environment, now: Time, freshId: EventId, ghost h: nat) returns (r: Ending)
      requires Valid() && env.Proper() && IsAt(h, Handler(m, true, Start)) && now == machine.clock
      modifies this`machine, this`harmed, inbox, broker
      ensures Valid()
      ensures harmed == old(harmed) + Blame(m,
        !stopping && Harms(old(inbox.rows), m, env, now) && old(Lonely(machine, h, m)))
      ensures r.GivenBack? <==> stopping
      ensures r.Unsettled? <==> h in machine.handlers
      ensures inbox.rows == if stopping then old(inbox.rows) else InboxAfter(old(inbox.rows), m, env, now)
      ensures broker.work == if stopping then old(broker.work) + {m.(redelivered := true)} else old(broker.work)
      ensures stopping ==>
        broker.retry == old(broker.retry) && broker.deadLetters == old(broker.deadLetters)
          && broker.reported == old(broker.reported)
      ensures !stopping ==>
        var s := Tagged(Settle(m, FailureOf(old(inbox.rows), m, env, drainsAfterwards, now), policy),
          old(broker.nextTag));
        r == EndingOf(s, env, reportsFailures)
          && Left(m, s, env, freshId, old(broker.retry), old(broker.deadLetters), old(broker.reported))
      ensures !stopping ==>
        Settles(m, FailureOf(old(inbox.rows), m, env, drainsAfterwards, now), env, r,
                old(broker.nextTag), old(broker.retry), old(broker.deadLetters))
      ensures !stopping && FailsForGood(old(inbox.rows), m, env, now) ==>
        && r == Settled(Rejected(ReadRetryCount(m))) && broker.retry == old(broker.retry)
        && broker.deadLetters == old(broker.deadLetters) + {m} && inbox.rows == old(inbox.rows) - {m.body.eventId}
    {
      if stopping {
        broker.work := broker.work + {m.(redelivered := true)};
        AttachedIsBenign(machine, NackStopping(h), h);
        Take(NackStopping(h));
        return GivenBack;
      }
      var raised := HandleMessage(m, env, now, h);
      if FailsForGood(old(inbox.rows), m, env, now) {
        PermanentStays(old(inbox.rows), m, env, drainsAfterwards, now);
      }
      if raised.None? {
        Go(Ack(h), h, m);
        return Settled(Acked);
      }
      r := SettleFailure(m, raised.value, env, freshId, h);
    }

    /** What the settlement `s` leaves on the broker: a copy unless its publish was not applied, a
        failure event likewise, and a dead letter only after its failure event. */
    ghost predicate Left(m: Message, s: Settlement, env: Environment, freshId: EventId,
                         retry0: set<Message>, dead0: set<Message>, reported0: seq<Report>)
      reads broker
    {
      && broker.retry == (if s.Retried? && env.retryPublish != Raises(false) then retry0 + {s.copy} else retry0)
      && broker.deadLetters
           == (if s.Rejected? && EndingOf(s, env, reportsFailures).Settled? then dead0 + {m} else dead0)
      && broker.reported == (if s.Rejected? && reportsFailures && env.failurePublish != Raises(false)
                             then reported0 + [ReportOf(m, s.reportedCount, freshId)] else reported0)
    }

    /** No copy is left, and the message is dead-lettered unless publishing its failure raises. */
    predicate IsRejected(m: Message, count: int, env: Environment, r: Ending, retry0: set<Message>, dead0: set<Message>)
      reads broker
    {
      && broker.retry == retry0
      && (if reportsFailures && env.failurePublish.Raises? then r == Unsettled && broker.deadLetters == dead0
          else r == Settled(Rejected(count)) && broker.deadLetters == dead0 + {m})
    }

    /** A copy with the next count is left unless its publish raises unapplied, and no dead letter. */
    predicate IsRetried(m: Message, count: int, env: Environment, r: Ending, tag: nat,
                        retry0: set<Message>, dead0: set<Message>)
      reads broker
    {
      && broker.deadLetters == dead0
      && broker.retry == (if env.retryPublish == Raises(false) then retry0 else retry0 + {RetryCopy(m, count, tag)})
      && (if env.retryPublish.Raises? then r == Unsettled
          else r == Settled(Retried(RetryCopy(m, count, tag), RetryDelaySec(count, policy.baseDelay, policy.maxDelay))))
    }

    /** The exception branches of on_message. */
    method SettleFailure(m: Message, error: Failure, env: Environment, freshId: EventId, ghost h: nat)
      returns (r: Ending)
      requires Valid() && IsAt(h, Handler(m, true, Failed(error)))
      modifies this`machine, this`harmed, broker
      ensures Valid() && harmed == old(harmed) && broker.work == old(broker.work)
      ensures r.Unsettled? <==> h in machine.handlers
      ensures var s := Tagged(Settle(m, Some(error), policy), old(broker.nextTag));
        r == EndingOf(s, env, reportsFailures)
          && Left(m, s, env, freshId, old(broker.retry), old(broker.deadLetters), old(broker.reported))
      ensures !error.Transient? ==> IsRejected(m, ReadRetryCount(m), env, r, old(broker.retry), old(broker.deadLetters))
      ensures error.Transient? && ReadRetryCount(m) + 1 >= policy.maxRetries ==>
        IsRejected(m, ReadRetryCount(m) + 1, env, r, old(broker.retry), old(broker.deadLetters))
      ensures error.Transient? && ReadRetryCount(m) + 1 < policy.maxRetries ==>
        IsRetried(m, ReadRetryCount(m) + 1, env, r, old(broker.nextTag), old(broker.retry), old(broker.deadLetters))
    {
      if error.Poison? {
        r := HandleExhausted(m, error, ReadRetryCount(m), env, freshId, h);
        return;
      }
      if error.Permanent? {
        r := HandleExhausted(m, error, ReadRetryCount(m), env, freshId, h);
        return;
      }
      var nextRetry := ReadRetryCount(m) + 1;
      if nextRetry < policy.maxRetries {
        r := ScheduleRetry(m, nextRetry, env, h);
        return;
      }
      r := HandleExhausted(m, error, nextRetry, env, freshId, h);
    }

    /** Publishes the copy and acknowledges. */
    method ScheduleRetry(m: Message, nextRetry: int, env: Environment, ghost h: nat) returns (r: Ending)
      requires Valid() && IsAt(h, Handler(m, true, Failed(Transient)))
      requires nextRetry == ReadRetryCount(m) + 1 && nextRetry < policy.maxRetries
      modifies this`machine, this`harmed, broker
      ensures Valid() && harmed == old(harmed) && broker.work == old(broker.work)
      ensures r.Unsettled? <==> h in machine.handlers
      ensures r == if env.retryPublish.Raises? then Unsettled else
        Settled(Retried(RetryCopy(m, nextRetry, old(broker.nextTag)),
          RetryDelaySec(nextRetry, policy.baseDelay, policy.maxDelay)))
      ensures broker.retry == if env.retryPublish == Raises(false) then old(broker.retry)
                              else old(broker.retry) + {RetryCopy(m, nextRetry, old(broker.nextTag))}
      ensures broker.deadLetters == old(broker.deadLetters) && broker.reported == old(broker.reported)
    {
      if env.retryPublish == Raises(false) {
        return Unsettled;
      }
      var delay := RetryDelaySec(nextRetry, policy.baseDelay, policy.maxDelay);
      var copy := RetryCopy(m, nextRetry, broker.nextTag);
      broker.PublishRetry(copy);
      Go(Action.PublishRetry(h), h, m);
      if env.retryPublish.Raises? {
        return Unsettled;
      }
      Go(Ack(h), h, m);
      return Settled(Retried(copy, delay));
    }

    /** Reports the failure, where the service does, and dead-letters the message. */
    method HandleExhausted(m: Message, error: Failure, retryCount: int, env: Environment, freshId: EventId,
                           ghost h: nat)
      returns (r: Ending)
      requires Valid() && IsAt(h, Handler(m, true, Failed(error))) && !GetsRetry(m, error, policy.maxRetries)
      modifies this`machine, this`harmed, broker
      ensures Valid() && harmed == old(harmed) && broker.work == old(broker.work) && broker.retry == old(broker.retry)
      ensures r.Unsettled? <==> h in machine.handlers
      ensures r == if reportsFailures && env.failurePublish.Raises? then Unsettled else Settled(Rejected(retryCount))
      ensures broker.deadLetters == if r.Settled? then old(broker.deadLetters) + {m} else old(broker.deadLetters)
      ensures broker.reported == if reportsFailures && env.failurePublish != Raises(false)
                                 then old(broker.reported) + [ReportOf(m, retryCount, freshId)]
                                 else old(broker.reported)
    {
      Go(GiveUp(h), h, m);
      if reportsFailures {
        if env.failurePublish == Raises(false) {
          return Unsettled;
        }
        broker.reported := broker.reported + [ReportOf(m, retryCount, freshId)];
      }
      Go(ReportFailure(h), h, m);
      if reportsFailures && env.failurePublish.Raises? {
        return Unsettled;
      }
      broker.deadLetters := broker.deadLetters + {m};
      Go(Reject(h), h, m);
      return Settled(Rejected(retryCount));
    }

    // ---- what happens around a handling

    /** A publisher's message reaches the work queue. */
    method Arrives(body: Body, header: Option<int>) returns (m: Message)
      requires Valid()
      modifies this`machine, this`harmed, broker
      ensures Valid() && harmed == old(harmed) && KeyOf(body) in machine.seen
      ensures m == Message(old(broker.nextTag), body, header, false) && broker.work == old(broker.work) + {m}
      ensures broker.retry == old(broker.retry) && broker.deadLetters == old(broker.deadLetters)
    {
      m := Message(broker.nextTag, body, header, false);
      broker.work, broker.nextTag := broker.work + {m}, broker.nextTag + 1;
      Take(Arrive(body, header));
    }

    /** A retry copy's expiration passes. */
    method Expires(m: Message)
      requires Valid() && m in broker.retry
      modifies this`machine, this`harmed, broker
      ensures Valid() && harmed == old(harmed)
      ensures broker.retry == old(broker.retry) - {m} && broker.work == old(broker.work) + {m}
      ensures broker.deadLetters == old(broker.deadLetters)
    {
      broker.retry, broker.work := broker.retry - {m}, broker.work + {m};
      Take(Expire(m));
    }

    /** The broker hands a message to the consumer. */
    method Receive(m: Message) returns (ghost h: nat)
      requires Valid() && m in broker.work
      modifies this`machine, this`harmed, broker
      ensures Valid() && harmed == old(harmed) && IsAt(h, Handler(m, true, Start))
        && machine.clock == old(machine.clock)
      ensures broker.work == old(broker.work) - {m}
      ensures broker.retry == old(broker.retry) && broker.deadLetters == old(broker.deadLetters)
    {
      h := machine.nextHandler;
      broker.work := broker.work - {m};
      Take(Deliver(m));
    }

    /** The channel closes on a message that was left unsettled: the broker takes it back. */
    method ChannelCloses(m: Message, ghost h: nat)
      requires Valid() && h in machine.handlers && machine.handlers[h].msg == m && machine.handlers[h].attached
      modifies this`machine, this`harmed, broker
      ensures Valid() && harmed == old(harmed) && broker.work == old(broker.work) + {m.(redelivered := true)}
      ensures broker.retry == old(broker.retry) && broker.deadLetters == old(broker.deadLetters)
    {
      AttachedIsBenign(machine, Detach(h), h);
      broker.work := broker.work + {m.(redelivered := true)};
      Take(Detach(h));
    }

    ghost method Wait(dt: nat)
      requires Valid()
      modifies this`machine, this`harmed
      ensures Valid() && harmed == old(harmed) && machine == old(machine).(clock := old(machine.clock) + dt)
    {
      Take(Tick(dt));
    }
  }

  /** No event is lost by the consumer, whatever it has handled since an empty start and however
      those handlings went, if none of them met a fault on that event: it is completed in the inbox,
      dead-lettered, on a queue, or with a handler whose channel is open. */
  lemma ConsumerLosesNothing(c: EventConsumer, k: Key)
    requires c.Valid() && Init(c.start) && k in c.machine.seen && k !in c.harmed
    requires k.EventKey? && k.id in c.start.inbox ==> !c.start.inbox[k.id].Legacy?
    ensures HasMessage(c.broker.deadLetters, k) || HasMessage(c.broker.work, k) || HasMessage(c.broker.retry, k)
         || (exists h :: h in c.machine.handlers && c.machine.handlers[h].Key() == k && c.machine.handlers[h].attached)
         || (k.EventKey? && k.id in c.inbox.rows && c.inbox.rows[k.id].Completed?)
  {
    var acts :| RunsTo(c.start, acts, c.machine, c.harmed);
    NoEventLost(c.start, acts, k);
  }
}
