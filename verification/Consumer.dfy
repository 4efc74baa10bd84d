/** The work-queue consumer as a step machine: a broker (work queue, retry queue, dead letters),
    the inbox table, and any number of message handlers, one per delivery. Every await of the
    source is a point where any other step may come in between. Both services run this protocol. */
module Consumer {
  import opened Types
  import opened Retry
  import Inbox

  datatype Key = EventKey(id: EventId) | PoisonKey(raw: string)

  function KeyOf(b: Body): Key {
    if b.Event? then EventKey(b.eventId) else PoisonKey(b.raw)
  }

  datatype AckReason = SkippedDuplicate | CopyPublished

  /** Where a handler is, with the locals it still needs.
      Window: the claim's insert met an existing row and its find-and-update is still to come.
      Working: the claim is held and the business call is running.
      Finished: mark_completed has returned.   Releasing: an exception was caught while claimed. */
  datatype Pc =
    | Start
    | Window(now: Time)
    | Working(claimedAt: Time)
    | Finished
    | Releasing(error: Failure)
    | Failed(error: Failure)
    | GivingUp(count: int)
    | ToReject
    | ToAck(reason: AckReason)

  /** `attached` is false once the channel the message came on is gone: the broker has taken
      the message back, but the coroutine may still run. */
  datatype Handler = Handler(msg: Message, attached: bool, pc: Pc) {
    function Key(): Key { KeyOf(msg.body) }

    /** A copy that is still going to be claimed, retried or rejected. */
    predicate Strong() {
      attached && !pc.Window? && !pc.Finished? && !pc.ToAck?
    }

    /** A copy that makes it safe to skip other copies while a processing row exists: it holds
        a claim, or it is flagged redelivered and so may take any processing row over. */
    predicate Witness() {
      attached && (pc.Working? || pc.Releasing? || (msg.redelivered && (pc.Start? || pc.Window?)))
    }
  }

  type Handlers = map<nat, Handler>

  /** `seen` records the key of every message ever put on the work queue from outside. */
  datatype State = State(
    work: set<Message>, retry: set<Message>, dlq: set<Message>,
    inbox: Inbox.Table, handlers: Handlers, clock: Time,
    nextTag: nat, nextHandler: nat, seen: set<Key>, maxRetries: int)

  datatype Action =
    | Arrive(body: Body, header: Option<int>)
    | Deliver(m: Message)
    | Expire(m: Message)
    | NackStopping(h: nat)
    | ParseFails(h: nat)
    | InsertClaim(h: nat)
    | UpdateClaim(h: nat)
    | ClaimRaises(h: nat, reached: bool)
    | Complete(h: nat)
    | WorkRaises(h: nat, error: Failure)
    | LateRaise(h: nat, error: Failure)
    | Release(h: nat)
    | ReleaseRaises(h: nat, reached: bool)
    | PublishRetry(h: nat)
    | GiveUp(h: nat)
    | ReportFailure(h: nat)
    | Ack(h: nat)
    | Reject(h: nat)
    | Crash(h: nat)
    | Detach(h: nat)
    | Tick(dt: nat)

  predicate At(s: State, h: nat) { h in s.handlers }

  predicate Claiming(s: State, h: nat) {
    At(s, h) && (s.handlers[h].pc.Start? || s.handlers[h].pc.Window?) && s.handlers[h].msg.body.Event?
  }

  /** The table once the store call a claiming handler is about to make has been applied. */
  function ClaimWritten(s: State, h: nat): Inbox.Table
    requires Claiming(s, h)
  {
    var x := s.handlers[h];
    var written := if x.pc.Start? then Inbox.InsertClaim(s.inbox, x.msg.body.eventId, s.clock)
                   else Inbox.UpdateClaim(s.inbox, x.msg.body.eventId, x.msg.redelivered, x.pc.now);
    if written.Some? then written.value else s.inbox
  }

  function ReleaseWritten(s: State, h: nat): Inbox.Table
    requires At(s, h) && s.handlers[h].msg.body.Event?
  {
    Inbox.ReleaseClaim(s.inbox, s.handlers[h].msg.body.eventId)
  }

  predicate Enabled(s: State, a: Action) {
    match a
    case Arrive(_, _) => true
    case Deliver(m) => m in s.work
    case Expire(m) => m in s.retry
    case NackStopping(h) => At(s, h) && s.handlers[h].pc.Start?
    case ParseFails(h) => At(s, h) && s.handlers[h].pc.Start? && s.handlers[h].msg.body.Malformed?
    case InsertClaim(h) => At(s, h) && s.handlers[h].pc.Start? && s.handlers[h].msg.body.Event?
    case UpdateClaim(h) => At(s, h) && s.handlers[h].pc.Window? && s.handlers[h].msg.body.Event?
    case ClaimRaises(h, _) => Claiming(s, h)
    case Complete(h) => At(s, h) && s.handlers[h].pc.Working? && s.handlers[h].msg.body.Event?
    case WorkRaises(h, error) => At(s, h) && s.handlers[h].pc.Working? && !error.Poison?
    case LateRaise(h, error) => At(s, h) && s.handlers[h].pc.Finished? && !error.Poison?
    case Release(h) => At(s, h) && s.handlers[h].pc.Releasing? && s.handlers[h].msg.body.Event?
    case ReleaseRaises(h, _) => At(s, h) && s.handlers[h].pc.Releasing? && s.handlers[h].msg.body.Event?
    case PublishRetry(h) => At(s, h) && s.handlers[h].pc.Failed?
      && GetsRetry(s.handlers[h].msg, s.handlers[h].pc.error, s.maxRetries)
    case GiveUp(h) => At(s, h) && s.handlers[h].pc.Failed?
      && !GetsRetry(s.handlers[h].msg, s.handlers[h].pc.error, s.maxRetries)
    case ReportFailure(h) => At(s, h) && s.handlers[h].pc.GivingUp?
    case Ack(h) => At(s, h) && (s.handlers[h].pc.ToAck? || s.handlers[h].pc.Finished?)
    case Reject(h) => At(s, h) && s.handlers[h].pc.ToReject?
    case Crash(h) => At(s, h)
    case Detach(h) => At(s, h) && s.handlers[h].attached
    case Tick(_) => true
  }

  function Goto(s: State, h: nat, pc: Pc): State
    requires At(s, h)
  {
    s.(handlers := s.handlers[h := s.handlers[h].(pc := pc)])
  }

  function Gone(s: State, h: nat): State {
    s.(handlers := s.handlers - {h})
  }

  /** The broker takes an unsettled message back and flags it. */
  function Requeued(s: State, h: nat): set<Message>
    requires At(s, h)
  {
    if s.handlers[h].attached then s.work + {s.handlers[h].msg.(redelivered := true)} else s.work
  }

  /** A store call that raises may or may not have been applied: `reached` says which. */
  function Apply(s: State, a: Action): State
    requires Enabled(s, a)
  {
    match a
    case Arrive(body, header) =>
      s.(work := s.work + {Message(s.nextTag, body, header, false)},
         nextTag := s.nextTag + 1, seen := s.seen + {KeyOf(body)})
    case Deliver(m) =>
      s.(work := s.work - {m}, nextHandler := s.nextHandler + 1,
         handlers := s.handlers[s.nextHandler := Handler(m, true, Start)])
    case Expire(m) =>
      s.(retry := s.retry - {m}, work := s.work + {m})
    case NackStopping(h) => Gone(s.(work := Requeued(s, h)), h)
    case ParseFails(h) => Goto(s, h, Failed(Poison))
    case InsertClaim(h) =>
      var claimed := Inbox.InsertClaim(s.inbox, s.handlers[h].msg.body.eventId, s.clock);
      if claimed.Some? then Goto(s.(inbox := claimed.value), h, Working(s.clock))
      else Goto(s, h, Window(s.clock))
    case UpdateClaim(h) =>
      var msg, now := s.handlers[h].msg, s.handlers[h].pc.now;
      var claimed := Inbox.UpdateClaim(s.inbox, msg.body.eventId, msg.redelivered, now);
      if claimed.Some? then Goto(s.(inbox := claimed.value), h, Working(now))
      else Goto(s, h, ToAck(SkippedDuplicate))
    case ClaimRaises(h, reached) => Goto(if reached then s.(inbox := ClaimWritten(s, h)) else s, h, Failed(Transient))
    case Complete(h) =>
      Goto(s.(inbox := Inbox.MarkCompleted(s.inbox, s.handlers[h].msg.body.eventId, s.clock)), h, Finished)
    case WorkRaises(h, error) => Goto(s, h, Releasing(error))
    case LateRaise(h, error) => Goto(s, h, Releasing(error))
    case Release(h) =>
      Goto(s.(inbox := ReleaseWritten(s, h)), h, Failed(s.handlers[h].pc.error))
    case ReleaseRaises(h, reached) =>
      Goto(if reached then s.(inbox := ReleaseWritten(s, h)) else s, h, Failed(Transient))
    case PublishRetry(h) =>
      var m := s.handlers[h].msg;
      Goto(s.(retry := s.retry + {RetryCopy(m, ReadRetryCount(m) + 1, s.nextTag)}, nextTag := s.nextTag + 1),
           h, ToAck(CopyPublished))
    case GiveUp(h) => Goto(s, h, GivingUp(ReportedCount(s.handlers[h].msg, s.handlers[h].pc.error)))
    case ReportFailure(h) => Goto(s, h, ToReject)
    case Ack(h) => Gone(s, h)
    case Reject(h) =>
      Gone(s.(dlq := if s.handlers[h].attached then s.dlq + {s.handlers[h].msg} else s.dlq), h)
    case Crash(h) => Gone(s.(work := Requeued(s, h)), h)
    case Detach(h) =>
      s.(work := Requeued(s, h), handlers := s.handlers[h := s.handlers[h].(attached := false)])
    case Tick(dt) => s.(clock := s.clock + dt)
  }

  /** A start: empty queues, no handler, and an inbox that may hold completed and legacy rows. */
  ghost predicate Init(s: State) {
    && s.work == {} && s.retry == {} && s.dlq == {} && s.seen == {} && s.handlers == map[]
    && forall e :: e in s.inbox ==> !s.inbox[e].Processing?
  }

  ghost predicate Valid(s: State, acts: seq<Action>)
    decreases |acts|
  {
    acts != [] ==> Enabled(s, acts[0]) && Valid(Apply(s, acts[0]), acts[1..])
  }

  ghost function Exec(s: State, acts: seq<Action>): State
    requires Valid(s, acts)
    decreases |acts|
  {
    if acts == [] then s else Exec(Apply(s, acts[0]), acts[1..])
  }
}
