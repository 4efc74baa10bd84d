/** Timely leases exclude: while nobody takes a row over by redelivery and no holder outlives its
    lease, at most one handler at a time works on an event. */
module InboxLeases {
  import opened Types
  import opened Consumer
  import Conservation
  import Inbox

  /** From the granted claim to the end of the attempt. */
  predicate Live(x: Handler) {
    x.msg.body.Event? && (x.pc.Working? || x.pc.Releasing? || x.pc.Finished?)
  }

  /** What is asked of a run: no existing row is taken over for a redelivered message (being refused
      one is fine), and time does not pass the lease of a handler that is still claiming or at work. */
  ghost predicate Timely(s: State, a: Action)
    requires Enabled(s, a)
  {
    match a
    case UpdateClaim(h) => s.handlers[h].msg.redelivered ==> !Apply(s, a).handlers[h].pc.Working?
    case ClaimRaises(h, _) => s.handlers[h].msg.redelivered && s.handlers[h].pc.Window? ==> Apply(s, a).inbox == s.inbox
    case Tick(dt) =>
      forall h :: h in s.handlers ==>
        && (Live(s.handlers[h]) ==> WithinLease(s, s.handlers[h].msg.body.eventId, s.clock + dt))
        && (s.handlers[h].pc.Window? ==> s.clock + dt <= s.handlers[h].pc.now + CLAIM_STALE_AFTER)
    case _ => true
  }

  predicate WithinLease(s: State, e: EventId, at: Time) {
    e in s.inbox && s.inbox[e].Processing? ==> at <= s.inbox[e].claimedAt + CLAIM_STALE_AFTER
  }

  ghost predicate AllTimely(s: State, acts: seq<Action>)
    requires Valid(s, acts)
    decreases |acts|
  {
    acts != [] ==> Timely(s, acts[0]) && AllTimely(Apply(s, acts[0]), acts[1..])
  }

  /** Not both at work on one event. */
  predicate Apart(x: Handler, y: Handler) {
    !(Live(x) && Live(y) && x.msg.body.eventId == y.msg.body.eventId)
  }

  ghost predicate Exclusive(s: State) {
    forall h, g :: h in s.handlers && g in s.handlers && h != g ==> Apart(s.handlers[h], s.handlers[g])
  }

  predicate RowBacks(row: Inbox.Row, x: Handler, clock: Time) {
    && !row.Legacy?
    && (row.Processing? && x.pc.Working? ==> row.claimedAt == x.pc.claimedAt)
    && (row.Processing? ==> clock <= row.claimedAt + CLAIM_STALE_AFTER)
    && (x.pc.Finished? ==> row.Completed?)
  }

  /** A live handler is backed by a row nobody else may claim. */
  predicate Backed(s: State, h: nat)
    requires h in s.handlers
  {
    var x := s.handlers[h];
    && h < s.nextHandler
    && (x.pc.Window? ==> x.pc.now <= s.clock <= x.pc.now + CLAIM_STALE_AFTER)
    && (Live(x) ==> x.msg.body.eventId in s.inbox && RowBacks(s.inbox[x.msg.body.eventId], x, s.clock))
  }

  ghost predicate Inv(s: State) {
    (forall h :: h in s.handlers ==> Backed(s, h)) && Exclusive(s)
  }

  /** A granted claim means that nobody was at work on the event. */
  lemma GrantedMeansIdle(s: State, a: Action, h: nat, g: nat)
    requires Enabled(s, a) && Timely(s, a) && (a == InsertClaim(h) || a == UpdateClaim(h))
    requires Apply(s, a).handlers[h].pc.Working?
    requires Backed(s, h) && g in s.handlers && Backed(s, g)
    ensures Live(s.handlers[g]) ==> s.handlers[g].msg.body.eventId != s.handlers[h].msg.body.eventId
  {
  }

  /** Nor is anybody when a claim is applied whose call raises. */
  lemma AppliedMeansIdle(s: State, a: Action, g: nat)
    requires Enabled(s, a) && Timely(s, a) && a.ClaimRaises? && Apply(s, a).inbox != s.inbox
    requires Backed(s, a.h) && g in s.handlers && Backed(s, g)
    ensures Live(s.handlers[g]) ==> s.handlers[g].msg.body.eventId != s.handlers[a.h].msg.body.eventId
  {
  }

  /** Whoever is at work after a step was before, or has just been granted the claim. */
  lemma LiveOrigin(s: State, a: Action, h: nat)
    requires Enabled(s, a) && h in Apply(s, a).handlers && Live(Apply(s, a).handlers[h])
    ensures h in s.handlers && s.handlers[h].msg == Apply(s, a).handlers[h].msg
    ensures Live(s.handlers[h]) || ((a == InsertClaim(h) || a == UpdateClaim(h)) && Apply(s, a).handlers[h].pc.Working?)
  {
  }

  lemma ExclusiveStep(s: State, a: Action, h: nat, g: nat)
    requires Inv(s) && Enabled(s, a) && Timely(s, a)
    requires var t := Apply(s, a); h in t.handlers && g in t.handlers && h != g
    ensures var t := Apply(s, a); Apart(t.handlers[h], t.handlers[g])
  {
    var t := Apply(s, a);
    if Live(t.handlers[h]) && Live(t.handlers[g]) {
      LiveOrigin(s, a, h);
      LiveOrigin(s, a, g);
      if !Live(s.handlers[h]) {
        GrantedMeansIdle(s, a, h, g);
      } else if !Live(s.handlers[g]) {
        GrantedMeansIdle(s, a, g, h);
      } else {
        assert Apart(s.handlers[h], s.handlers[g]);
      }
    }
  }

  /** A claim of another handler leaves the row of a live one alone. */
  lemma BackedWhileClaimed(s: State, a: Action, g: nat)
    requires Inv(s) && Enabled(s, a) && Timely(s, a) && g in s.handlers
    requires (a.InsertClaim? || a.UpdateClaim? || a.ClaimRaises?) && a.h != g
    ensures Backed(Apply(s, a), g)
  {
    if a.ClaimRaises? {
      if Apply(s, a).inbox != s.inbox {
        AppliedMeansIdle(s, a, g);
      }
    } else if Apply(s, a).handlers[a.h].pc.Working? {
      GrantedMeansIdle(s, a, a.h, g);
    }
  }

  lemma BackedByOwnStep(s: State, a: Action, g: nat)
    requires Inv(s) && Enabled(s, a) && Timely(s, a) && g in s.handlers && g in Apply(s, a).handlers
    requires Conservation.Actor(a) == Some(g)
    ensures Backed(Apply(s, a), g)
  {
  }

  lemma BackedStep(s: State, a: Action, g: nat)
    requires Inv(s) && Enabled(s, a) && Timely(s, a) && g in Apply(s, a).handlers
    ensures Backed(Apply(s, a), g)
  {
    if (a.InsertClaim? || a.UpdateClaim? || a.ClaimRaises?) && a.h != g {
      BackedWhileClaimed(s, a, g);
    } else if g in s.handlers && Conservation.Actor(a) == Some(g) {
      BackedByOwnStep(s, a, g);
    } else {
      BackedWhileOthersStep(s, a, g);
    }
  }

  lemma BackedWhileOthersStep(s: State, a: Action, g: nat)
    requires Inv(s) && Enabled(s, a) && Timely(s, a) && g in Apply(s, a).handlers
    requires Conservation.Actor(a) != Some(g) && !a.InsertClaim? && !a.UpdateClaim? && !a.ClaimRaises?
    ensures Backed(Apply(s, a), g)
  {
  }

  lemma InvStep(s: State, a: Action)
    requires Inv(s) && Enabled(s, a) && Timely(s, a)
    ensures Inv(Apply(s, a))
  {
    var t := Apply(s, a);
    forall h | h in t.handlers ensures Backed(t, h) {
      BackedStep(s, a, h);
    }
    forall h, g | h in t.handlers && g in t.handlers && h != g ensures Apart(t.handlers[h], t.handlers[g]) {
      ExclusiveStep(s, a, h, g);
    }
  }

  /** At most one handler at a time is between its granted claim and the end of its attempt. */
  lemma {:induction false} OneWorkerPerEvent(s: State, acts: seq<Action>)
    requires s.handlers == map[] || Inv(s)
    requires Valid(s, acts) && AllTimely(s, acts)
    ensures Exclusive(Exec(s, acts))
    decreases |acts|
  {
    if acts != [] {
      InvStep(s, acts[0]);
      OneWorkerPerEvent(Apply(s, acts[0]), acts[1..]);
    }
  }
}
