/** No event is lost: the invariant of the consumer protocol, over all interleavings of any
    number of handlers with crashes, redeliveries, stale leases and dropped channels. */
module Conservation {
  import opened Types
  import opened Retry
  import opened Consumer

  ghost predicate HasMessage(ms: set<Message>, k: Key) {
    exists m :: m in ms && KeyOf(m.body) == k
  }

  ghost predicate HasFlagged(ms: set<Message>, k: Key) {
    exists m :: m in ms && KeyOf(m.body) == k && m.redelivered
  }

  ghost predicate HasStrong(hs: Handlers, k: Key) {
    exists h :: h in hs && hs[h].Key() == k && hs[h].Strong()
  }

  ghost predicate HasWitness(hs: Handlers, k: Key) {
    exists h :: h in hs && hs[h].Key() == k && hs[h].Witness()
  }

  /** Some copy is going to be claimed (or rejected) for sure. */
  ghost predicate Pursued(s: State, k: Key) {
    HasMessage(s.work, k) || HasMessage(s.retry, k) || HasStrong(s.handlers, k)
  }

  /** Some copy holds a claim or is able to take any processing row over. */
  ghost predicate Vouched(s: State, k: Key) {
    HasFlagged(s.work, k) || HasWitness(s.handlers, k)
  }

  predicate RowIsProcessing(s: State, k: Key) {
    k.EventKey? && k.id in s.inbox && s.inbox[k.id].Processing?
  }

  /** Nothing of this event needs to happen any more. */
  predicate Settled(s: State, k: Key) {
    k.EventKey? && k.id in s.inbox && !s.inbox[k.id].Processing?
  }

  ghost predicate Safe(s: State, k: Key) {
    || HasMessage(s.dlq, k)
    || Settled(s, k)
    || (if RowIsProcessing(s, k) then Vouched(s, k) else Pursued(s, k))
  }

  ghost predicate Inv(s: State, k: Key) {
    Bookkeeping(s) && (k in s.seen ==> Safe(s, k))
  }

  predicate RowIsCompleted(s: State, k: Key) {
    k.EventKey? && k.id in s.inbox && s.inbox[k.id].Completed?
  }

  ghost predicate HandlersKnown(s: State) {
    forall h :: h in s.handlers ==> h < s.nextHandler && s.handlers[h].Key() in s.seen
  }

  ghost predicate FinishedIsCompleted(s: State) {
    forall h :: h in s.handlers && s.handlers[h].pc.Finished? ==> RowIsCompleted(s, s.handlers[h].Key())
  }

  ghost predicate MessagesKnown(s: State) {
    forall m :: m in s.work || m in s.retry ==> KeyOf(m.body) in s.seen
  }

  ghost predicate RowsKnown(s: State) {
    forall e :: e in s.inbox && s.inbox[e].Processing? ==> EventKey(e) in s.seen
  }

  /** Nothing appears from nowhere, and mark_completed has done its work where it returned. */
  ghost predicate Bookkeeping(s: State) {
    HandlersKnown(s) && FinishedIsCompleted(s) && MessagesKnown(s) && RowsKnown(s)
  }

  /** Somebody other than handler `h` holds the claim on `k` or may take any row of it over. */
  ghost predicate VouchedByOthers(s: State, h: nat, k: Key) {
    HasFlagged(s.work, k)
      || exists g :: g in s.handlers && g != h && s.handlers[g].Key() == k && s.handlers[g].Witness()
  }

  /** The faults under which the protocol can lose an event, each read off the state before the
      step, while nobody else vouches for the row:
      1. A handler whose channel is gone is granted a row: a new one, or one without a status.
      2. try_claim raises for a redelivered message over a processing row, which the copy that is
         then retried, not flagged redelivered, cannot take over.
      3. try_claim raises although its insert, or its update of a row without a status, was applied:
         the handler does not know that it holds the claim, and does not release it.
      4. release_claim raises without having deleted the processing row. */
  ghost predicate Faulty(s: State, a: Action)
    requires Enabled(s, a)
  {
    match a
    case InsertClaim(h) => !s.handlers[h].attached && !HasRow(s, h) && NobodyElse(s, h)
    case UpdateClaim(h) => !s.handlers[h].attached && TakesLegacyRow(s, h) && NobodyElse(s, h)
    case ClaimRaises(h, applied) =>
      && NobodyElse(s, h)
      && (|| FlaggedOverRow(s, h)
          || (applied && if s.handlers[h].pc.Start? then !HasRow(s, h) else TakesLegacyRow(s, h)))
    case ReleaseRaises(h, applied) =>
      !applied && s.handlers[h].attached && RowIsProcessing(s, s.handlers[h].Key()) && NobodyElse(s, h)
    case _ => false
  }

  ghost predicate NobodyElse(s: State, h: nat)
    requires h in s.handlers
  {
    !VouchedByOthers(s, h, s.handlers[h].Key())
  }

  predicate HasRow(s: State, h: nat)
    requires h in s.handlers && s.handlers[h].msg.body.Event?
  {
    s.handlers[h].msg.body.eventId in s.inbox
  }

  /** A first delivery meets a row without a status, which it may take over. */
  predicate TakesLegacyRow(s: State, h: nat)
    requires h in s.handlers && s.handlers[h].msg.body.Event?
  {
    HasRow(s, h) && s.inbox[s.handlers[h].msg.body.eventId].Legacy? && !s.handlers[h].msg.redelivered
  }

  predicate FlaggedOverRow(s: State, h: nat)
    requires h in s.handlers
  {
    s.handlers[h].attached && s.handlers[h].msg.redelivered && RowIsProcessing(s, s.handlers[h].Key())
  }

  /** No step is a fault, and no handler whose channel is gone deletes a row between the two halves
      of another handler's claim. With an atomic try_claim that window is never open. */
  ghost predicate Benign(s: State, a: Action)
    requires Enabled(s, a)
  {
    && !Faulty(s, a)
    && (a.Release? || (a.ReleaseRaises? && a.reached) ==> ReleasesWell(s, a.h))
  }

  ghost predicate ReleasesWell(s: State, h: nat)
    requires h in s.handlers
  {
    s.handlers[h].attached || !WindowOpen(s, s.handlers[h].Key())
  }

  ghost predicate WindowOpen(s: State, k: Key) {
    exists h :: h in s.handlers && s.handlers[h].Key() == k && s.handlers[h].pc.Window?
  }

  /** Only the handlers of `k` have to be benign: what happens to other events does not matter. */
  ghost predicate BenignFor(s: State, a: Action, k: Key)
    requires Enabled(s, a)
  {
    var h := Actor(a);
    h.Some? && s.handlers[h.value].Key() == k ==> Benign(s, a)
  }

  ghost predicate AllBenign(s: State, acts: seq<Action>, k: Key)
    requires Valid(s, acts)
    decreases |acts|
  {
    acts != [] ==> BenignFor(s, acts[0], k) && AllBenign(Apply(s, acts[0]), acts[1..], k)
  }

  predicate SameElsewhere(a: Handlers, b: Handlers, h: nat) {
    forall x :: x in a && x != h ==> x in b && b[x] == a[x]
  }

  lemma KeepStrong(a: Handlers, b: Handlers, h: nat, k: Key)
    requires HasStrong(a, k) && SameElsewhere(a, b, h)
    requires h in a && a[h].Key() == k && a[h].Strong() ==> h in b && b[h].Key() == k && b[h].Strong()
    ensures HasStrong(b, k)
  {
    var w :| w in a && a[w].Key() == k && a[w].Strong();
    assert w in b && b[w].Key() == k && b[w].Strong();
  }

  lemma KeepWitness(a: Handlers, b: Handlers, h: nat, k: Key)
    requires HasWitness(a, k) && SameElsewhere(a, b, h)
    requires h in a && a[h].Key() == k && a[h].Witness() ==> h in b && b[h].Key() == k && b[h].Witness()
    ensures HasWitness(b, k)
  {
    var w :| w in a && a[w].Key() == k && a[w].Witness();
    assert w in b && b[w].Key() == k && b[w].Witness();
  }

  /** A step that leaves the row of `k` alone and takes from handler `h` no more than it puts
      back keeps `k` safe. */
  lemma Carry(s: State, t: State, h: nat, k: Key)
    requires Safe(s, k) && SameElsewhere(s.handlers, t.handlers, h)
    requires s.dlq <= t.dlq
    requires RowIsProcessing(t, k) == RowIsProcessing(s, k) && Settled(t, k) == Settled(s, k)
    requires s.work <= t.work && s.retry <= t.retry
    requires h in s.handlers && s.handlers[h].Key() == k && s.handlers[h].Strong() && !RowIsProcessing(s, k)
             && !Settled(s, k) ==>
      (h in t.handlers && t.handlers[h].Key() == k && t.handlers[h].Strong()) || Pursued(t, k) || HasMessage(t.dlq, k)
    requires h in s.handlers && s.handlers[h].Key() == k && s.handlers[h].Witness() && RowIsProcessing(s, k) ==>
      (h in t.handlers && t.handlers[h].Key() == k && t.handlers[h].Witness()) || Vouched(t, k) || HasMessage(t.dlq, k)
    ensures Safe(t, k)
  {
    if HasMessage(s.dlq, k) || Settled(s, k) || HasMessage(t.dlq, k) {
    } else if RowIsProcessing(s, k) {
      if HasFlagged(s.work, k) {
      } else if !Vouched(t, k) {
        KeepWitness(s.handlers, t.handlers, h, k);
      }
    } else if HasMessage(s.work, k) || HasMessage(s.retry, k) {
    } else if !Pursued(t, k) {
      KeepStrong(s.handlers, t.handlers, h, k);
    }
  }

  /** The handler a step is about. */
  function Actor(a: Action): Option<nat> {
    match a
    case Arrive(_, _) => None
    case Deliver(_) => None
    case Expire(_) => None
    case Tick(_) => None
    case NackStopping(h) => Some(h)
    case ParseFails(h) => Some(h)
    case InsertClaim(h) => Some(h)
    case UpdateClaim(h) => Some(h)
    case ClaimRaises(h, _) => Some(h)
    case Complete(h) => Some(h)
    case WorkRaises(h, _) => Some(h)
    case LateRaise(h, _) => Some(h)
    case Release(h) => Some(h)
    case ReleaseRaises(h, _) => Some(h)
    case PublishRetry(h) => Some(h)
    case GiveUp(h) => Some(h)
    case ReportFailure(h) => Some(h)
    case Ack(h) => Some(h)
    case Reject(h) => Some(h)
    case Crash(h) => Some(h)
    case Detach(h) => Some(h)
  }

  /** Messages moving between queues and into a handler. */
  lemma SafeWhenMoved(s: State, a: Action, k: Key)
    requires Bookkeeping(s) && Enabled(s, a) && (a.Deliver? || a.Expire?)
    requires Safe(s, k)
    ensures Safe(Apply(s, a), k)
  {
    var t := Apply(s, a);
    var m := a.m;
    if a.Deliver? && KeyOf(m.body) == k {
      assert t.handlers[s.nextHandler].Strong() && t.handlers[s.nextHandler].Key() == k;
    }
    assert a.Expire? ==> m in t.work;
    assert SameElsewhere(s.handlers, t.handlers, s.nextHandler);
    if Settled(s, k) || HasMessage(s.dlq, k) {
    } else if RowIsProcessing(s, k) {
      if HasFlagged(s.work, k) {
        var w :| w in s.work && KeyOf(w.body) == k && w.redelivered;
        if a.Deliver? && w == m {
          assert t.handlers[s.nextHandler].Witness();
        } else {
          assert w in t.work;
        }
      } else {
        KeepWitness(s.handlers, t.handlers, s.nextHandler, k);
      }
    } else if HasMessage(s.work, k) || HasMessage(s.retry, k) {
      var w :| (w in s.work || w in s.retry) && KeyOf(w.body) == k;
      assert w == m || w in t.work || w in t.retry;
    } else {
      KeepStrong(s.handlers, t.handlers, s.nextHandler, k);
    }
  }

  /** Steps of handler `h` that settle its message or give it back to the broker. */
  lemma SafeWhenHandedOver(s: State, a: Action, h: nat, k: Key)
    requires Enabled(s, a) && Actor(a) == Some(h) && Safe(s, k)
    requires a.NackStopping? || a.Crash? || a.Detach? || a.Reject? || a.PublishRetry? || a.Ack?
    ensures Safe(Apply(s, a), k)
  {
    var t := Apply(s, a);
    var x := s.handlers[h];
    if x.Key() == k && x.attached {
      if a.Reject? {
        assert x.msg in t.dlq;
      } else if a.PublishRetry? {
        var copy := RetryCopy(x.msg, ReadRetryCount(x.msg) + 1, s.nextTag);
        assert copy in t.retry && KeyOf(copy.body) == k;
      } else if !a.Ack? {
        assert x.msg.(redelivered := true) in t.work;
      }
    }
    Carry(s, t, h, k);
  }

  /** Steps of handler `h` that only move it on. */
  lemma SafeWhenMovedOn(s: State, a: Action, h: nat, k: Key)
    requires Enabled(s, a) && Actor(a) == Some(h) && Safe(s, k)
    requires a.ParseFails? || a.WorkRaises? || a.LateRaise? || a.GiveUp? || a.ReportFailure?
    ensures Safe(Apply(s, a), k)
  {
    Carry(s, Apply(s, a), h, k);
  }

  /** Whoever else vouched for a row still does after a step of `h` that leaves the queue alone. */
  lemma OthersStillVouch(s: State, t: State, h: nat, k: Key)
    requires VouchedByOthers(s, h, k) && SameElsewhere(s.handlers, t.handlers, h) && s.work <= t.work
    ensures Vouched(t, k)
  {
    if !HasFlagged(s.work, k) {
      var g :| g in s.handlers && g != h && s.handlers[g].Key() == k && s.handlers[g].Witness();
      assert g in t.handlers && t.handlers[g] == s.handlers[g];
    }
  }

  /** What a fault comes to: the step leaves a processing row with nobody to vouch for it, which
      it either wrote or was itself the last to vouch for. */
  ghost predicate Orphans(s: State, a: Action, h: nat)
    requires Enabled(s, a) && h in s.handlers
  {
    var k, t := s.handlers[h].Key(), Apply(s, a);
    && RowIsProcessing(t, k) && !VouchedByOthers(s, h, k)
    && !(h in t.handlers && t.handlers[h].Witness())
    && (RowIsProcessing(s, k) ==> s.handlers[h].Witness())
  }

  /** The faults are exactly the claiming and releasing steps that orphan a row. */
  lemma FaultyIffOrphans(s: State, a: Action, h: nat)
    requires Enabled(s, a) && Actor(a) == Some(h)
    requires a.InsertClaim? || a.UpdateClaim? || a.ClaimRaises? || a.ReleaseRaises?
    ensures Faulty(s, a) <==> Orphans(s, a, h)
  {
  }

  /** In particular no claim that goes through is a fault while the channel is there. */
  lemma AttachedClaimIsBenign(s: State, a: Action, h: nat)
    requires Enabled(s, a) && (a == InsertClaim(h) || a == UpdateClaim(h)) && s.handlers[h].attached
    ensures Benign(s, a)
  {
  }

  /** Steps of a handler of `k` that may write its row. */
  lemma SafeWhenClaiming(s: State, a: Action, h: nat, k: Key)
    requires Enabled(s, a) && Actor(a) == Some(h) && s.handlers[h].Key() == k && !Faulty(s, a)
    requires a.InsertClaim? || a.UpdateClaim? || a.ClaimRaises? || (a.ReleaseRaises? && !a.reached)
    requires Safe(s, k)
    ensures Safe(Apply(s, a), k)
  {
    var t := Apply(s, a);
    FaultyIffOrphans(s, a, h);
    if RowIsProcessing(t, k) && t.handlers[h].Witness() {
    } else if RowIsProcessing(t, k) && VouchedByOthers(s, h, k) {
      OthersStillVouch(s, t, h, k);
    } else {
      Carry(s, t, h, k);
    }
  }

  /** Steps of handler `h` that may write the row of its event. */
  lemma SafeWhenInboxWritten(s: State, a: Action, h: nat, k: Key)
    requires Enabled(s, a) && BenignFor(s, a, k) && Actor(a) == Some(h)
    requires a.InsertClaim? || a.UpdateClaim? || a.ClaimRaises? || a.Complete? || a.Release? || a.ReleaseRaises?
    requires Safe(s, k)
    ensures Safe(Apply(s, a), k)
  {
    if s.handlers[h].Key() != k {
      Carry(s, Apply(s, a), h, k);
    } else if a.Release? || (a.ReleaseRaises? && a.reached) {
      ReleaseIsSafe(s, a, h);
    } else if !a.Complete? {
      SafeWhenClaiming(s, a, h, k);
    }
  }

  /** Deleting the row is safe because the releaser itself goes on to retry or reject; if its
      channel is gone, because whoever vouched for the row is not past its own insert. */
  lemma ReleaseIsSafe(s: State, a: Action, h: nat)
    requires Enabled(s, a) && (a == Release(h) || a == ReleaseRaises(h, true)) && ReleasesWell(s, h)
    requires Safe(s, s.handlers[h].Key())
    ensures Safe(Apply(s, a), s.handlers[h].Key())
  {
    var k, t, x := s.handlers[h].Key(), Apply(s, a), s.handlers[h];
    if HasMessage(s.dlq, k) || Settled(s, k) {
    } else if x.attached {
      assert t.handlers[h].Strong() && t.handlers[h].Key() == k;
    } else if HasFlagged(s.work, k) {
    } else if HasMessage(s.work, k) || HasMessage(s.retry, k) {
    } else if RowIsProcessing(s, k) {
      var w :| w in s.handlers && s.handlers[w].Key() == k && s.handlers[w].Witness();
      assert w != h && t.handlers[w].Strong();
    } else {
      KeepStrong(s.handlers, t.handlers, h, k);
    }
  }

  lemma SafeStep(s: State, a: Action, k: Key)
    requires Bookkeeping(s) && Enabled(s, a) && BenignFor(s, a, k)
    requires Safe(s, k)
    ensures Safe(Apply(s, a), k)
  {
    match Actor(a)
    case None =>
      if a.Deliver? || a.Expire? {
        SafeWhenMoved(s, a, k);
      } else {
        Carry(s, Apply(s, a), s.nextHandler, k);
      }
    case Some(h) =>
      if a.InsertClaim? || a.UpdateClaim? || a.ClaimRaises? || a.Complete? || a.Release? || a.ReleaseRaises? {
        SafeWhenInboxWritten(s, a, h, k);
      } else if a.NackStopping? || a.Crash? || a.Detach? || a.Reject? || a.PublishRetry? || a.Ack? {
        SafeWhenHandedOver(s, a, h, k);
      } else {
        SafeWhenMovedOn(s, a, h, k);
      }
  }

  /** A handler keeps its message, and is born with a delivered one. */
  lemma HandlerOrigin(s: State, a: Action, h: nat)
    requires Enabled(s, a) && h in Apply(s, a).handlers
    ensures if h in s.handlers && (a.Deliver? ==> h != s.nextHandler)
            then Apply(s, a).handlers[h].msg == s.handlers[h].msg
            else a.Deliver? && h == s.nextHandler && Apply(s, a).handlers[h].msg == a.m
    ensures s.nextHandler <= Apply(s, a).nextHandler && s.seen <= Apply(s, a).seen
  {
  }

  lemma HandlerKnownStep(s: State, a: Action, h: nat)
    requires HandlersKnown(s) && MessagesKnown(s) && Enabled(s, a) && h in Apply(s, a).handlers
    ensures h < Apply(s, a).nextHandler && Apply(s, a).handlers[h].Key() in Apply(s, a).seen
  {
    HandlerOrigin(s, a, h);
    if h in s.handlers {
      assert s.handlers[h].Key() in s.seen;
    }
  }

  /** A handler gets to Finished by completing its event. */
  lemma FinishedOrigin(s: State, a: Action, h: nat)
    requires Enabled(s, a) && h in Apply(s, a).handlers && Apply(s, a).handlers[h].pc.Finished?
    ensures a == Complete(h)
      || (h in s.handlers && s.handlers[h].pc.Finished? && s.handlers[h].msg == Apply(s, a).handlers[h].msg)
  {
  }

  lemma CompletedRowStays(s: State, a: Action, k: Key)
    requires Enabled(s, a) && RowIsCompleted(s, k)
    ensures RowIsCompleted(Apply(s, a), k)
  {
  }

  lemma FinishedHandlerStep(s: State, a: Action, h: nat)
    requires FinishedIsCompleted(s) && Enabled(s, a)
    requires h in Apply(s, a).handlers && Apply(s, a).handlers[h].pc.Finished?
    ensures RowIsCompleted(Apply(s, a), Apply(s, a).handlers[h].Key())
  {
    FinishedOrigin(s, a, h);
    if a != Complete(h) {
      CompletedRowStays(s, a, s.handlers[h].Key());
    }
  }

  lemma MessagesKnownStep(s: State, a: Action)
    requires HandlersKnown(s) && MessagesKnown(s) && Enabled(s, a)
    ensures MessagesKnown(Apply(s, a))
  {
  }

  lemma RowsKnownStep(s: State, a: Action)
    requires HandlersKnown(s) && RowsKnown(s) && Enabled(s, a)
    ensures RowsKnown(Apply(s, a))
  {
  }

  lemma BookkeepingStep(s: State, a: Action)
    requires Bookkeeping(s) && Enabled(s, a)
    ensures Bookkeeping(Apply(s, a))
  {
    var t := Apply(s, a);
    forall h | h in t.handlers ensures h < t.nextHandler && t.handlers[h].Key() in t.seen {
      HandlerKnownStep(s, a, h);
    }
    forall h | h in t.handlers && t.handlers[h].pc.Finished? ensures RowIsCompleted(t, t.handlers[h].Key()) {
      FinishedHandlerStep(s, a, h);
    }
    MessagesKnownStep(s, a);
    RowsKnownStep(s, a);
  }

  lemma InvStep(s: State, a: Action, k: Key)
    requires Inv(s, k) && Enabled(s, a) && BenignFor(s, a, k)
    ensures Inv(Apply(s, a), k)
  {
    var t := Apply(s, a);
    BookkeepingStep(s, a);
    if k in s.seen {
      SafeStep(s, a, k);
    } else if k in t.seen {
      var m := Message(s.nextTag, a.body, a.header, false);
      assert m in t.work && KeyOf(m.body) == k;
      assert !RowIsProcessing(t, k);
    }
  }

  lemma {:induction false} InvAlways(s: State, acts: seq<Action>, k: Key)
    requires Inv(s, k) && Valid(s, acts) && AllBenign(s, acts, k)
    ensures Inv(Exec(s, acts), k)
    decreases |acts|
  {
    if acts != [] {
      InvStep(s, acts[0], k);
      InvAlways(Apply(s, acts[0]), acts[1..], k);
    }
  }

  ghost predicate InFlight(s: State, k: Key) {
    || HasMessage(s.work, k)
    || HasMessage(s.retry, k)
    || exists h :: h in s.handlers && s.handlers[h].Key() == k && s.handlers[h].attached
  }

  lemma SafeIsAccountedFor(s: State, k: Key)
    requires Safe(s, k)
    ensures HasMessage(s.dlq, k) || Settled(s, k) || InFlight(s, k)
  {
    if HasStrong(s.handlers, k) {
      var h :| h in s.handlers && s.handlers[h].Key() == k && s.handlers[h].Strong();
      assert s.handlers[h].attached;
    }
    if HasWitness(s.handlers, k) {
      var h :| h in s.handlers && s.handlers[h].Key() == k && s.handlers[h].Witness();
      assert s.handlers[h].attached;
    }
  }

  /** Rows without a status are only ever the ones that were there at the start. */
  lemma {:induction false} LegacyIsOld(s: State, acts: seq<Action>, e: EventId)
    requires Valid(s, acts)
    requires e in s.inbox ==> !s.inbox[e].Legacy?
    ensures var t := Exec(s, acts); e in t.inbox ==> !t.inbox[e].Legacy?
    decreases |acts|
  {
    if acts != [] {
      LegacyIsOld(Apply(s, acts[0]), acts[1..], e);
    }
  }

  /** No event is lost: in every state the protocol can reach, each message ever put on the work
      queue is completed, dead-lettered, or has a copy on its way, as long as no handler of that
      message meets one of the faults. Other events may meet any of them. A body that does not
      parse can only be on its way or dead-lettered. */
  lemma NoEventLost(s: State, acts: seq<Action>, k: Key)
    requires Init(s) && Valid(s, acts) && AllBenign(s, acts, k)
    requires k in Exec(s, acts).seen
    requires k.EventKey? && k.id in s.inbox ==> !s.inbox[k.id].Legacy?
    ensures var t := Exec(s, acts);
      HasMessage(t.dlq, k) || InFlight(t, k) || RowIsCompleted(t, k)
  {
    InvAlways(s, acts, k);
    SafeIsAccountedFor(Exec(s, acts), k);
    if k.EventKey? {
      LegacyIsOld(s, acts, k.id);
    }
  }

  /** Why skipping a duplicate is right: the copy that is acknowledged is never the last one
      that matters. */
  lemma AckIsSafe(s: State, acts: seq<Action>, h: nat)
    requires Init(s) && Valid(s, acts) && Enabled(Exec(s, acts), Ack(h))
    requires AllBenign(s, acts, Exec(s, acts).handlers[h].Key())
    ensures var t := Exec(s, acts); var k := t.handlers[h].Key(); var u := Apply(t, Ack(h));
      HasMessage(u.dlq, k) || Settled(u, k) || InFlight(u, k)
  {
    var t := Exec(s, acts);
    var k := t.handlers[h].Key();
    InvAlways(s, acts, k);
    InvStep(t, Ack(h), k);
    SafeIsAccountedFor(Apply(t, Ack(h)), k);
  }

  /** `completed` is permanent over every run, faults included. */
  lemma {:induction false} CompletedForGood(s: State, acts: seq<Action>, e: EventId)
    requires Valid(s, acts) && RowIsCompleted(s, EventKey(e))
    ensures RowIsCompleted(Exec(s, acts), EventKey(e))
    decreases |acts|
  {
    if acts != [] {
      CompletedForGood(Apply(s, acts[0]), acts[1..], e);
    }
  }

  // ---- what a settlement stands for

  /** The step that led a handler to where it is about to settle. */
  predicate Caused(acts: seq<Action>, h: nat, pc: Pc) {
    match pc
    case ToAck(SkippedDuplicate) => UpdateClaim(h) in acts
    case ToAck(CopyPublished) => PublishRetry(h) in acts
    case ToReject => ReportFailure(h) in acts
    case _ => true
  }

  lemma CauseStep(s: State, a: Action, h: nat)
    requires Enabled(s, a) && h in Apply(s, a).handlers
    ensures var pc := Apply(s, a).handlers[h].pc;
      (h in s.handlers && s.handlers[h].pc == pc) || Caused([a], h, pc)
  {
  }

  lemma {:induction false} CauseInRun(s: State, acts: seq<Action>, h: nat)
    requires Valid(s, acts) && h in Exec(s, acts).handlers
    ensures var pc := Exec(s, acts).handlers[h].pc;
      (h in s.handlers && s.handlers[h].pc == pc) || Caused(acts, h, pc)
    decreases |acts|
  {
    if acts != [] {
      var t := Apply(s, acts[0]);
      CauseInRun(t, acts[1..], h);
      assert forall a :: a in acts[1..] ==> a in acts;
      assert acts[0] in acts;
      if h in t.handlers {
        CauseStep(s, acts[0], h);
      }
    }
  }

  lemma {:induction false} FinishedAlwaysCompleted(s: State, acts: seq<Action>)
    requires FinishedIsCompleted(s) && Valid(s, acts)
    ensures FinishedIsCompleted(Exec(s, acts))
    decreases |acts|
  {
    if acts != [] {
      var t := Apply(s, acts[0]);
      forall h | h in t.handlers && t.handlers[h].pc.Finished? ensures RowIsCompleted(t, t.handlers[h].Key()) {
        FinishedHandlerStep(s, acts[0], h);
      }
      FinishedAlwaysCompleted(t, acts[1..]);
    }
  }

  /** In every reachable state, faults included: a handler that can acknowledge has completed its
      event, or was refused the claim, or has put a retry copy on the queue; and one that can
      reject has reported the failure first. */
  lemma SettlementHasACause(s: State, acts: seq<Action>, h: nat)
    requires Init(s) && Valid(s, acts)
    ensures var t := Exec(s, acts); Enabled(t, Ack(h)) ==>
      || RowIsCompleted(t, t.handlers[h].Key())
      || (t.handlers[h].pc == ToAck(SkippedDuplicate) && UpdateClaim(h) in acts)
      || (t.handlers[h].pc == ToAck(CopyPublished) && PublishRetry(h) in acts)
    ensures Enabled(Exec(s, acts), Reject(h)) ==> ReportFailure(h) in acts
  {
    FinishedAlwaysCompleted(s, acts);
    if h in Exec(s, acts).handlers {
      CauseInRun(s, acts, h);
    }
  }

  // ---- what is retried

  /** A copy is published only for a transient failure with a count to spare; otherwise the handler
      gives up. */
  lemma RetriedOrGivenUp(s: State, h: nat)
    ensures Enabled(s, PublishRetry(h)) <==>
      At(s, h) && s.handlers[h].pc == Failed(Transient) && ReadRetryCount(s.handlers[h].msg) + 1 < s.maxRetries
    ensures Enabled(s, GiveUp(h)) <==>
      && At(s, h) && s.handlers[h].pc.Failed?
      && (s.handlers[h].pc != Failed(Transient) || ReadRetryCount(s.handlers[h].msg) + 1 >= s.maxRetries)
  {
  }

  /** Past an error that is not retryable, or gone. */
  predicate PastRetry(s: State, h: nat) {
    && h < s.nextHandler
    && (h in s.handlers ==>
          var pc := s.handlers[h].pc;
          pc == Failed(Permanent) || pc == Failed(Poison) || pc.GivingUp? || pc.ToReject?)
  }

  /** Over every run: a handler whose error is not retryable never publishes a copy of its message. */
  lemma {:induction false} NotRetryableIsNeverRetried(s: State, acts: seq<Action>, h: nat)
    requires PastRetry(s, h) && Valid(s, acts)
    ensures PublishRetry(h) !in acts
    decreases |acts|
  {
    if acts != [] {
      NotRetryableIsNeverRetried(Apply(s, acts[0]), acts[1..], h);
      assert acts == [acts[0]] + acts[1..];
    }
  }

  ghost predicate CanComplete(s: State, e: EventId) {
    exists acts :: BenignRunCompletes(s, acts, e)
  }

  ghost predicate BenignRunCompletes(s: State, acts: seq<Action>, e: EventId) {
    && Valid(s, acts) && AllBenign(s, acts, EventKey(e))
    && RowIsCompleted(Exec(s, acts), EventKey(e)) && Exec(s, acts).handlers == map[]
  }

  lemma CompletesAfter(s: State, a: Action, e: EventId)
    requires Enabled(s, a) && Benign(s, a) && CanComplete(Apply(s, a), e)
    ensures CanComplete(s, e)
  {
    var rest :| BenignRunCompletes(Apply(s, a), rest, e);
    var acts := [a] + rest;
    assert acts[1..] == rest;
    assert BenignRunCompletes(s, acts, e);
  }

  /** The assumptions do not rule out the good case: from every start, a new event can be
      delivered, claimed, completed and acknowledged. */
  lemma NewEventCanComplete(s: State, body: Body)
    requires Init(s) && body.Event? && body.eventId !in s.inbox
    ensures CanComplete(s, body.eventId)
  {
    var h, m := s.nextHandler, Message(s.nextTag, body, None, false);
    var s1 := Apply(s, Arrive(body, None));
    assert m in s1.work;
    var s2 := Apply(s1, Deliver(m));
    assert s2.handlers == map[h := Handler(m, true, Start)];
    var s3 := Apply(s2, InsertClaim(h));
    var s4 := Apply(s3, Complete(h));
    CompletedAndAcked(s4, h, body.eventId);
    CompletesAfter(s3, Complete(h), body.eventId);
    CompletesAfter(s2, InsertClaim(h), body.eventId);
    CompletesAfter(s1, Deliver(m), body.eventId);
    CompletesAfter(s, Arrive(body, None), body.eventId);
  }

  lemma CompletedAndAcked(s: State, h: nat, e: EventId)
    requires h in s.handlers && s.handlers.Keys == {h} && s.handlers[h].pc.Finished? && RowIsCompleted(s, EventKey(e))
    ensures CanComplete(s, e)
  {
    var s1 := Apply(s, Ack(h));
    assert s1.handlers == map[];
    assert BenignRunCompletes(s1, [], e);
    CompletesAfter(s, Ack(h), e);
  }
}
