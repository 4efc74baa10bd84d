/** Each thing asked of a timely run is needed: with steps of the one kind it excludes, and every
    other step timely, any waiting row of any outbox can be delivered twice. */
module OutboxRepeats {
  import opened Types
  import opened Outbox
  import opened OutboxProtocol

  /** A holder dies between publish and mark, a mark raises, a publish reaches the broker and
      raises all the same, or time passes the lease of a drain that goes on. */
  datatype Fault = CrashBeforeMark | MarkRaising | ConfirmLost | LeaseOutlived | Anything

  ghost predicate Shows(s: State, a: Action, fault: Fault)
    requires Enabled(s, a)
  {
    fault.Anything? || match a
    case Crash(d) => fault.CrashBeforeMark? && s.drainers[d].Marking?
    case MarkRaises(_) => fault.MarkRaising?
    case PublishRaises(_, reached) => fault.ConfirmLost? && reached
    case Tick(_) => fault.LeaseOutlived?
    case _ => false
  }

  ghost predicate TimelyBut(s: State, acts: seq<Action>, fault: Fault)
    requires Valid(s, acts)
    decreases |acts|
  {
    acts != [] ==>
      (Timely(s, acts[0]) || Shows(s, acts[0], fault)) && TimelyBut(Apply(s, acts[0]), acts[1..], fault)
  }

  ghost predicate Repeats(s: State, acts: seq<Action>, fault: Fault, r: RowId, n: nat) {
    Valid(s, acts) && TimelyBut(s, acts, fault) && Deliveries(Exec(s, acts).delivered, r) >= n
  }

  ghost predicate CanRepeat(s: State, fault: Fault, r: RowId, n: nat) {
    exists acts :: Repeats(s, acts, fault, r, n)
  }

  lemma After(s: State, a: Action, fault: Fault, r: RowId, n: nat)
    requires Enabled(s, a) && (Timely(s, a) || Shows(s, a, fault))
    requires CanRepeat(Apply(s, a), fault, r, n)
    ensures CanRepeat(s, fault, r, n)
  {
    var rest :| Repeats(Apply(s, a), rest, fault, r, n);
    var acts := [a] + rest;
    assert acts[1..] == rest;
    assert Repeats(s, acts, fault, r, n);
  }

  lemma FewerIsEasier(s: State, fault: Fault, r: RowId, n: nat, m: nat)
    requires CanRepeat(s, fault, r, n) && m <= n
    ensures CanRepeat(s, fault, r, m)
  {
    var acts :| Repeats(s, acts, fault, r, n);
    assert Repeats(s, acts, fault, r, m);
  }

  lemma FreshDrainer(s: State) returns (d: nat)
    ensures d !in s.drainers
  {
    d := Bound(s.drainers.Keys);
    assert d !in s.drainers.Keys;
  }

  /** Everything but the leases of other rows and drainer `e` is as it was, and `r` is next. */
  ghost predicate Parked(s: State, t: State, e: nat, r: RowId) {
    && t.clock == s.clock && t.delivered == s.delivered
    && r in s.rows && r in t.rows && t.rows[r] == s.rows[r] && IsOldestClaimable(t.rows, r, t.clock)
    && e in t.drainers && !t.drainers[e].Marking? && t.drainers - {e} == s.drainers - {e}
  }

  /** A drainer claims the rows in front of `r`. */
  lemma {:induction false} ParkOlder(s: State, e: nat, fault: Fault, r: RowId, n: nat)
    requires r in s.rows && Claimable(s.rows[r], s.clock)
    requires e in s.drainers && s.drainers[e].Claiming? && s.drainers[e].now == s.clock
    requires s.drainers[e].left >= |Claimables(s.rows, s.clock)|
    requires forall t :: Parked(s, t, e, r) ==> CanRepeat(t, fault, r, n)
    ensures CanRepeat(s, fault, r, n)
    decreases |Claimables(s.rows, s.clock)|
  {
    var open := Claimables(s.rows, s.clock);
    assert r in open;
    var q := OldestExists(s.rows, open);
    if s.rows[q].createdAt == s.rows[r].createdAt {
      assert Parked(s, s, e, r);
    } else {
      assert |open| > 0;
      var a := ClaimNext(e, q);
      var u := Apply(s, a);
      assert Claimables(u.rows, u.clock) == open - {q};
      assert u.drainers - {e} == s.drainers - {e};
      forall t | Parked(u, t, e, r) ensures CanRepeat(t, fault, r, n) {
        assert Parked(s, t, e, r);
      }
      ParkOlder(u, e, fault, r, n);
      After(s, a, fault, r, n);
    }
  }

  /** A drain has `r`, and only `r`, in hand and is about to publish it. */
  ghost predicate Ready(s: State, t: State, d: nat, r: RowId) {
    && r in s.rows && r in t.rows && t.clock == s.clock && t.delivered == s.delivered
    && t.rows[r] == s.rows[r].(status := Processing(t.clock))
    && d !in s.drainers && t.drainers == s.drainers[d := Publishing(t.clock, [Doc(r, t.rows[r].payload)])]
  }

  /** With `r` next, a drain of one row takes it, and the drain `e` in front of it dies. */
  lemma TakeNext(s: State, e: nat, d: nat, fault: Fault, r: RowId, n: nat)
    requires IsOldestClaimable(s.rows, r, s.clock) && e in s.drainers && !s.drainers[e].Marking? && d !in s.drainers
    requires forall t :: Ready(s.(drainers := s.drainers - {e}), t, d, r) ==> CanRepeat(t, fault, r, n)
    ensures CanRepeat(s, fault, r, n)
  {
    var s1 := Apply(s, Crash(e));
    var doc := Doc(r, s.rows[r].payload);
    var s2 := Apply(s1, StartDrain(d, 1));
    assert s2.drainers == s1.drainers[d := Claiming(s.clock, 1, [])];
    var s3 := Apply(s2, ClaimNext(d, r));
    assert [] + [doc] == [doc];
    assert s3.drainers == s1.drainers[d := Claiming(s.clock, 0, [doc])];
    var s4 := Apply(s3, EndClaim(d));
    assert Ready(s1, s4, d, r);
    After(s3, EndClaim(d), fault, r, n);
    After(s2, ClaimNext(d, r), fault, r, n);
    After(s1, StartDrain(d, 1), fault, r, n);
    After(s, Crash(e), fault, r, n);
  }

  /** Any claimable row can get into the hands of a drain of its own. */
  lemma GetReady(s: State, fault: Fault, r: RowId, n: nat)
    requires r in s.rows && Claimable(s.rows[r], s.clock)
    requires forall t, d :: Ready(s, t, d, r) ==> CanRepeat(t, fault, r, n)
    ensures CanRepeat(s, fault, r, n)
  {
    var e := FreshDrainer(s);
    var a := StartDrain(e, |Claimables(s.rows, s.clock)|);
    var u := Apply(s, a);
    forall t | Parked(u, t, e, r) ensures CanRepeat(t, fault, r, n) {
      var d := FreshDrainer(t);
      var v := t.(drainers := t.drainers - {e});
      assert v.drainers == s.drainers by {
        assert u.drainers - {e} == s.drainers;
      }
      forall w | Ready(v, w, d, r) ensures CanRepeat(w, fault, r, n) {
        assert Ready(s, w, d, r);
      }
      TakeNext(t, e, d, fault, r, n);
    }
    ParkOlder(u, e, fault, r, n);
    After(s, a, fault, r, n);
  }

  lemma PublishOnce(t: State, d: nat, fault: Fault, r: RowId)
    requires d in t.drainers && t.drainers[d].Publishing? && t.drainers[d].docs != [] && t.drainers[d].docs[0].id == r
    ensures CanRepeat(t, fault, r, Deliveries(t.delivered, r) + 1)
  {
    var n, u := Deliveries(t.delivered, r) + 1, Apply(t, PublishOk(d));
    DeliveriesAppend(t.delivered, t.drainers[d].docs[0], r);
    assert Repeats(u, [], fault, r, n);
    After(t, PublishOk(d), fault, r, n);
  }

  /** A row that can be claimed can be delivered once more, whatever is in front of it. */
  lemma DeliverOnceMore(s: State, fault: Fault, r: RowId)
    requires r in s.rows && Claimable(s.rows[r], s.clock)
    ensures CanRepeat(s, fault, r, Deliveries(s.delivered, r) + 1)
  {
    var n := Deliveries(s.delivered, r) + 1;
    forall t, d | Ready(s, t, d, r) ensures CanRepeat(t, fault, r, n) {
      PublishOnce(t, d, fault, r);
    }
    GetReady(s, fault, r, n);
  }

  /** The drain publishes `r` and then, by the fault, fails to mark it. */
  lemma RepeatsAfterCrash(t: State, d: nat, r: RowId)
    requires d in t.drainers && r in t.rows && t.rows[r].status == Processing(t.clock)
    requires t.drainers == map[d := Publishing(t.clock, [Doc(r, t.rows[r].payload)])]
    ensures CanRepeat(t, CrashBeforeMark, r, 2)
  {
    var fault := CrashBeforeMark;
    var t1 := Apply(t, PublishOk(d));
    DeliveriesAppend(t.delivered, t.drainers[d].docs[0], r);
    var t2 := Apply(t1, Crash(d));
    assert t2.drainers == map[];
    var t3 := Apply(t2, Tick(CLAIM_STALE_AFTER + 1));
    DeliverOnceMore(t3, fault, r);
    FewerIsEasier(t3, fault, r, Deliveries(t3.delivered, r) + 1, 2);
    After(t2, Tick(CLAIM_STALE_AFTER + 1), fault, r, 2);
    After(t1, Crash(d), fault, r, 2);
    After(t, PublishOk(d), fault, r, 2);
  }

  lemma RepeatsAfterMarkRaises(t: State, d: nat, r: RowId)
    requires d in t.drainers && r in t.rows && t.rows[r].status == Processing(t.clock)
    requires t.drainers == map[d := Publishing(t.clock, [Doc(r, t.rows[r].payload)])]
    ensures CanRepeat(t, MarkRaising, r, 2)
  {
    var fault := MarkRaising;
    var t1 := Apply(t, PublishOk(d));
    DeliveriesAppend(t.delivered, t.drainers[d].docs[0], r);
    var t2 := Apply(t1, MarkRaises(d));
    var t3 := Apply(t2, Release(d));
    DeliverOnceMore(t3, fault, r);
    FewerIsEasier(t3, fault, r, Deliveries(t3.delivered, r) + 1, 2);
    After(t2, Release(d), fault, r, 2);
    After(t1, MarkRaises(d), fault, r, 2);
    After(t, PublishOk(d), fault, r, 2);
  }

  lemma RepeatsAfterLostConfirm(t: State, d: nat, r: RowId)
    requires d in t.drainers && r in t.rows && t.rows[r].status == Processing(t.clock)
    requires t.drainers == map[d := Publishing(t.clock, [Doc(r, t.rows[r].payload)])]
    ensures CanRepeat(t, ConfirmLost, r, 2)
  {
    var fault := ConfirmLost;
    var t1 := Apply(t, PublishRaises(d, true));
    DeliveriesAppend(t.delivered, t.drainers[d].docs[0], r);
    var t2 := Apply(t1, Release(d));
    DeliverOnceMore(t2, fault, r);
    FewerIsEasier(t2, fault, r, Deliveries(t2.delivered, r) + 1, 2);
    After(t1, Release(d), fault, r, 2);
    After(t, PublishRaises(d, true), fault, r, 2);
  }

  lemma RepeatsAfterLateTick(t: State, d: nat, r: RowId)
    requires d in t.drainers && r in t.rows && t.rows[r].status == Processing(t.clock)
    requires t.drainers == map[d := Publishing(t.clock, [Doc(r, t.rows[r].payload)])]
    ensures CanRepeat(t, LeaseOutlived, r, 2)
  {
    var fault := LeaseOutlived;
    var t1 := Apply(t, PublishOk(d));
    DeliveriesAppend(t.delivered, t.drainers[d].docs[0], r);
    var t2 := Apply(t1, Tick(CLAIM_STALE_AFTER + 1));
    DeliverOnceMore(t2, fault, r);
    FewerIsEasier(t2, fault, r, Deliveries(t2.delivered, r) + 1, 2);
    After(t1, Tick(CLAIM_STALE_AFTER + 1), fault, r, 2);
    After(t, PublishOk(d), fault, r, 2);
  }

  /** Any row waiting in any outbox can be delivered twice by each kind of fault. */
  lemma EachFaultRepeats(s: State, fault: Fault, r: RowId)
    requires Init(s) && r in s.rows && Claimable(s.rows[r], s.clock) && fault != Anything
    ensures CanRepeat(s, fault, r, 2)
  {
    forall t, d | Ready(s, t, d, r) ensures CanRepeat(t, fault, r, 2) {
      match fault
      case CrashBeforeMark => RepeatsAfterCrash(t, d, r);
      case MarkRaising => RepeatsAfterMarkRaises(t, d, r);
      case ConfirmLost => RepeatsAfterLostConfirm(t, d, r);
      case LeaseOutlived => RepeatsAfterLateTick(t, d, r);
    }
    GetReady(s, fault, r, 2);
  }

  // ---------------------------------------------------------------- what can still be delivered

  /** What a drain will publish if nothing fails: the row being marked or released is behind it. */
  ghost function ToPublish(x: Drainer): (docs: seq<Doc>) {
    if (x.Marking? || x.Releasing?) && x.docs != [] then x.docs[1..] else x.docs
  }

  ghost predicate Holds(x: Drainer, r: RowId) {
    exists i :: 0 <= i < |ToPublish(x)| && ToPublish(x)[i].id == r
  }

  ghost predicate HeldBySome(s: State, r: RowId) {
    exists d :: d in s.drainers && Holds(s.drainers[d], r)
  }

  predicate IsPublished(row: Row) {
    row.status.Published? || row.status.LegacyPublished?
  }

  /** Some run, whatever goes wrong in it, delivers the row once more. */
  ghost predicate CanBeSentAgain(s: State, r: RowId) {
    exists acts :: Valid(s, acts) && Deliveries(Exec(s, acts).delivered, r) > Deliveries(s.delivered, r)
  }

  ghost predicate Settled(s: State, r: RowId) {
    r in s.rows && IsPublished(s.rows[r]) && !HeldBySome(s, r)
  }

  lemma NotHeldStep(s: State, a: Action, r: RowId, d: nat)
    requires Settled(s, r) && Enabled(s, a) && d in Apply(s, a).drainers
    ensures !Holds(Apply(s, a).drainers[d], r)
  {
    var y := Apply(s, a).drainers[d];
    forall i | 0 <= i < |ToPublish(y)| ensures ToPublish(y)[i].id != r {
      if d in s.drainers {
        var x := s.drainers[d];
        assert !Holds(x, r);
        assert forall j :: 0 <= j < |ToPublish(x)| ==> ToPublish(x)[j].id != r;
        if a.PublishOk? || a.PublishRaises? {
          assert y == x || ToPublish(y)[i] == ToPublish(x)[i + 1];
        } else if a.ClaimNext? {
          assert y == x || i == |x.docs| || ToPublish(y)[i] == ToPublish(x)[i];
        } else {
          assert ToPublish(y)[i] == ToPublish(x)[i];
        }
      }
    }
  }

  lemma SettledStep(s: State, a: Action, r: RowId)
    requires Settled(s, r) && Enabled(s, a)
    ensures Settled(Apply(s, a), r)
    ensures Deliveries(Apply(s, a).delivered, r) == Deliveries(s.delivered, r)
  {
    var t := Apply(s, a);
    forall d | d in t.drainers ensures !Holds(t.drainers[d], r) {
      NotHeldStep(s, a, r, d);
    }
    if a.PublishOk? || a.PublishRaises? {
      var x := s.drainers[a.d];
      assert !Holds(x, r);
      assert ToPublish(x)[0].id != r;
      DeliveriesAppend(s.delivered, x.docs[0], r);
    }
  }

  /** A published row in nobody's hands is never delivered again. */
  lemma {:induction false} SettledIsFinal(s: State, acts: seq<Action>, r: RowId)
    requires Settled(s, r) && Valid(s, acts)
    ensures Deliveries(Exec(s, acts).delivered, r) == Deliveries(s.delivered, r)
    decreases |acts|
  {
    if acts != [] {
      SettledStep(s, acts[0], r);
      SettledIsFinal(Apply(s, acts[0]), acts[1..], r);
    }
  }

  /** A drain that will publish the row can give up the documents in front of it. */
  lemma {:induction false} PublishLater(s: State, d: nat, i: nat, r: RowId)
    requires d in s.drainers && s.drainers[d].Publishing?
    requires i < |s.drainers[d].docs| && s.drainers[d].docs[i].id == r
    ensures CanRepeat(s, Anything, r, Deliveries(s.delivered, r) + 1)
    decreases i
  {
    if i == 0 {
      PublishOnce(s, d, Anything, r);
    } else {
      var n := Deliveries(s.delivered, r) + 1;
      var t := Apply(s, PublishRaises(d, false));
      var u := Apply(t, Release(d));
      assert u.drainers[d].docs[i - 1] == s.drainers[d].docs[i];
      PublishLater(u, d, i - 1, r);
      After(t, Release(d), Anything, r, n);
      After(s, PublishRaises(d, false), Anything, r, n);
    }
  }

  lemma {:induction false} ClaimThenPublish(s: State, d: nat, i: nat, r: RowId)
    requires d in s.drainers && s.drainers[d].Claiming?
    requires i < |s.drainers[d].docs| && s.drainers[d].docs[i].id == r
    ensures CanRepeat(s, Anything, r, Deliveries(s.delivered, r) + 1)
    decreases s.drainers[d].left
  {
    var n, x := Deliveries(s.delivered, r) + 1, s.drainers[d];
    var open := Claimables(s.rows, x.now);
    if x.left <= 0 || open == {} {
      PublishLater(Apply(s, EndClaim(d)), d, i, r);
      After(s, EndClaim(d), Anything, r, n);
    } else {
      var q := OldestExists(s.rows, open);
      var t := Apply(s, ClaimNext(d, q));
      assert t.drainers[d].docs[i] == x.docs[i];
      ClaimThenPublish(t, d, i, r);
      After(s, ClaimNext(d, q), Anything, r, n);
    }
  }

  lemma HeldCanBeSent(s: State, d: nat, r: RowId)
    requires d in s.drainers && Holds(s.drainers[d], r)
    ensures CanRepeat(s, Anything, r, Deliveries(s.delivered, r) + 1)
  {
    var n, x := Deliveries(s.delivered, r) + 1, s.drainers[d];
    var i :| 0 <= i < |ToPublish(x)| && ToPublish(x)[i].id == r;
    match x
    case Claiming(_, _, _) => ClaimThenPublish(s, d, i, r);
    case Publishing(_, _) => PublishLater(s, d, i, r);
    case Marking(_, _) =>
      PublishLater(Apply(s, Mark(d)), d, i, r);
      After(s, Mark(d), Anything, r, n);
    case Releasing(_, _) =>
      PublishLater(Apply(s, Release(d)), d, i, r);
      After(s, Release(d), Anything, r, n);
  }

  lemma UnpublishedCanBeSent(s: State, r: RowId)
    requires r in s.rows && !IsPublished(s.rows[r])
    ensures CanRepeat(s, Anything, r, Deliveries(s.delivered, r) + 1)
  {
    var n := Deliveries(s.delivered, r) + 1;
    if Claimable(s.rows[r], s.clock) {
      DeliverOnceMore(s, Anything, r);
    } else {
      var dt := s.rows[r].status.claimedAt + CLAIM_STALE_AFTER + 1 - s.clock;
      DeliverOnceMore(Apply(s, Tick(dt)), Anything, r);
      After(s, Tick(dt), Anything, r, n);
    }
  }

  /** In every state, whatever was delivered before: a row can be delivered once more exactly when
      it is not marked published or some drain still has it to publish. */
  lemma SentAgainIff(s: State, r: RowId)
    requires r in s.rows
    ensures CanBeSentAgain(s, r) <==> !IsPublished(s.rows[r]) || HeldBySome(s, r)
  {
    if !IsPublished(s.rows[r]) || HeldBySome(s, r) {
      if d :| d in s.drainers && Holds(s.drainers[d], r) {
        HeldCanBeSent(s, d, r);
      } else {
        UnpublishedCanBeSent(s, r);
      }
      var acts :| Repeats(s, acts, Anything, r, Deliveries(s.delivered, r) + 1);
    } else {
      forall acts | Valid(s, acts) ensures Deliveries(Exec(s, acts).delivered, r) == Deliveries(s.delivered, r) {
        SettledIsFinal(s, acts, r);
      }
    }
  }
}
