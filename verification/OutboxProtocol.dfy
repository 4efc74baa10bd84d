/** Any number of drainers on one outbox, interleaved at every await, with crashes, stale leases
    that are taken over, and settling updates by holders that lost their lease. */
module OutboxProtocol {
  import opened Types
  import opened Outbox

  /** A claimed document, as the claim returned it. */
  datatype Doc = Doc(id: RowId, payload: Payload)

  /** `now` is read once, at the start of the claim. `docs` are the documents claimed and not
      yet settled; the first of them is the one in hand. */
  datatype Drainer =
    | Claiming(now: Time, left: int, docs: seq<Doc>)
    | Publishing(now: Time, docs: seq<Doc>)
    | Marking(now: Time, docs: seq<Doc>)
    | Releasing(now: Time, docs: seq<Doc>)

  /** `delivered` lists what the broker has received, oldest first. */
  datatype State = State(rows: Rows, drainers: map<nat, Drainer>, delivered: seq<Doc>, clock: Time)

  datatype Action =
    | Enqueue(r: RowId, payload: Payload)
    | StartDrain(d: nat, limit: int)
    | ClaimNext(d: nat, r: RowId)
    | EndClaim(d: nat)
    | PublishOk(d: nat)
    | PublishRaises(d: nat, reached: bool)
    | Mark(d: nat)
    | MarkRaises(d: nat)
    | Release(d: nat)
    | EndDrain(d: nat)
    | Crash(d: nat)
    | Tick(dt: nat)

  ghost predicate Enabled(s: State, a: Action) {
    match a
    case Enqueue(r, _) => r !in s.rows
    case StartDrain(d, _) => d !in s.drainers
    case ClaimNext(d, r) => d in s.drainers && s.drainers[d].Claiming? && s.drainers[d].left > 0
      && IsOldestClaimable(s.rows, r, s.drainers[d].now)
    case EndClaim(d) => d in s.drainers && s.drainers[d].Claiming?
      && (s.drainers[d].left <= 0 || Claimables(s.rows, s.drainers[d].now) == {})
    case PublishOk(d) => d in s.drainers && s.drainers[d].Publishing? && s.drainers[d].docs != []
    case PublishRaises(d, _) => d in s.drainers && s.drainers[d].Publishing? && s.drainers[d].docs != []
    case Mark(d) => d in s.drainers && s.drainers[d].Marking? && s.drainers[d].docs != []
    case MarkRaises(d) => d in s.drainers && s.drainers[d].Marking? && s.drainers[d].docs != []
    case Release(d) => d in s.drainers && s.drainers[d].Releasing? && s.drainers[d].docs != []
    case EndDrain(d) => d in s.drainers && s.drainers[d].Publishing? && s.drainers[d].docs == []
    case Crash(d) => d in s.drainers
    case Tick(_) => true
  }

  function To(s: State, d: nat, x: Drainer): State {
    s.(drainers := s.drainers[d := x])
  }

  /** A drain that crashes, or that raises while claiming or releasing, just disappears: what it
      had claimed stays leased. */
  ghost function Apply(s: State, a: Action): State
    requires Enabled(s, a)
  {
    match a
    case Enqueue(r, payload) => s.(rows := s.rows[r := Row(payload, s.clock, Pending)])
    case StartDrain(d, limit) => To(s, d, Claiming(s.clock, limit, []))
    case ClaimNext(d, r) =>
      var x := s.drainers[d];
      To(s.(rows := SetStatus(s.rows, r, Processing(x.now))), d,
         Claiming(x.now, x.left - 1, x.docs + [Doc(r, s.rows[r].payload)]))
    case EndClaim(d) => To(s, d, Publishing(s.drainers[d].now, s.drainers[d].docs))
    case PublishOk(d) =>
      var x := s.drainers[d];
      To(s.(delivered := s.delivered + [x.docs[0]]), d, Marking(x.now, x.docs))
    case PublishRaises(d, reached) =>
      var x := s.drainers[d];
      To(if reached then s.(delivered := s.delivered + [x.docs[0]]) else s, d, Releasing(x.now, x.docs))
    case Mark(d) =>
      var x := s.drainers[d];
      To(s.(rows := Marked(s.rows, x.docs[0].id, s.clock)), d, Publishing(x.now, x.docs[1..]))
    case MarkRaises(d) => To(s, d, Releasing(s.drainers[d].now, s.drainers[d].docs))
    case Release(d) =>
      var x := s.drainers[d];
      To(s.(rows := Released(s.rows, x.docs[0].id)), d, Publishing(x.now, x.docs[1..]))
    case EndDrain(d) => s.(drainers := s.drainers - {d})
    case Crash(d) => s.(drainers := s.drainers - {d})
    case Tick(dt) => s.(clock := s.clock + dt)
  }

  ghost predicate Init(s: State) {
    && s.drainers == map[] && s.delivered == []
    && forall r :: r in s.rows ==> !s.rows[r].status.Published? && !s.rows[r].status.Processing?
  }

  ghost predicate Valid(s: State, acts: seq<Action>)
    decreases |acts|
  {
    acts != [] ==> Enabled(s, acts[0]) && Valid(Apply(s, acts[0]), acts[1..])
  }

  ghost function Exec(s: State, acts: seq<Action>): State
    requires Valid(s, acts)
    decreases |acts|
  {
    if acts == [] then s else Exec(Apply(s, acts[0]), acts[1..])
  }

  // ---------------------------------------------------------------- at least once

  /** The later state keeps every row with its payload and creation time, keeps every published
      row exactly as it is, and keeps everything delivered. */
  predicate Grows(s: State, t: State) {
    && (forall r :: r in s.rows ==> r in t.rows && Keeps(s.rows[r], t.rows[r]))
    && s.delivered <= t.delivered
  }

  predicate Keeps(row: Row, later: Row) {
    && later.payload == row.payload && later.createdAt == row.createdAt
    && (row.status.Published? ==> later == row)
  }

  lemma GrowsStep(s: State, a: Action)
    requires Enabled(s, a)
    ensures Grows(s, Apply(s, a))
  {
  }

  /** Over every run: rows are never removed or rewritten, and `published` is absorbing. */
  lemma {:induction false} RowsAreForever(s: State, acts: seq<Action>)
    requires Valid(s, acts)
    ensures Grows(s, Exec(s, acts))
    decreases |acts|
  {
    if acts != [] {
      GrowsStep(s, acts[0]);
      RowsAreForever(Apply(s, acts[0]), acts[1..]);
    }
  }

  predicate Faithful(s: State, doc: Doc) {
    doc.id in s.rows && s.rows[doc.id].payload == doc.payload
  }

  /** Documents in hand and on the broker are the rows' own. */
  ghost predicate DocsFaithful(s: State) {
    && (forall d, i :: d in s.drainers && 0 <= i < |s.drainers[d].docs| ==> Faithful(s, s.drainers[d].docs[i]))
    && (forall i :: 0 <= i < |s.delivered| ==> Faithful(s, s.delivered[i]))
  }

  /** What is about to be marked has been delivered, and so has what is published. */
  ghost predicate MarkedAfterDelivery(s: State) {
    && (forall d :: d in s.drainers && s.drainers[d].Marking? ==>
          s.drainers[d].docs != [] && s.drainers[d].docs[0] in s.delivered)
    && (forall r :: r in s.rows && s.rows[r].status.Published? ==> Doc(r, s.rows[r].payload) in s.delivered)
  }

  ghost predicate DeliveryInv(s: State) {
    DocsFaithful(s) && MarkedAfterDelivery(s)
  }

  lemma DocsFaithfulStep(s: State, a: Action)
    requires DocsFaithful(s) && Enabled(s, a)
    ensures DocsFaithful(Apply(s, a))
  {
    var t := Apply(s, a);
    GrowsStep(s, a);
    assert forall doc :: Faithful(s, doc) ==> Faithful(t, doc);
    forall d, i | d in t.drainers && 0 <= i < |t.drainers[d].docs| ensures Faithful(t, t.drainers[d].docs[i]) {
      var doc := t.drainers[d].docs[i];
      if d in s.drainers && (a.Mark? || a.Release?) && a.d == d {
        assert doc == s.drainers[d].docs[i + 1];
      } else if d in s.drainers && i < |s.drainers[d].docs| {
        assert doc == s.drainers[d].docs[i];
      }
    }
  }

  lemma MarkedAfterDeliveryStep(s: State, a: Action)
    requires DocsFaithful(s) && MarkedAfterDelivery(s) && Enabled(s, a)
    ensures MarkedAfterDelivery(Apply(s, a))
  {
    var t := Apply(s, a);
    assert forall doc :: doc in s.delivered ==> doc in t.delivered;
    if a.Mark? {
      assert Faithful(s, s.drainers[a.d].docs[0]);
    }
  }

  /** At least once: whatever crashes, stale takeovers and late settling updates happen, a row
      marked published has had its own payload delivered, and the broker only ever receives
      payloads of rows. */
  lemma {:induction false} PublishedWasDelivered(s: State, acts: seq<Action>)
    requires Valid(s, acts) && (Init(s) || DeliveryInv(s))
    ensures var t := Exec(s, acts); DeliveryInv(t)
    ensures var t := Exec(s, acts);
      forall r :: r in t.rows && t.rows[r].status.Published? ==> Doc(r, t.rows[r].payload) in t.delivered
    decreases |acts|
  {
    if acts != [] {
      DocsFaithfulStep(s, acts[0]);
      MarkedAfterDeliveryStep(s, acts[0]);
      PublishedWasDelivered(Apply(s, acts[0]), acts[1..]);
    }
  }

  // ---------------------------------------------------------------- at most once, with timely leases

  /** What is asked of a run: no drain outlives the lease it took, a publish that raises did not
      reach the broker, and nothing goes wrong between a publish and its mark. */
  ghost predicate Timely(s: State, a: Action)
    requires Enabled(s, a)
  {
    match a
    case Tick(dt) => forall d :: d in s.drainers ==> s.clock + dt <= s.drainers[d].now + CLAIM_STALE_AFTER
    case Crash(d) => !s.drainers[d].Marking?
    case MarkRaises(_) => false
    case PublishRaises(_, reached) => !reached
    case _ => true
  }

  ghost predicate AllTimely(s: State, acts: seq<Action>)
    requires Valid(s, acts)
    decreases |acts|
  {
    acts != [] ==> Timely(s, acts[0]) && AllTimely(Apply(s, acts[0]), acts[1..])
  }

  function Deliveries(log: seq<Doc>, r: RowId): nat {
    if log == [] then 0
    else Deliveries(log[..|log| - 1], r) + if log[|log| - 1].id == r then 1 else 0
  }

  lemma DeliveriesAppend(log: seq<Doc>, doc: Doc, r: RowId)
    ensures Deliveries(log + [doc], r) == Deliveries(log, r) + if doc.id == r then 1 else 0
  {
    assert (log + [doc])[..|log|] == log;
  }

  /** A drainer's documents are distinct rows, each leased to it and to nobody since. */
  ghost predicate Leases(s: State, x: Drainer) {
    && x.now <= s.clock <= x.now + CLAIM_STALE_AFTER
    && (x.Marking? ==> x.docs != [])
    && (forall i :: 0 <= i < |x.docs| ==>
          x.docs[i].id in s.rows && s.rows[x.docs[i].id].status == Processing(x.now))
    && (forall i, j :: 0 <= i < j < |x.docs| ==> x.docs[i].id != x.docs[j].id)
  }

  ghost predicate DisjointDocs(x: Drainer, y: Drainer) {
    forall i, j :: 0 <= i < |x.docs| && 0 <= j < |y.docs| ==> x.docs[i].id != y.docs[j].id
  }

  ghost predicate Exclusive(s: State) {
    forall d, e :: d in s.drainers && e in s.drainers && d != e ==> DisjointDocs(s.drainers[d], s.drainers[e])
  }

  /** Delivered at most once, and only if it is published or in hand to be marked. */
  ghost predicate SentOnce(s: State, r: RowId) {
    Deliveries(s.delivered, r) == 0
    || (Deliveries(s.delivered, r) == 1 && r in s.rows
        && (s.rows[r].status.Published?
            || exists d :: d in s.drainers && s.drainers[d].Marking? && s.drainers[d].docs != []
                           && s.drainers[d].docs[0].id == r))
  }

  ghost predicate TimelyInv(s: State) {
    && (forall d :: d in s.drainers ==> Leases(s, s.drainers[d]))
    && Exclusive(s)
    && (forall r :: SentOnce(s, r))
  }

  /** A row that can be claimed is in nobody's hands. */
  lemma ClaimableIsFree(s: State, d: nat, r: RowId, e: nat)
    requires TimelyInv(s) && Enabled(s, ClaimNext(d, r)) && e in s.drainers
    ensures forall i :: 0 <= i < |s.drainers[e].docs| ==> s.drainers[e].docs[i].id != r
  {
  }

  lemma LeasesStep(s: State, a: Action, e: nat)
    requires TimelyInv(s) && Enabled(s, a) && Timely(s, a) && e in Apply(s, a).drainers
    ensures Leases(Apply(s, a), Apply(s, a).drainers[e])
  {
    if a.ClaimNext? && e in s.drainers {
      ClaimableIsFree(s, a.d, a.r, e);
    }
    if (a.Mark? || a.Release?) && e in s.drainers && e != a.d {
      assert DisjointDocs(s.drainers[a.d], s.drainers[e]);
    }
  }

  lemma DisjointStep(s: State, a: Action, d: nat, e: nat)
    requires TimelyInv(s) && Enabled(s, a) && Timely(s, a)
    requires d in Apply(s, a).drainers && e in Apply(s, a).drainers && d != e
    ensures DisjointDocs(Apply(s, a).drainers[d], Apply(s, a).drainers[e])
  {
    if d in s.drainers && e in s.drainers {
      assert DisjointDocs(s.drainers[d], s.drainers[e]);
      if a.ClaimNext? {
        ClaimableIsFree(s, a.d, a.r, d);
        ClaimableIsFree(s, a.d, a.r, e);
      }
    }
  }

  /** The row of the document just published was not delivered before. */
  lemma SentOncePublish(s: State, d: nat, r: RowId)
    requires TimelyInv(s) && Enabled(s, PublishOk(d))
    ensures SentOnce(Apply(s, PublishOk(d)), r)
  {
    var t, x := Apply(s, PublishOk(d)), s.drainers[d];
    assert SentOnce(s, r);
    DeliveriesAppend(s.delivered, x.docs[0], r);
    if x.docs[0].id == r {
      forall e | e in s.drainers && s.drainers[e].Marking? && s.drainers[e].docs != []
        ensures s.drainers[e].docs[0].id != r
      {
        assert DisjointDocs(x, s.drainers[e]);
      }
      assert t.drainers[d].Marking? && t.drainers[d].docs[0].id == r;
    } else {
      assert forall e :: e in s.drainers && s.drainers[e].Marking? ==>
        e in t.drainers && t.drainers[e] == s.drainers[e];
    }
  }

  /** Whoever is about to mark a row still is after a step, unless that step is the mark. */
  lemma StillMarking(s: State, a: Action, d: nat, r: RowId)
    requires TimelyInv(s) && Enabled(s, a) && Timely(s, a)
    requires d in s.drainers && s.drainers[d].Marking? && s.drainers[d].docs != [] && s.drainers[d].docs[0].id == r
    ensures var t := Apply(s, a);
      (r in t.rows && t.rows[r].status.Published?) || (d in t.drainers && t.drainers[d] == s.drainers[d])
  {
    if a != Mark(d) {
      assert Apply(s, a).drainers[d] == s.drainers[d];
    }
  }

  lemma SentOnceStep(s: State, a: Action, r: RowId)
    requires TimelyInv(s) && Enabled(s, a) && Timely(s, a)
    ensures SentOnce(Apply(s, a), r)
  {
    assert SentOnce(s, r);
    if a.PublishOk? {
      SentOncePublish(s, a.d, r);
    } else if Deliveries(s.delivered, r) == 1 {
      GrowsStep(s, a);
      if !s.rows[r].status.Published? {
        var d :| d in s.drainers && s.drainers[d].Marking? && s.drainers[d].docs != [] && s.drainers[d].docs[0].id == r;
        StillMarking(s, a, d, r);
      }
    }
  }

  lemma TimelyStep(s: State, a: Action)
    requires TimelyInv(s) && Enabled(s, a) && Timely(s, a)
    ensures TimelyInv(Apply(s, a))
  {
    var t := Apply(s, a);
    forall e | e in t.drainers ensures Leases(t, t.drainers[e]) {
      LeasesStep(s, a, e);
    }
    forall d, e | d in t.drainers && e in t.drainers && d != e ensures DisjointDocs(t.drainers[d], t.drainers[e]) {
      DisjointStep(s, a, d, e);
    }
    forall r ensures SentOnce(t, r) {
      SentOnceStep(s, a, r);
    }
  }

  /** Timely leases give exclusivity: over every timely interleaving, no row is in the hands of
      two drainers at once, and no row is delivered more than once. */
  lemma {:induction false} TimelyMeansOnce(s: State, acts: seq<Action>, r: RowId)
    requires Valid(s, acts) && AllTimely(s, acts)
    requires Init(s) || TimelyInv(s)
    ensures var t := Exec(s, acts); Exclusive(t) && Deliveries(t.delivered, r) <= 1
    decreases |acts|
  {
    if acts != [] {
      TimelyStep(s, acts[0]);
      TimelyMeansOnce(Apply(s, acts[0]), acts[1..], r);
    } else {
      assert SentOnce(s, r);
    }
  }

  lemma {:induction false} InLogMeansCounted(log: seq<Doc>, doc: Doc)
    requires doc in log
    ensures Deliveries(log, doc.id) >= 1
    decreases |log|
  {
    var n := |log| - 1;
    if log[n] != doc {
      assert log == log[..n] + [log[n]];
      InLogMeansCounted(log[..n], doc);
    }
  }

  /** Over every timely interleaving a published row was delivered exactly once. */
  lemma PublishedExactlyOnce(s: State, acts: seq<Action>, r: RowId)
    requires Init(s) && Valid(s, acts) && AllTimely(s, acts)
    requires r in Exec(s, acts).rows && Exec(s, acts).rows[r].status.Published?
    ensures Deliveries(Exec(s, acts).delivered, r) == 1
  {
    var t := Exec(s, acts);
    TimelyMeansOnce(s, acts, r);
    PublishedWasDelivered(s, acts);
    InLogMeansCounted(t.delivered, Doc(r, t.rows[r].payload));
  }
}
