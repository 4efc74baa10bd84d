/** The drain as the code runs it, with nothing in between, is a run of the machine of interleaved
    drainers, and leaves exactly what the sequential form leaves. */
module InlineDrain {
  import opened Types
  import opened Batches
  import opened Outbox
  import opened OutboxDrain
  import O = OutboxProtocol

  predicate IsDrainStep(a: O.Action) { !a.Enqueue? && !a.Tick? }

  predicate AllDrainSteps(acts: seq<O.Action>) { forall i :: 0 <= i < |acts| ==> IsDrainStep(acts[i]) }

  /** `acts` is a run of steps of drainers from `s` to `t`. */
  ghost predicate Leads(s: O.State, acts: seq<O.Action>, t: O.State) {
    O.Valid(s, acts) && O.Exec(s, acts) == t && AllDrainSteps(acts)
  }

  lemma First(s: O.State, a: O.Action, acts: seq<O.Action>, t: O.State)
    requires O.Enabled(s, a) && IsDrainStep(a) && Leads(O.Apply(s, a), acts, t)
    ensures Leads(s, [a] + acts, t)
  {
    assert ([a] + acts)[1..] == acts;
  }

  lemma {:induction false} Then(s: O.State, a: seq<O.Action>, t: O.State, b: seq<O.Action>, u: O.State)
    requires Leads(s, a, t) && Leads(t, b, u)
    ensures Leads(s, a + b, u)
    decreases |a|
  {
    if a == [] {
      assert a + b == b;
    } else {
      assert forall i :: 0 <= i < |a[1..]| ==> a[1..][i] == a[i + 1];
      Then(O.Apply(s, a[0]), a[1..], t, b, u);
      First(s, a[0], a[1..] + b, u);
      assert [a[0]] + (a[1..] + b) == a + b;
    }
  }

  lemma {:induction false} ReachingAreIds(ids: seq<RowId>, fates: Fates)
    ensures forall r :: r in Reaching(ids, fates) ==> r in ids
    decreases |ids|
  {
    if ids != [] {
      ReachingAreIds(ids[1..], fates);
    }
  }

  function SentOf(ids: seq<RowId>, fates: Fates): (sent: seq<RowId>)
    ensures sent == Reaching(ids, fates) && forall r :: r in sent ==> r in ids
  {
    ReachingAreIds(ids, fates);
    Reaching(ids, fates)
  }

  function DocsOf(rows: Rows, ids: seq<RowId>): seq<O.Doc>
    requires forall r :: r in ids ==> r in rows
  {
    seq(|ids|, i requires 0 <= i < |ids| => O.Doc(ids[i], rows[ids[i]].payload))
  }

  // ---- one row

  function ReleaseActs(d: nat, release: Call): seq<O.Action> {
    match release
    case Returns => [O.Release(d)]
    case Raises(applied) => if applied then [O.Release(d), O.Crash(d)] else [O.Crash(d)]
  }

  /** A mark that is applied and raises is followed by a release that finds nothing to do. */
  function MarkActs(d: nat, fate: Fate): seq<O.Action> {
    match fate.mark
    case Returns => [O.Mark(d)]
    case Raises(applied) =>
      if !applied then [O.MarkRaises(d)] + ReleaseActs(d, fate.release)
      else if fate.release.Raises? then [O.Mark(d), O.Crash(d)]
      else [O.Mark(d)]
  }

  function RowActs(d: nat, fate: Fate): seq<O.Action> {
    if fate.publish.Confirmed? then [O.PublishOk(d)] + MarkActs(d, fate)
    else [O.PublishRaises(d, fate.publish.reached)] + ReleaseActs(d, fate.release)
  }

  /** Drainer `d` has the documents in hand, the first of them leased to it. */
  predicate Holds(s: O.State, d: nat, docs: seq<O.Doc>) {
    && docs != [] && docs[0].id in s.rows && s.rows[docs[0].id].status == Processing(s.clock)
    && d in s.drainers
  }

  /** The row is settled with the given status, and the drainer goes on or is gone. */
  function Settled(s: O.State, d: nat, docs: seq<O.Doc>, status: Status, gone: bool): O.State
    requires docs != [] && docs[0].id in s.rows
  {
    s.(rows := SetStatus(s.rows, docs[0].id, status),
       drainers := if gone then s.drainers - {d} else s.drainers[d := O.Publishing(s.clock, docs[1..])])
  }

  lemma ReleaseRun(s: O.State, d: nat, docs: seq<O.Doc>, release: Call)
    requires Holds(s, d, docs) && s.drainers[d] == O.Releasing(s.clock, docs)
    ensures Leads(s, ReleaseActs(d, release),
              Settled(s, d, docs, if release == Raises(false) then Processing(s.clock) else Pending, release.Raises?))
  {
    if release == Raises(false) {
      var t := O.Apply(s, O.Crash(d));
      assert SetStatus(s.rows, docs[0].id, Processing(s.clock)) == s.rows;
      First(s, O.Crash(d), [], t);
    } else {
      var t := O.Apply(s, O.Release(d));
      if release.Raises? {
        var u := O.Apply(t, O.Crash(d));
        assert t.drainers - {d} == s.drainers - {d};
        First(t, O.Crash(d), [], u);
        First(s, O.Release(d), [O.Crash(d)], u);
      } else {
        First(s, O.Release(d), [], t);
      }
    }
  }

  lemma MarkRun(s: O.State, d: nat, docs: seq<O.Doc>, fate: Fate)
    requires Holds(s, d, docs) && s.drainers[d] == O.Marking(s.clock, docs) && fate.publish.Confirmed?
    ensures Leads(s, MarkActs(d, fate), Settled(s, d, docs, StatusAfter(fate, s.clock), fate.EndsDrain()))
  {
    if fate.mark == Raises(false) {
      var t := O.Apply(s, O.MarkRaises(d));
      ReleaseRun(t, d, docs, fate.release);
      var u := Settled(t, d, docs, StatusAfter(fate, s.clock), fate.release.Raises?);
      assert u == Settled(s, d, docs, StatusAfter(fate, s.clock), fate.release.Raises?) by {
        assert t.drainers - {d} == s.drainers - {d};
      }
      First(s, O.MarkRaises(d), ReleaseActs(d, fate.release), u);
    } else {
      var t := O.Apply(s, O.Mark(d));
      if fate.EndsDrain() {
        var u := O.Apply(t, O.Crash(d));
        assert t.drainers - {d} == s.drainers - {d};
        First(t, O.Crash(d), [], u);
        First(s, O.Mark(d), [O.Crash(d)], u);
      } else {
        First(s, O.Mark(d), [], t);
      }
    }
  }

  /** What handling the first document leaves. */
  function AfterRow(s: O.State, d: nat, docs: seq<O.Doc>, fate: Fate): O.State
    requires docs != [] && docs[0].id in s.rows
  {
    Settled(s, d, docs, StatusAfter(fate, s.clock), fate.EndsDrain())
    .(delivered := s.delivered + if fate.ReachesBroker() then [docs[0]] else [])
  }

  lemma RowRun(s: O.State, d: nat, docs: seq<O.Doc>, fate: Fate)
    requires Holds(s, d, docs) && s.drainers[d] == O.Publishing(s.clock, docs)
    ensures Leads(s, RowActs(d, fate), AfterRow(s, d, docs, fate))
  {
    var a := if fate.publish.Confirmed? then O.PublishOk(d) else O.PublishRaises(d, fate.publish.reached);
    var t := O.Apply(s, a);
    assert t.drainers - {d} == s.drainers - {d};
    assert t.delivered == s.delivered + if fate.ReachesBroker() then [docs[0]] else [];
    if fate.publish.Confirmed? {
      MarkRun(t, d, docs, fate);
      First(s, a, MarkActs(d, fate), AfterRow(s, d, docs, fate));
    } else {
      ReleaseRun(t, d, docs, fate.release);
      First(s, a, ReleaseActs(d, fate.release), AfterRow(s, d, docs, fate));
    }
  }

  // ---- a claimed batch

  function SettleActs(d: nat, ids: seq<RowId>, i: nat, fates: Fates): seq<O.Action>
    requires i <= |ids|
    decreases |ids| - i
  {
    if i == |ids| then [O.EndDrain(d)]
    else RowActs(d, fates(ids[i])) + if fates(ids[i]).EndsDrain() then [] else SettleActs(d, ids, i + 1, fates)
  }

  /** A drain that claimed `ids` out of `before` and has handled the first `i` of them. */
  ghost predicate IsAt(s: O.State, d: nat, before: O.State, ids: seq<RowId>, i: nat, fates: Fates) {
    && i <= |ids| && Distinct(ids) && (forall r :: r in ids ==> r in before.rows)
    && s.clock == before.clock && d !in before.drainers
    && s.rows == SettledTo(before.rows, ids, i, fates, s.clock)
    && s.delivered == before.delivered + DocsOf(before.rows, SentOf(ids[..i], fates))
    && NoneEnds(ids[..i], fates)
    && s.drainers == before.drainers[d := O.Publishing(s.clock, DocsOf(before.rows, ids[i..]))]
  }

  /** What is left when the drain is over. */
  function Over(before: O.State, ids: seq<RowId>, fates: Fates): O.State
    requires forall r :: r in ids ==> r in before.rows
  {
    var n := Handled(ids, fates);
    O.State(SettledTo(before.rows, ids, n, fates, before.clock), before.drainers,
            before.delivered + DocsOf(before.rows, SentOf(ids[..n], fates)), before.clock)
  }

  lemma MoreDocs(rows: Rows, ids: seq<RowId>, more: seq<RowId>)
    requires forall r :: r in ids ==> r in rows
    requires forall r :: r in more ==> r in rows
    ensures DocsOf(rows, ids + more) == DocsOf(rows, ids) + DocsOf(rows, more)
  {
  }

  lemma InHand(s: O.State, d: nat, before: O.State, ids: seq<RowId>, i: nat, fates: Fates)
    requires IsAt(s, d, before, ids, i, fates) && i < |ids|
    ensures var docs := DocsOf(before.rows, ids[i..]);
      && Holds(s, d, docs) && s.drainers[d] == O.Publishing(s.clock, docs)
      && docs[0] == O.Doc(ids[i], before.rows[ids[i]].payload) && docs[1..] == DocsOf(before.rows, ids[i + 1..])
  {
    var rest := ids[i..];
    assert rest[0] == ids[i] && rest[1..] == ids[i + 1..];
    SettleNext(before.rows, ids, i, fates, s.clock);
  }

  /** The state a handled row leaves, part by part. */
  lemma AfterRowIs(s: O.State, d: nat, before: O.State, ids: seq<RowId>, i: nat, fates: Fates)
    requires IsAt(s, d, before, ids, i, fates) && i < |ids|
    ensures var docs, fate := DocsOf(before.rows, ids[i..]), fates(ids[i]);
      && docs != [] && docs[0].id in s.rows
      && AfterRow(s, d, docs, fate) == O.State(
           SettledTo(before.rows, ids, i + 1, fates, s.clock),
           if fate.EndsDrain() then before.drainers
           else before.drainers[d := O.Publishing(s.clock, DocsOf(before.rows, ids[i + 1..]))],
           before.delivered + DocsOf(before.rows, SentOf(ids[..i + 1], fates)), s.clock)
  {
    InHand(s, d, before, ids, i, fates);
    SettleNext(before.rows, ids, i, fates, s.clock);
    NextDelivered(before, ids, i, fates);
    assert s.drainers - {d} == before.drainers;
  }

  /** Handling one row gets the drain one place on, or ends it. */
  lemma NextRow(s: O.State, d: nat, before: O.State, ids: seq<RowId>, i: nat, fates: Fates)
    requires IsAt(s, d, before, ids, i, fates) && i < |ids|
    ensures var docs, fate := DocsOf(before.rows, ids[i..]), fates(ids[i]);
      && Holds(s, d, docs) && s.drainers[d] == O.Publishing(s.clock, docs)
      && var t := AfterRow(s, d, docs, fate);
         if fate.EndsDrain() then t == Over(before, ids, fates) else IsAt(t, d, before, ids, i + 1, fates)
  {
    InHand(s, d, before, ids, i, fates);
    AfterRowIs(s, d, before, ids, i, fates);
    NextEnds(ids, i, fates);
  }

  lemma NextDelivered(before: O.State, ids: seq<RowId>, i: nat, fates: Fates)
    requires i < |ids| && forall r :: r in ids ==> r in before.rows
    ensures before.delivered + DocsOf(before.rows, SentOf(ids[..i + 1], fates))
         == before.delivered + DocsOf(before.rows, SentOf(ids[..i], fates))
            + if fates(ids[i]).ReachesBroker() then [O.Doc(ids[i], before.rows[ids[i]].payload)] else []
  {
    NextCounts(ids, i, fates);
    var sends := Sends(ids[i], fates);
    MoreDocs(before.rows, SentOf(ids[..i], fates), sends);
    Regrouped(before.delivered, DocsOf(before.rows, SentOf(ids[..i], fates)), DocsOf(before.rows, sends));
  }

  lemma {:induction false} SettleRun(s: O.State, d: nat, before: O.State, ids: seq<RowId>, i: nat, fates: Fates)
    requires IsAt(s, d, before, ids, i, fates)
    ensures Leads(s, SettleActs(d, ids, i, fates), Over(before, ids, fates))
    decreases |ids| - i
  {
    if i == |ids| {
      var t := O.Apply(s, O.EndDrain(d));
      assert ids[..i] == ids;
      AllHandled(ids, fates);
      assert t.drainers == before.drainers;
      assert t == Over(before, ids, fates);
      First(s, O.EndDrain(d), [], t);
    } else {
      var docs, fate := DocsOf(before.rows, ids[i..]), fates(ids[i]);
      NextRow(s, d, before, ids, i, fates);
      RowRun(s, d, docs, fate);
      var t := AfterRow(s, d, docs, fate);
      if fate.EndsDrain() {
        assert RowActs(d, fate) + [] == RowActs(d, fate);
      } else {
        SettleRun(t, d, before, ids, i + 1, fates);
        Then(s, RowActs(d, fate), t, SettleActs(d, ids, i + 1, fates), Over(before, ids, fates));
      }
    }
  }

  // ---- claiming

  function ClaimActs(d: nat, ids: seq<RowId>, i: nat): seq<O.Action>
    requires i <= |ids|
    decreases |ids| - i
  {
    if i == |ids| then [] else [O.ClaimNext(d, ids[i])] + ClaimActs(d, ids, i + 1)
  }

  /** A drain that has claimed the first `i` rows of the batch it is going to get. */
  function Claimed(before: O.State, d: nat, ids: seq<RowId>, i: nat, limit: int): O.State
    requires i <= |ids| && forall r :: r in ids ==> r in before.rows
  {
    before.(rows := ClaimedAll(before.rows, ids[..i], before.clock),
            drainers := before.drainers[d := O.Claiming(before.clock, limit - i, DocsOf(before.rows, ids[..i]))])
  }

  lemma ClaimOne(before: O.State, d: nat, ids: seq<RowId>, i: nat, limit: int)
    requires IsOldestBatch(before.rows, ids, limit, before.clock) && i < |ids| && d !in before.drainers
    requires forall r :: r in ids ==> r in before.rows
    ensures var s := Claimed(before, d, ids, i, limit);
      O.Enabled(s, O.ClaimNext(d, ids[i]))
        && O.Apply(s, O.ClaimNext(d, ids[i])) == Claimed(before, d, ids, i + 1, limit)
  {
    var s, u := Claimed(before, d, ids, i, limit), Claimed(before, d, ids, i + 1, limit);
    var q := ids[i];
    assert ids[..i + 1] == ids[..i] + [q];
    assert q !in ids[..i];
    assert q in Claimables(before.rows, before.clock);
    forall r | r in s.rows && Claimable(s.rows[r], s.clock) ensures s.rows[q].createdAt <= s.rows[r].createdAt {
      assert r in Claimables(before.rows, before.clock) && r !in ids[..i];
      forall k | 0 <= k < i ensures ids[k] != r {
        assert ids[..i][k] == ids[k];
      }
    }
    assert SetStatus(s.rows, q, Processing(s.clock)) == u.rows;
    MoreDocs(before.rows, ids[..i], [q]);
    assert DocsOf(before.rows, [q]) == [O.Doc(q, s.rows[q].payload)];
    assert O.Apply(s, O.ClaimNext(d, q)).drainers == u.drainers;
  }

  lemma {:induction false} ClaimRun(before: O.State, d: nat, ids: seq<RowId>, i: nat, limit: int)
    requires IsOldestBatch(before.rows, ids, limit, before.clock) && i <= |ids| && d !in before.drainers
    requires forall r :: r in ids ==> r in before.rows
    ensures Leads(Claimed(before, d, ids, i, limit), ClaimActs(d, ids, i), Claimed(before, d, ids, |ids|, limit))
    decreases |ids| - i
  {
    if i < |ids| {
      ClaimOne(before, d, ids, i, limit);
      ClaimRun(before, d, ids, i + 1, limit);
      First(Claimed(before, d, ids, i, limit), O.ClaimNext(d, ids[i]), ClaimActs(d, ids, i + 1),
        Claimed(before, d, ids, |ids|, limit));
    }
  }

  /** A whole drain, from its start to its end. */
  function DrainActs(d: nat, limit: int, ids: seq<RowId>, fates: Fates): seq<O.Action> {
    [O.StartDrain(d, limit)] + (ClaimActs(d, ids, 0) + ([O.EndClaim(d)] + SettleActs(d, ids, 0, fates)))
  }

  lemma AllClaimed(before: O.State, d: nat, ids: seq<RowId>, limit: int, fates: Fates)
    requires IsOldestBatch(before.rows, ids, limit, before.clock) && d !in before.drainers
    requires forall r :: r in ids ==> r in before.rows
    ensures var s := Claimed(before, d, ids, |ids|, limit);
      O.Enabled(s, O.EndClaim(d)) && IsAt(O.Apply(s, O.EndClaim(d)), d, before, ids, 0, fates)
  {
    var s := Claimed(before, d, ids, |ids|, limit);
    var t := O.State(s.rows, before.drainers[d := O.Publishing(s.clock, DocsOf(before.rows, ids))], s.delivered,
      s.clock);
    assert ids[..|ids|] == ids && ids[0..] == ids && ids[..0] == [];
    if |ids| < limit {
      assert forall q :: q in s.rows && Claimable(s.rows[q], s.clock) ==>
        q in Claimables(before.rows, before.clock) && q !in ids;
      assert Claimables(s.rows, s.clock) == {};
    }
    assert O.Apply(s, O.EndClaim(d)) == t;
    assert DocsOf(before.rows, []) == [];
    assert SettledTo(before.rows, ids, 0, fates, s.clock) == s.rows;
  }

  lemma StartedIsClaimed(s: O.State, d: nat, ids: seq<RowId>, limit: int)
    requires d !in s.drainers && forall r :: r in ids ==> r in s.rows
    ensures O.Apply(s, O.StartDrain(d, limit)) == Claimed(s, d, ids, 0, limit)
  {
    assert ids[..0] == [];
    assert ClaimedAll(s.rows, [], s.clock) == s.rows;
    assert DocsOf(s.rows, []) == [];
  }

  /** The sequential drain and the machine agree: whatever batch the claim returns, and whatever its
      publishes, marks and releases come to, there is the run that does just that, with the rows
      settled and the payloads delivered as by the sequential form. */
  lemma DrainIsARun(s: O.State, d: nat, limit: int, ids: seq<RowId>, fates: Fates)
    requires IsOldestBatch(s.rows, ids, limit, s.clock) && d !in s.drainers
    ensures forall r :: r in ids ==> r in s.rows
    ensures Leads(s, DrainActs(d, limit, ids, fates), Over(s, ids, fates))
  {
    forall r | r in ids ensures r in s.rows {
      var k :| 0 <= k < |ids| && ids[k] == r;
      assert ids[k] in Claimables(s.rows, s.clock);
    }
    var s1, s2 := O.Apply(s, O.StartDrain(d, limit)), Claimed(s, d, ids, |ids|, limit);
    StartedIsClaimed(s, d, ids, limit);
    AllClaimed(s, d, ids, limit, fates);
    var s3, t := O.Apply(s2, O.EndClaim(d)), Over(s, ids, fates);
    SettleRun(s3, d, s, ids, 0, fates);
    var tail := [O.EndClaim(d)] + SettleActs(d, ids, 0, fates);
    First(s2, O.EndClaim(d), SettleActs(d, ids, 0, fates), t);
    ClaimRun(s, d, ids, 0, limit);
    Then(s1, ClaimActs(d, ids, 0), s2, tail, t);
    First(s, O.StartDrain(d, limit), ClaimActs(d, ids, 0) + tail, t);
  }
}
