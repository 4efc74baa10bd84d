/** Draining the outbox without interruption: what one drain does, and that enough drains
    publish everything once, oldest first. */
module OutboxDrain {
  import opened Types
  import opened Outbox
  import opened Batches

  type Fates = RowId -> Fate

  /** A broker that confirms every publish, and a store that does not fail. */
  function AllWell(r: RowId): Fate { Fate(Confirmed, Returns, Returns) }

  lemma {:induction false} AllReach(ids: seq<RowId>)
    ensures Reaching(ids, AllWell) == ids && Handled(ids, AllWell) == |ids| && Counted(ids, AllWell) == |ids|
    decreases |ids|
  {
    if ids != [] {
      AllReach(ids[1..]);
    }
  }

  function StatusAfter(fate: Fate, now: Time): Status {
    if fate.Publishes() then Published(now) else if fate.StaysLeased() then Processing(now) else Pending
  }

  function ToSet(ids: seq<RowId>): set<RowId> { set r | r in ids }

  /** The batch settled up to position `i`; the rest of it still leased. */
  function SettledTo(rows: Rows, ids: seq<RowId>, i: nat, fates: Fates, now: Time): Rows
    requires i <= |ids|
  {
    map r | r in rows ::
      if r in ids[..i] then rows[r].(status := StatusAfter(fates(r), now))
      else if r in ids then rows[r].(status := Processing(now))
      else rows[r]
  }

  /** What a drain leaves of a batch it got through. */
  function Drained(rows: Rows, ids: seq<RowId>, fates: Fates, now: Time): Rows {
    map r | r in rows :: if r in ids then rows[r].(status := StatusAfter(fates(r), now)) else rows[r]
  }

  /** What a drain leaves of each row: published if its publish was confirmed and its mark applied,
      pending again if not and its release was applied, leased if neither was or the drain ended
      in front of it; and a row that is not in the batch as it was. */
  lemma SettledRowIs(rows: Rows, ids: seq<RowId>, n: nat, fates: Fates, now: Time, r: RowId)
    requires n <= |ids| && r in rows
    ensures var after := SettledTo(rows, ids, n, fates, now);
      && after.Keys == rows.Keys
      && (r !in ids ==> after[r] == rows[r])
      && (r in ids ==> after[r].payload == rows[r].payload && after[r].createdAt == rows[r].createdAt)
      && (r in ids && r !in ids[..n] ==> after[r].status == Processing(now))
      && (r in ids[..n] && fates(r).publish == Confirmed && fates(r).mark != Raises(false) ==>
            after[r].status == Published(now))
      && (r in ids[..n] && (fates(r).publish != Confirmed || fates(r).mark == Raises(false)) ==>
            after[r].status == if fates(r).release != Raises(false) then Pending else Processing(now))
  {
  }

  lemma SettleNext(rows: Rows, ids: seq<RowId>, i: nat, fates: Fates, now: Time)
    requires i < |ids| && Distinct(ids) && ids[i] in rows
    ensures var leased, id := SettledTo(rows, ids, i, fates, now), ids[i];
      && leased[id].status == Processing(now)
      && SettledTo(rows, ids, i + 1, fates, now) == leased[id := leased[id].(status := StatusAfter(fates(id), now))]
  {
    assert ids[..i + 1][..i] == ids[..i];
    assert ids[i] !in ids[..i];
    assert ids[..i + 1] == ids[..i] + [ids[i]];
  }

  /** Rows that wait to be published. */
  function Waiting(rows: Rows): set<RowId> {
    set r | r in rows && (rows[r].status.Pending? || rows[r].status.LegacyUnpublished?)
  }

  ghost predicate NothingLeased(rows: Rows) {
    forall r :: r in rows ==> !rows[r].status.Processing?
  }

  /** `log` is the oldest part of the rows that were waiting, each once, in order. */
  ghost predicate IsPublishLog(rows: Rows, log: seq<RowId>) {
    && Distinct(log) && SortedByAge(rows, log)
    && (forall r :: r in log ==> r in Waiting(rows))
    && (forall r, q :: r in log && q in Waiting(rows) && q !in log ==> rows[r].createdAt <= rows[q].createdAt)
  }

  /** The rows of the log have been published, at whatever instants; the others are as they were. */
  ghost predicate PublishedOut(before: Rows, rows: Rows, log: seq<RowId>) {
    && rows.Keys == before.Keys
    && forall r :: r in before ==>
         if r in log then rows[r].status.Published? && rows[r].payload == before[r].payload
           && rows[r].createdAt == before[r].createdAt
         else rows[r] == before[r]
  }

  lemma {:induction false} CountDistinct(ids: seq<RowId>)
    requires Distinct(ids)
    ensures |ToSet(ids)| == |ids|
  {
    if ids != [] {
      var k := |ids| - 1;
      CountDistinct(ids[..k]);
      assert ids[k] !in ids[..k];
      assert ids == ids[..k] + [ids[k]];
      assert ToSet(ids) == ToSet(ids[..k]) + {ids[k]};
    }
  }

  lemma SubsetSize(a: set<RowId>, b: set<RowId>)
    requires a <= b
    ensures |a| <= |b| && (|a| == |b| ==> a == b)
  {
    assert |b - a| == |b| - |a| by { assert a + (b - a) == b; }
  }

  lemma LeftWaiting(before: Rows, rows: Rows, log: seq<RowId>, now: Time)
    requires NothingLeased(before) && PublishedOut(before, rows, log)
    ensures NothingLeased(rows)
    ensures forall q :: q in Claimables(rows, now) <==> q in Waiting(before) && q !in log
  {
    forall r | r in rows ensures !rows[r].status.Processing? {
      assert r in before;
    }
  }

  /** A further batch, claimed at any later instant, extends the log and leaves the rows it did not
      take. */
  lemma AppendBatch(before: Rows, rows: Rows, log: seq<RowId>, batch: seq<RowId>, limit: nat, now: Time)
    requires NothingLeased(before) && PublishedOut(before, rows, log) && IsPublishLog(before, log)
    requires IsOldestBatch(rows, batch, limit, now)
    ensures IsPublishLog(before, log + batch)
    ensures PublishedOut(before, Drained(rows, batch, AllWell, now), log + batch)
    ensures |log + batch| == Lesser(|Waiting(before)|, |log| + limit)
  {
    var all := Waiting(before);
    LeftWaiting(before, rows, log, now);
    CountDistinct(log + batch);
    SubsetSize(ToSet(log + batch), all);
    if |batch| < limit {
      assert ToSet(log + batch) == all;
    }
  }

  function Lesser(a: int, b: int): int { if a <= b then a else b }

  /** The rows `k` drains have room for. */
  function Room(k: nat, limit: nat): nat { if k == 0 then 0 else Room(k - 1, limit) + limit }

  lemma {:induction false} RoomIsProduct(k: nat, limit: nat)
    ensures Room(k, limit) == k * limit
    decreases k
  {
    if k > 0 {
      RoomIsProduct(k - 1, limit);
      assert (k - 1) * limit + limit == k * limit;
    }
  }

  /** Nothing is left waiting, and every row that was waiting has been published. */
  ghost predicate IsFinished(before: Rows, rows: Rows, log: seq<RowId>) {
    Waiting(rows) == {} && forall r :: r in Waiting(before) ==> r in log
  }

  lemma AllPublished(before: Rows, rows: Rows, log: seq<RowId>)
    requires IsPublishLog(before, log) && PublishedOut(before, rows, log)
    ensures |log| >= |Waiting(before)| ==> IsFinished(before, rows, log)
  {
    CountDistinct(log);
    SubsetSize(ToSet(log), Waiting(before));
    if |log| >= |Waiting(before)| {
      assert forall r :: r in Waiting(before) ==> r in ToSet(log);
      forall r | r in rows ensures r !in Waiting(rows) {
        assert r in before;
      }
    }
  }

  // ---- a backlog, with newer rows arriving

  /** The rows that were there before. */
  function Among(rows: Rows, before: Rows): Rows {
    map r | r in rows && r in before :: rows[r]
  }

  /** The row is newer than all that was waiting before. */
  predicate IsNewer(before: Rows, createdAt: Time) {
    forall q :: q in Waiting(before) ==> before[q].createdAt < createdAt
  }

  predicate IsLateRow(before: Rows, row: Row) {
    IsNewer(before, row.createdAt) && !row.status.Processing?
  }

  /** `log` has been published out of what was waiting before, and then `newer` out of what arrived
      since. */
  ghost predicate Cleared(before: Rows, rows: Rows, log: seq<RowId>, newer: seq<RowId>) {
    && NothingLeased(before) && IsPublishLog(before, log) && PublishedOut(before, Among(rows, before), log)
    && (forall r :: r in rows && r !in before ==> IsLateRow(before, rows[r]))
    && (forall r :: r in newer ==> r !in before)
    && (newer != [] ==> forall q :: q in Waiting(before) ==> q in log)
  }

  lemma ArrivalKeepsCleared(before: Rows, rows: Rows, log: seq<RowId>, newer: seq<RowId>, id: RowId, row: Row)
    requires Cleared(before, rows, log, newer) && id !in rows && IsLateRow(before, row)
    ensures Cleared(before, rows[id := row], log, newer)
  {
    assert id !in Among(rows, before);
    assert before.Keys == Among(rows, before).Keys;
    assert Among(rows[id := row], before) == Among(rows, before);
  }

  lemma ClaimableBefore(before: Rows, rows: Rows, log: seq<RowId>, newer: seq<RowId>, q: RowId, now: Time)
    requires Cleared(before, rows, log, newer) && q in rows
    ensures q in before ==>
      && rows[q].createdAt == before[q].createdAt
      && (Claimable(rows[q], now) <==> q in Waiting(before) && q !in log)
      && (Claimable(rows[q], now) <==> q in Claimables(Among(rows, before), now))
  {
    LeftWaiting(before, Among(rows, before), log, now);
    assert q in before ==> Among(rows, before)[q] == rows[q];
  }

  /** Whatever is claimable and no newer than a late row is of the backlog, and the other way round. */
  lemma NotBefore(before: Rows, rows: Rows, log: seq<RowId>, newer: seq<RowId>, q: RowId, x: RowId, now: Time)
    requires Cleared(before, rows, log, newer) && q in Claimables(rows, now) && x in rows && x !in before
    requires rows[x].createdAt <= rows[q].createdAt
    ensures q !in before
  {
    ClaimableBefore(before, rows, log, newer, q, now);
    assert IsLateRow(before, rows[x]);
  }

  /** The first `k` rows of the batch, and no others, are of the backlog. */
  predicate BacklogEnds(before: Rows, batch: seq<RowId>, k: nat) {
    k <= |batch| && forall i :: 0 <= i < |batch| ==> (batch[i] in before <==> i < k)
  }

  /** Where the backlog ends in a batch. */
  lemma {:induction false} BacklogFirst(before: Rows, rows: Rows, log: seq<RowId>, newer: seq<RowId>,
                                        batch: seq<RowId>, limit: nat, now: Time)
    returns (k: nat)
    requires Cleared(before, rows, log, newer) && IsOldestBatch(rows, batch, limit, now)
    ensures BacklogEnds(before, batch, k)
  {
    k := 0;
    while k < |batch| && batch[k] in before
      invariant k <= |batch| && forall i :: 0 <= i < k ==> batch[i] in before
    {
      k := k + 1;
    }
    forall i | k <= i < |batch| ensures batch[i] !in before {
      if k < i {
        assert batch[k] in Claimables(rows, now) && batch[i] in Claimables(rows, now);
        NotBefore(before, rows, log, newer, batch[i], batch[k], now);
      }
    }
  }

  /** The backlog's part of a batch is a batch of the backlog. */
  lemma BacklogBatch(before: Rows, rows: Rows, log: seq<RowId>, newer: seq<RowId>, batch: seq<RowId>, k: nat,
                     limit: nat, now: Time)
    requires Cleared(before, rows, log, newer) && IsOldestBatch(rows, batch, limit, now)
    requires BacklogEnds(before, batch, k)
    ensures IsOldestBatch(Among(rows, before), batch[..k], limit, now)
    ensures k < |batch| ==> forall q :: q in Claimables(Among(rows, before), now) ==> q in batch[..k]
  {
    var old0, front := Among(rows, before), batch[..k];
    forall i | 0 <= i < k ensures front[i] in Claimables(old0, now) {
      assert batch[i] in Claimables(rows, now);
    }
    forall q | q in Claimables(old0, now) && q !in front ensures q !in batch && q in Claimables(rows, now) {}
    forall q | q in Claimables(old0, now) && (k < |batch| || k < limit) ensures q in front {
      ClaimableBefore(before, rows, log, newer, q, now);
      if k < |batch| {
        assert batch[k] in Claimables(rows, now) && IsLateRow(before, rows[batch[k]]);
      }
    }
  }

  /** One more batch, of the backlog as far as there is room and only then of what is newer. */
  lemma AppendToBacklog(before: Rows, rows: Rows, log: seq<RowId>, newer: seq<RowId>, batch: seq<RowId>, k: nat,
                        limit: nat, now: Time, longer: seq<RowId>, more: seq<RowId>)
    requires Cleared(before, rows, log, newer) && IsOldestBatch(rows, batch, limit, now)
    requires BacklogEnds(before, batch, k)
    requires longer == log + batch[..k] && more == newer + batch[k..]
    ensures Cleared(before, Drained(rows, batch, AllWell, now), longer, more)
    ensures |longer| == Lesser(|Waiting(before)|, |log| + limit)
  {
    var old0, front := Among(rows, before), batch[..k];
    BacklogBatch(before, rows, log, newer, batch, k, limit, now);
    AppendBatch(before, old0, log, front, limit, now);
    BacklogDrained(before, rows, batch, k, now);
    LateRowsStay(before, rows, log, newer, batch, now);
    NewerComesLast(before, rows, log, newer, batch, k, limit, now);
  }

  lemma BacklogDrained(before: Rows, rows: Rows, batch: seq<RowId>, k: nat, now: Time)
    requires BacklogEnds(before, batch, k)
    ensures Among(Drained(rows, batch, AllWell, now), before) == Drained(Among(rows, before), batch[..k], AllWell, now)
  {
    forall r | r in before ensures r in batch <==> r in batch[..k] {
      if r in batch {
        var i :| 0 <= i < |batch| && batch[i] == r;
        assert batch[..k][i] == r;
      }
    }
  }

  lemma LateRowsStay(before: Rows, rows: Rows, log: seq<RowId>, newer: seq<RowId>, batch: seq<RowId>, now: Time)
    requires Cleared(before, rows, log, newer)
    ensures var after := Drained(rows, batch, AllWell, now);
      forall r :: r in after && r !in before ==> IsLateRow(before, after[r])
  {
    forall r | r in rows && r !in before ensures IsLateRow(before, Drained(rows, batch, AllWell, now)[r]) {
      assert IsLateRow(before, rows[r]);
    }
  }

  /** Newer rows are published only when nothing of the backlog is left. */
  lemma NewerComesLast(before: Rows, rows: Rows, log: seq<RowId>, newer: seq<RowId>, batch: seq<RowId>, k: nat,
                       limit: nat, now: Time)
    requires Cleared(before, rows, log, newer) && IsOldestBatch(rows, batch, limit, now)
    requires BacklogEnds(before, batch, k)
    ensures forall r :: r in batch[k..] ==> r !in before
    ensures newer + batch[k..] != [] ==> forall q :: q in Waiting(before) ==> q in log + batch[..k]
    ensures newer != [] ==> batch[..k] == []
  {
    BacklogBatch(before, rows, log, newer, batch, k, limit, now);
    LeftWaiting(before, Among(rows, before), log, now);
    if k > 0 {
      BacklogMeansNoneNewer(before, rows, log, newer, batch[0], now);
    }
  }

  lemma BacklogMeansNoneNewer(before: Rows, rows: Rows, log: seq<RowId>, newer: seq<RowId>, r: RowId, now: Time)
    requires Cleared(before, rows, log, newer) && r in before && r in Claimables(rows, now)
    ensures newer == []
  {
    ClaimableBefore(before, rows, log, newer, r, now);
  }

  lemma FurtherDrain(before: Rows, rows: Rows, log: seq<RowId>, newer: seq<RowId>, batch: seq<RowId>,
                     limit: nat, now: Time)
    returns (longer: seq<RowId>, more: seq<RowId>)
    requires Cleared(before, rows, log, newer) && IsOldestBatch(rows, batch, limit, now)
    ensures Cleared(before, Drained(rows, batch, AllWell, now), longer, more)
    ensures |longer| == Lesser(|Waiting(before)|, |log| + limit) && longer + more == (log + newer) + batch
  {
    var k := BacklogFirst(before, rows, log, newer, batch, limit, now);
    longer, more := log + batch[..k], newer + batch[k..];
    AppendToBacklog(before, rows, log, newer, batch, k, limit, now, longer, more);
    NewerComesLast(before, rows, log, newer, batch, k, limit, now);
    InOrder(log, newer, batch, k);
  }

  lemma InOrder(log: seq<RowId>, newer: seq<RowId>, batch: seq<RowId>, k: nat)
    requires k <= |batch| && (newer != [] ==> batch[..k] == [])
    ensures (log + batch[..k]) + (newer + batch[k..]) == (log + newer) + batch
  {
  }

  // ---- the drain that follows an enqueue

  /** The default of a drain that is not told how many rows to take. */
  const DRAIN_LIMIT := 50

  lemma InlineDrainTakesFifty()
    ensures DRAIN_LIMIT == 50
  {
  }

  function Claims(limit: int, claimRaisesAfter: Option<nat>): int {
    if claimRaisesAfter.Some? then Lesser(limit, claimRaisesAfter.value) else limit
  }

  function Older(rows: Rows, createdAt: Time, now: Time): set<RowId> {
    set r | r in Claimables(rows, now) && rows[r].createdAt < createdAt
  }

  function NotNewer(rows: Rows, createdAt: Time, now: Time): set<RowId> {
    set r | r in Claimables(rows, now) && rows[r].createdAt <= createdAt
  }

  /** A new row is in the batch if fewer rows than the limit are as old, and only if fewer are older;
      in between it depends on how ties are broken. */
  lemma NewRowInBatch(rows: Rows, id: RowId, row: Row, batch: seq<RowId>, limit: nat, now: Time)
    requires id !in rows && row.status.Pending? && IsOldestBatch(rows[id := row], batch, limit, now)
    ensures id in batch ==> |Older(rows, row.createdAt, now)| < limit
    ensures |NotNewer(rows, row.createdAt, now)| < limit ==> id in batch
  {
    var all := rows[id := row];
    assert forall q :: q in Claimables(all, now) <==> q == id || q in Claimables(rows, now);
    CountDistinct(batch);
    if id in batch {
      var older := Older(rows, row.createdAt, now);
      forall q | q in older ensures q in ToSet(batch) - {id} {
        assert q in Claimables(all, now) && all[q].createdAt < all[id].createdAt;
      }
      SubsetSize(older, ToSet(batch) - {id});
    } else {
      var same := NotNewer(rows, row.createdAt, now);
      assert id in Claimables(all, now);
      forall q | q in batch ensures q in same {}
      SubsetSize(ToSet(batch), same);
    }
  }

  lemma NewRowBounds(rows: Rows, id: RowId, row: Row, batch: seq<RowId>, limit: nat, now: Time, fates: Fates)
    requires id !in rows && row.status.Pending? && IsOldestBatch(rows[id := row], batch, limit, now)
    ensures id in batch[..Handled(batch, fates)] ==> |Older(rows, row.createdAt, now)| < limit
    ensures |NotNewer(rows, row.createdAt, now)| < limit
      && (forall r :: r in Claimables(rows, now) ==> !fates(r).EndsDrain())
      ==> id in batch[..Handled(batch, fates)]
  {
    var all := rows[id := row];
    NewRowInBatch(rows, id, row, batch, limit, now);
    if id in batch && forall r :: r in Claimables(rows, now) ==> !fates(r).EndsDrain() {
      var k :| 0 <= k < |batch| && batch[k] == id;
      forall i | 0 <= i < k ensures !fates(batch[i]).EndsDrain() {
        assert batch[i] in Claimables(all, now) && batch[i] != id;
      }
      HandledFrom(batch, k, fates);
      assert batch[..Handled(batch, fates)][k] == id;
    }
  }

  /** Every row that can be claimed at `now` was created before `createdAt`. */
  ghost predicate IsNewest(rows: Rows, createdAt: Time, now: Time) {
    forall r :: r in Claimables(rows, now) ==> rows[r].createdAt < createdAt
  }

  /** The drain claims without an error and has room for the row, no release in front of it raises,
      and its own publish gets to the broker. */
  ghost predicate InlineDrainSends(rows: Rows, limit: nat, now: Time, claimRaisesAfter: Option<nat>, fates: Fates,
                                   id: RowId) {
    && claimRaisesAfter.None?
    && |Claimables(rows, now)| < limit
    && (forall r :: r in Claimables(rows, now) ==> !fates(r).EndsDrain())
    && fates(id).ReachesBroker()
  }

  lemma NewRowIsHandledIff(rows: Rows, id: RowId, row: Row, batch: seq<RowId>, limit: nat, now: Time, fates: Fates)
    requires id !in rows && row.status.Pending? && IsOldestBatch(rows[id := row], batch, limit, now)
    requires IsNewest(rows, row.createdAt, now)
    ensures id in batch[..Handled(batch, fates)] <==>
      |Claimables(rows, now)| < limit && forall r :: r in Claimables(rows, now) ==> !fates(r).EndsDrain()
  {
    var open := Claimables(rows, now);
    assert Older(rows, row.createdAt, now) == open;
    assert NotNewer(rows, row.createdAt, now) == open;
    NewRowInBatch(rows, id, row, batch, limit, now);
    if id in batch {
      NewestIsHandledIff(rows, id, row, batch, limit, now, fates);
    }
  }

  lemma NewestIsHandledIff(rows: Rows, id: RowId, row: Row, batch: seq<RowId>, limit: nat, now: Time, fates: Fates)
    requires id !in rows && row.status.Pending? && IsOldestBatch(rows[id := row], batch, limit, now)
    requires IsNewest(rows, row.createdAt, now) && id in batch
    ensures id in batch[..Handled(batch, fates)] <==> forall r :: r in Claimables(rows, now) ==> !fates(r).EndsDrain()
  {
    var k :| 0 <= k < |batch| && batch[k] == id;
    NewestIsLast(rows, id, row, batch, k, limit, now);
    FrontHandledIff(batch, fates);
    var front := batch[..k];
    forall r ensures r in front <==> r in Claimables(rows, now) {
      if r in front {
        var i :| 0 <= i < k && batch[i] == r;
        assert batch[i] in Claimables(rows[id := row], now);
      }
    }
    assert NoneEnds(front, fates) <==> forall r :: r in front ==> !fates(r).EndsDrain();
  }

  lemma BehindNewRow(rows: Rows, id: RowId, row: Row, batch: seq<RowId>, k: nat, j: nat, limit: nat, now: Time)
    requires id !in rows && IsOldestBatch(rows[id := row], batch, limit, now) && k < j < |batch| && batch[k] == id
    ensures batch[j] in Claimables(rows, now) && row.createdAt <= rows[batch[j]].createdAt
  {
    var all := rows[id := row];
    assert batch[j] in Claimables(all, now);
    assert all[batch[k]].createdAt <= all[batch[j]].createdAt;
  }

  /** In its batch the newest row comes last, and then the batch is everything there is. */
  lemma NewestIsLast(rows: Rows, id: RowId, row: Row, batch: seq<RowId>, k: nat, limit: nat, now: Time)
    requires id !in rows && row.status.Pending? && IsOldestBatch(rows[id := row], batch, limit, now)
    requires IsNewest(rows, row.createdAt, now) && k < |batch| && batch[k] == id
    ensures k == |batch| - 1
    ensures forall q :: q in Claimables(rows, now) ==> q in batch[..k]
  {
    var all := rows[id := row];
    if k < |batch| - 1 {
      BehindNewRow(rows, id, row, batch, k, k + 1, limit, now);
    }
    forall q | q in Claimables(rows, now) ensures q in batch[..k] {
      assert q in Claimables(all, now) && all[q].createdAt < all[id].createdAt;
      assert q in batch;
    }
  }

  /** The last row of a batch is handled exactly when no row in front of it ends the drain. */
  lemma {:induction false} FrontHandledIff(batch: seq<RowId>, fates: Fates)
    requires |batch| > 0
    ensures Handled(batch, fates) == |batch| <==> NoneEnds(batch[..|batch| - 1], fates)
    decreases |batch|
  {
    if |batch| > 1 {
      FrontHandledIff(batch[1..], fates);
      var front, rest := batch[..|batch| - 1], batch[1..][..|batch| - 2];
      assert front == [batch[0]] + rest;
      assert forall i :: 0 <= i < |rest| ==> rest[i] == front[i + 1];
    }
  }

  /** The two bounds and the exact condition, of the drain that follows an enqueue. */
  lemma NewRowIsSentIff(rows: Rows, id: RowId, row: Row, batch: seq<RowId>, now: Time, fates: Fates)
    requires id !in rows && row.status.Pending? && IsOldestBatch(rows[id := row], batch, DRAIN_LIMIT, now)
    ensures var isSent := id in Reaching(batch[..Handled(batch, fates)], fates);
      && (isSent ==> fates(id).ReachesBroker() && |Older(rows, row.createdAt, now)| < DRAIN_LIMIT)
      && (&& fates(id).ReachesBroker() && |NotNewer(rows, row.createdAt, now)| < DRAIN_LIMIT
          && (forall r :: r in Claimables(rows, now) ==> !fates(r).EndsDrain())
          ==> isSent)
      && (IsNewest(rows, row.createdAt, now) ==>
            (isSent <==> InlineDrainSends(rows, DRAIN_LIMIT, now, None, fates, id)))
  {
    InReaching(batch[..Handled(batch, fates)], id, fates);
    NewRowBounds(rows, id, row, batch, DRAIN_LIMIT, now, fates);
    if IsNewest(rows, row.createdAt, now) {
      NewRowIsHandledIff(rows, id, row, batch, DRAIN_LIMIT, now, fates);
    }
  }

  /** The sink, with everything that has got to the broker so far. */
  class OutboxEventSink {
    const outbox: OutboxRepository
    var sent: seq<RowId>

    constructor (outbox: OutboxRepository)
      ensures this.outbox == outbox && sent == []
    {
      this.outbox, sent := outbox, [];
    }

    /** Publishes one claimed row and marks it; whatever raises, the row is released, and only if
        that raises too does the exception get out. */
    method SettleOne(id: RowId, now: Time, fate: Fate) returns (counted: bool, raised: bool)
      requires outbox.Valid() && id in outbox.rows && outbox.rows[id].status == Processing(now)
      modifies this, outbox`rows
      ensures outbox.Valid() && counted == fate.Counts() && raised == fate.EndsDrain()
      ensures outbox.rows == SetStatus(old(outbox.rows), id, StatusAfter(fate, now))
      ensures sent == if fate.ReachesBroker() then old(sent) + [id] else old(sent)
      ensures counted <==> fate.publish == Confirmed && fate.mark == Returns
      ensures raised <==> !counted && fate.release != Returns
      ensures outbox.rows == old(outbox.rows)[id := old(outbox.rows)[id].(status :=
        if fate.publish == Confirmed && fate.mark != Raises(false) then Published(now)
        else if fate.release != Raises(false) then Pending
        else Processing(now))]
      ensures sent == if fate.publish in {Confirmed, Failed(true)} then old(sent) + [id] else old(sent)
    {
      if fate.ReachesBroker() {
        sent := sent + [id];
      }
      if fate.publish.Confirmed? {
        if fate.mark != Raises(false) {
          outbox.MarkPublished(id, now);
        }
        if fate.mark.Returns? {
          return true, false;
        }
      }
      if fate.release != Raises(false) {
        outbox.ReleaseClaim(id);
      }
      return false, fate.release.Raises?;
    }

    /** The batch is settled up to position `i`. */
    ghost predicate UpTo(before: Rows, pending: seq<RowId>, i: nat, fates: Fates, now: Time, sent0: seq<RowId>,
                         published: nat)
      requires i <= |pending|
      reads this, outbox
    {
      && outbox.rows == SettledTo(before, pending, i, fates, now)
      && sent == sent0 + Reaching(pending[..i], fates) && published == Counted(pending[..i], fates)
    }

    /** One turn of the loop over a batch. */
    method SettleNth(id: RowId, now: Time, fates: Fates, published: nat,
                     ghost before: Rows, ghost pending: seq<RowId>, ghost i: nat, ghost sent0: seq<RowId>)
      returns (counted: nat, raised: bool)
      requires outbox.Valid() && Distinct(pending) && i < |pending| && pending[i] == id && id in before
      requires UpTo(before, pending, i, fates, now, sent0, published)
      modifies this, outbox`rows
      ensures outbox.Valid() && raised == fates(id).EndsDrain()
      ensures UpTo(before, pending, i + 1, fates, now, sent0, counted)
    {
      SettleNext(before, pending, i, fates, now);
      NextCounts(pending, i, fates);
      Regrouped(sent0, Reaching(pending[..i], fates), Sends(id, fates));
      var one;
      one, raised := SettleOne(id, now, fates(id));
      counted := if one then published + 1 else published;
    }

    /** The loop over a claimed batch. */
    method SettleBatch(pending: seq<RowId>, now: Time, fates: Fates, ghost before: Rows)
      returns (published: nat, raised: bool)
      requires outbox.Valid() && Distinct(pending) && forall r :: r in pending ==> r in before
      requires outbox.rows == ClaimedAll(before, pending, now)
      modifies this, outbox`rows
      ensures outbox.Valid()
      ensures UpTo(before, pending, Handled(pending, fates), fates, now, old(sent), published)
      ensures raised <==> !NoneEnds(pending, fates)
    {
      published, raised := 0, false;
      assert outbox.rows == SettledTo(before, pending, 0, fates, now);
      var i := 0;
      while i < |pending|
        invariant 0 <= i <= |pending| && outbox.Valid() && NoneEnds(pending[..i], fates)
        invariant UpTo(before, pending, i, fates, now, old(sent), published)
      {
        NextEnds(pending, i, fates);
        published, raised := SettleNth(pending[i], now, fates, published, before, pending, i, old(sent));
        i := i + 1;
        if raised {
          return;
        }
      }
      assert pending[..i] == pending;
      AllHandled(pending, fates);
    }

    /** Claims a batch and publishes it row by row. A claim that raises after it leased some rows
        leaves them leased. */
    method Drain(limit: int, now: Time, claimRaisesAfter: Option<nat>, fates: Fates)
      returns (published: nat, raised: bool, ghost batch: seq<RowId>)
      requires outbox.Valid()
      modifies this, outbox`rows
      ensures outbox.Valid()
      ensures IsOldestBatch(old(outbox.rows), batch, Claims(limit, claimRaisesAfter), now)
      ensures claimRaisesAfter.Some? ==>
        raised && published == 0 && sent == old(sent) && outbox.rows == ClaimedAll(old(outbox.rows), batch, now)
      ensures claimRaisesAfter.None? ==>
        var n := Handled(batch, fates);
        && outbox.rows == SettledTo(old(outbox.rows), batch, n, fates, now)
        && sent == old(sent) + Reaching(batch[..n], fates) && published == Counted(batch[..n], fates)
        && (raised <==> !NoneEnds(batch, fates))
    {
      ghost var before := outbox.rows;
      var pending := outbox.ClaimPending(Claims(limit, claimRaisesAfter), now);
      batch := pending;
      if claimRaisesAfter.Some? {
        return 0, true, batch;
      }
      published, raised := SettleBatch(pending, now, fates, before);
    }

    /** Publishing an event: its row is enqueued, and one drain follows whose exception is swallowed.
        For a row newer than every claimable one this drain sends it exactly under the condition
        given. When others are as new or newer, there are two bounds, which differ by the ties. */
    method EnqueueAndDrain(payload: Payload, enqueuedAt: Time, drainedAt: Time, claimRaisesAfter: Option<nat>,
                           fates: Fates)
      returns (id: RowId, ghost batch: seq<RowId>)
      requires outbox.Valid()
      modifies this, outbox
      ensures outbox.Valid() && id !in old(outbox.rows) && id in outbox.rows
      ensures outbox.rows[id].payload == payload && outbox.rows[id].createdAt == enqueuedAt
      ensures var rows := old(outbox.rows)[id := Row(payload, enqueuedAt, Pending)];
        && IsOldestBatch(rows, batch, Claims(50, claimRaisesAfter), drainedAt)
        && outbox.rows == (if claimRaisesAfter.Some? then ClaimedAll(rows, batch, drainedAt)
                           else SettledTo(rows, batch, Handled(batch, fates), fates, drainedAt))
      ensures old(sent) <= sent
      ensures id in sent[|old(sent)|..] ==>
        && claimRaisesAfter.None? && fates(id).ReachesBroker()
        && |Older(old(outbox.rows), enqueuedAt, drainedAt)| < DRAIN_LIMIT
      ensures
        && claimRaisesAfter.None? && fates(id).ReachesBroker()
        && |NotNewer(old(outbox.rows), enqueuedAt, drainedAt)| < DRAIN_LIMIT
        && (forall r :: r in Claimables(old(outbox.rows), drainedAt) ==> !fates(r).EndsDrain())
        ==> id in sent[|old(sent)|..]
      ensures IsNewest(old(outbox.rows), enqueuedAt, drainedAt) ==>
        (id in sent[|old(sent)|..] <==>
          InlineDrainSends(old(outbox.rows), DRAIN_LIMIT, drainedAt, claimRaisesAfter, fates, id))
    {
      ghost var before, sentBefore := outbox.rows, sent;
      id := outbox.Enqueue(payload, enqueuedAt);
      var published, raised;
      published, raised, batch := Drain(DRAIN_LIMIT, drainedAt, claimRaisesAfter, fates);
      if claimRaisesAfter.None? {
        assert sent[|sentBefore|..] == Reaching(batch[..Handled(batch, fates)], fates);
        NewRowIsSentIff(before, id, Row(payload, enqueuedAt, Pending), batch, drainedAt, fates);
      } else {
        assert sent[|sentBefore|..] == [];
      }
    }

    /** Rows enqueued between two drains. */
    method EnqueueAll(arrivals: seq<(Payload, Time)>, ghost before: Rows, ghost log: seq<RowId>,
                      ghost newer: seq<RowId>)
      requires outbox.Valid() && Cleared(before, outbox.rows, log, newer)
      requires forall j :: 0 <= j < |arrivals| ==> IsNewer(before, arrivals[j].1)
      modifies outbox
      ensures outbox.Valid() && Cleared(before, outbox.rows, log, newer)
    {
      for j := 0 to |arrivals|
        invariant outbox.Valid() && Cleared(before, outbox.rows, log, newer)
      {
        ghost var rows := outbox.rows;
        var id := outbox.Enqueue(arrivals[j].0, arrivals[j].1);
        ArrivalKeepsCleared(before, rows, log, newer, id, Row(arrivals[j].0, arrivals[j].1, Pending));
      }
    }

    /** A drain with a broker that accepts everything. */
    method DrainAccepted(limit: nat, now: Time) returns (ghost batch: seq<RowId>)
      requires outbox.Valid()
      modifies this, outbox`rows
      ensures outbox.Valid() && IsOldestBatch(old(outbox.rows), batch, limit, now)
      ensures outbox.rows == Drained(old(outbox.rows), batch, AllWell, now) && sent == old(sent) + batch
    {
      var published, raised;
      published, raised, batch := Drain(limit, now, None, AllWell);
      AllReach(batch);
      assert batch[..|batch|] == batch;
    }

    /** After `k` drains. */
    ghost predicate CaughtUp(before: Rows, sent0: seq<RowId>, log: seq<RowId>, newer: seq<RowId>, k: nat, limit: nat)
      reads this, outbox
    {
      && outbox.Valid() && Cleared(before, outbox.rows, log, newer)
      && sent == sent0 + (log + newer) && |log| == Lesser(|Waiting(before)|, Room(k, limit))
    }

    method EnqueueThenDrain(arrivals: seq<(Payload, Time)>, limit: nat, now: Time, ghost k: nat, ghost before: Rows,
                            ghost sent0: seq<RowId>, ghost log: seq<RowId>, ghost newer: seq<RowId>)
      returns (ghost longer: seq<RowId>, ghost more: seq<RowId>)
      requires CaughtUp(before, sent0, log, newer, k, limit)
      requires forall j :: 0 <= j < |arrivals| ==> IsNewer(before, arrivals[j].1)
      modifies this, outbox
      ensures CaughtUp(before, sent0, longer, more, k + 1, limit)
    {
      EnqueueAll(arrivals, before, log, newer);
      ghost var rows := outbox.rows;
      ghost var batch := DrainAccepted(limit, now);
      longer, more := FurtherDrain(before, rows, log, newer, batch, limit, now);
      Regrouped(sent0, log + newer, batch);
    }

    /** The periodic drain, once at each of the given instants, with a broker that accepts everything
        and newer rows enqueued in between. From an outbox of n waiting rows and no leases, k drains
        publish min(n, k * limit) of these, each once, oldest first, and before anything newer; so
        ceil(n / limit) drains publish them all, whatever arrives. */
    method DrainRepeatedly(instants: seq<Time>, arrivals: seq<seq<(Payload, Time)>>, limit: nat)
      returns (ghost log: seq<RowId>, ghost newer: seq<RowId>)
      requires outbox.Valid() && NothingLeased(outbox.rows) && |arrivals| == |instants|
      requires forall i, j :: 0 <= i < |arrivals| && 0 <= j < |arrivals[i]| ==> IsNewer(outbox.rows, arrivals[i][j].1)
      modifies this, outbox
      ensures outbox.Valid() && sent == old(sent) + (log + newer)
      ensures Cleared(old(outbox.rows), outbox.rows, log, newer)
      ensures |log| == Lesser(|Waiting(old(outbox.rows))|, Room(|instants|, limit))
      ensures Room(|instants|, limit) >= |Waiting(old(outbox.rows))| ==>
        IsFinished(old(outbox.rows), Among(outbox.rows, old(outbox.rows)), log)
    {
      ghost var before := outbox.rows;
      log, newer := [], [];
      assert Among(outbox.rows, before) == before;
      for i := 0 to |instants|
        invariant CaughtUp(before, old(sent), log, newer, i, limit)
      {
        log, newer := EnqueueThenDrain(arrivals[i], limit, instants[i], i, before, old(sent), log, newer);
      }
      AllPublished(before, Among(outbox.rows, before), log);
    }
  }
}
