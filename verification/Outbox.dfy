/** The transactional outbox: rows with publish leases, the claiming loop, and the drain. */
module Outbox {
  import opened Types

  /** What a row is about; it fixes the routing key. */
  datatype Payload =
    | RawEvent(eventId: EventId, listing: RawListing, requestId: Option<string>)
    | EnrichedEvent(eventId: EventId, document: EnrichedListing, requestId: Option<string>, retryCount: int)
    | FailedEvent(eventId: EventId, externalId: string, requestId: Option<string>, retryCount: int)

  /** The last two are rows written before the status field existed. */
  datatype Status =
    | Pending
    | Processing(claimedAt: Time)
    | Published(publishedAt: Time)
    | LegacyUnpublished
    | LegacyPublished

  datatype Row = Row(payload: Payload, createdAt: Time, status: Status)

  type RowId = nat
  type Rows = map<RowId, Row>

  predicate Claimable(row: Row, now: Time) {
    match row.status
    case Pending => true
    case LegacyUnpublished => true
    case Processing(at) => at < now - CLAIM_STALE_AFTER
    case Published(_) => false
    case LegacyPublished => false
  }

  ghost predicate IsOldestClaimable(rows: Rows, r: RowId, now: Time) {
    && r in rows && Claimable(rows[r], now)
    && forall q :: q in rows && Claimable(rows[q], now) ==> rows[r].createdAt <= rows[q].createdAt
  }

  function SetStatus(rows: Rows, r: RowId, status: Status): Rows
    requires r in rows
  {
    rows[r := rows[r].(status := status)]
  }

  /** Both settling updates only match a processing row, whoever holds it. */
  function Marked(rows: Rows, r: RowId, now: Time): Rows {
    if r in rows && rows[r].status.Processing? then SetStatus(rows, r, Published(now)) else rows
  }

  function Released(rows: Rows, r: RowId): Rows {
    if r in rows && rows[r].status.Processing? then SetStatus(rows, r, Pending) else rows
  }

  function ClaimedAll(rows: Rows, ids: seq<RowId>, now: Time): Rows {
    map r | r in rows :: if r in ids then rows[r].(status := Processing(now)) else rows[r]
  }

  function Claimables(rows: Rows, now: Time): set<RowId> {
    set r | r in rows && Claimable(rows[r], now)
  }

  ghost predicate Distinct(ids: seq<RowId>) {
    forall i, j :: 0 <= i < j < |ids| ==> ids[i] != ids[j]
  }

  ghost predicate SortedByAge(rows: Rows, ids: seq<RowId>) {
    forall i, j :: 0 <= i < j < |ids| && ids[i] in rows && ids[j] in rows ==>
      rows[ids[i]].createdAt <= rows[ids[j]].createdAt
  }

  /** The batch an uninterrupted claim may return from `rows`. */
  ghost predicate IsOldestBatch(rows: Rows, ids: seq<RowId>, limit: int, now: Time) {
    && Distinct(ids)
    && (forall i :: 0 <= i < |ids| ==> ids[i] in Claimables(rows, now))
    && SortedByAge(rows, ids)
    && (forall i, q :: 0 <= i < |ids| && q in Claimables(rows, now) && q !in ids ==>
          rows[ids[i]].createdAt <= rows[q].createdAt)
    && |ids| <= (if limit < 0 then 0 else limit)
    && (|ids| < limit ==> forall q :: q in Claimables(rows, now) ==> q in ids)
  }

  lemma {:induction false} OldestExists(rows: Rows, ids: set<RowId>) returns (r: RowId)
    requires ids != {} && ids <= rows.Keys
    ensures r in ids && forall q :: q in ids ==> rows[r].createdAt <= rows[q].createdAt
    decreases |ids|
  {
    r :| r in ids;
    if ids != {r} {
      var rest := ids - {r};
      var q := OldestExists(rows, rest);
      forall p | p in ids ensures p == r || p in rest {}
      if rows[q].createdAt < rows[r].createdAt {
        r := q;
      }
    }
  }

  /** Ids can always be had that are not in use. */
  lemma {:induction false} Bound(ids: set<nat>) returns (bound: nat)
    ensures forall x :: x in ids ==> x < bound
    decreases |ids|
  {
    bound := 0;
    if ids != {} {
      var y :| y in ids;
      var rest := Bound(ids - {y});
      bound := if y < rest then rest else y + 1;
      forall x | x in ids ensures x < bound {
        assert x == y || x in ids - {y};
      }
    }
  }

  /** Which rows a claim takes: those that wait, with or without a status, and those whose lease is
      more than five minutes old. */
  lemma ClaimableIff(row: Row, now: Time)
    ensures Claimable(row, now) <==>
      || row.status == Pending || row.status == LegacyUnpublished
      || (row.status.Processing? && row.status.claimedAt + 5 * 60 * 1000 < now)
  {
  }

  /** A claimed row has the new lease and is otherwise the same, and no other row is touched. */
  lemma ClaimedAllIs(rows: Rows, ids: seq<RowId>, now: Time, r: RowId)
    requires r in rows
    ensures var after := ClaimedAll(rows, ids, now);
      && after.Keys == rows.Keys
      && after[r] == if r in ids then Row(rows[r].payload, rows[r].createdAt, Processing(now)) else rows[r]
  {
  }

  class OutboxRepository {
    var rows: Rows
    var nextId: RowId

    constructor ()
      ensures rows == map[] && nextId == 0
    {
      rows, nextId := map[], 0;
    }

    ghost predicate Valid()
      reads this
    {
      forall r :: r in rows ==> r < nextId
    }

    method Enqueue(payload: Payload, now: Time) returns (id: RowId)
      requires Valid()
      modifies this
      ensures Valid()
      ensures id !in old(rows) && rows == old(rows)[id := Row(payload, now, Pending)]
    {
      id := nextId;
      rows := rows[id := Row(payload, now, Pending)];
      nextId := nextId + 1;
    }

    /** One find-and-update per row, oldest first, until the limit or until none matches. */
    method ClaimPending(limit: int, now: Time) returns (claimed: seq<RowId>)
      requires Valid()
      modifies this`rows
      ensures Valid()
      ensures IsOldestBatch(old(rows), claimed, limit, now)
      ensures rows == ClaimedAll(old(rows), claimed, now)
    {
      claimed := [];
      ghost var before := rows;
      assert rows == ClaimedAll(before, [], now);
      while |claimed| < limit
        invariant 0 <= |claimed| <= (if limit < 0 then 0 else limit)
        invariant Valid()
        invariant rows == ClaimedAll(before, claimed, now)
        invariant Distinct(claimed) && SortedByAge(before, claimed)
        invariant forall i :: 0 <= i < |claimed| ==> claimed[i] in Claimables(before, now)
        invariant forall i, q :: 0 <= i < |claimed| && q in Claimables(before, now) && q !in claimed ==>
          before[claimed[i]].createdAt <= before[q].createdAt
      {
        assert forall q :: q in Claimables(rows, now) <==> q in Claimables(before, now) && q !in claimed;
        if Claimables(rows, now) == {} {
          return;
        }
        ghost var w := OldestExists(rows, Claimables(rows, now));
        var r :| r in Claimables(rows, now) && forall q :: q in Claimables(rows, now) ==>
          rows[r].createdAt <= rows[q].createdAt;
        rows := SetStatus(rows, r, Processing(now));
        claimed := claimed + [r];
      }
    }

    method MarkPublished(id: RowId, now: Time)
      requires Valid()
      modifies this`rows
      ensures Valid() && rows == Marked(old(rows), id, now)
      ensures rows == if id in old(rows) && old(rows)[id].status.Processing?
                      then old(rows)[id := old(rows)[id].(status := Published(now))] else old(rows)
    {
      if id in rows && rows[id].status.Processing? {
        rows := rows[id := rows[id].(status := Published(now))];
      }
    }

    method ReleaseClaim(id: RowId)
      requires Valid()
      modifies this`rows
      ensures Valid() && rows == Released(old(rows), id)
      ensures rows == if id in old(rows) && old(rows)[id].status.Processing?
                      then old(rows)[id := old(rows)[id].(status := Pending)] else old(rows)
    {
      if id in rows && rows[id].status.Processing? {
        rows := rows[id := rows[id].(status := Pending)];
      }
    }
  }
}
