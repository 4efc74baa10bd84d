/** The idempotency store: one row per event, with lease-style processing claims. */
module Inbox {
  import opened Types

  /** Legacy rows were written before the status field existed. */
  datatype Row = Processing(claimedAt: Time) | Completed(completedAt: Time) | Legacy

  type Table = map<EventId, Row>

  /** First half of a claim: the insert, which the unique index on the event id refuses
      when a row is there. */
  function InsertClaim(t: Table, e: EventId, now: Time): Option<Table> {
    if e in t then None else Some(t[e := Processing(now)])
  }

  /** The filter of the second half. */
  predicate Claimable(row: Row, reclaim: bool, now: Time) {
    if reclaim then row.Processing?
    else row.Legacy? || (row.Processing? && row.claimedAt < now - CLAIM_STALE_AFTER)
  }

  /** Second half of a claim: one find-and-update. `None` when no row matches the filter. */
  function UpdateClaim(t: Table, e: EventId, reclaim: bool, now: Time): Option<Table> {
    if e in t && Claimable(t[e], reclaim, now) then Some(t[e := Processing(now)]) else None
  }

  function MarkCompleted(t: Table, e: EventId, now: Time): Table {
    t[e := Completed(now)]
  }

  function ReleaseClaim(t: Table, e: EventId): Table {
    if e in t && t[e].Processing? then t - {e} else t
  }

  /** A claim whose two halves run with nothing in between. */
  function ClaimOutcome(t: Table, e: EventId, reclaim: bool, now: Time): Option<Table> {
    var inserted := InsertClaim(t, e, now);
    if inserted.Some? then inserted else UpdateClaim(t, e, reclaim, now)
  }

  datatype Op =
    | Claim(event: EventId, reclaim: bool, now: Time)
    | Complete(event: EventId, now: Time)
    | Release(event: EventId)

  function Apply(t: Table, op: Op): Table {
    match op
    case Claim(e, reclaim, now) =>
      var claimed := ClaimOutcome(t, e, reclaim, now);
      if claimed.Some? then claimed.value else t
    case Complete(e, now) => MarkCompleted(t, e, now)
    case Release(e) => ReleaseClaim(t, e)
  }

  function ApplyAll(t: Table, ops: seq<Op>): Table
    decreases |ops|
  {
    if ops == [] then t else ApplyAll(Apply(t, ops[0]), ops[1..])
  }

  /** `completed` is permanent: whatever claims, completions and releases follow, by anyone
      and in any order, the row stays completed and every later claim of it is refused. */
  lemma {:induction false} CompletedIsPermanent(t: Table, ops: seq<Op>, e: EventId)
    requires e in t && t[e].Completed?
    ensures e in ApplyAll(t, ops) && ApplyAll(t, ops)[e].Completed?
    ensures forall reclaim, now :: ClaimOutcome(ApplyAll(t, ops), e, reclaim, now) == None
    decreases |ops|
  {
    if ops != [] {
      CompletedIsPermanent(Apply(t, ops[0]), ops[1..], e);
    }
  }

  predicate OnlyForeignOrFreshClaims(ops: seq<Op>, e: EventId, claimedAt: Time) {
    forall i :: 0 <= i < |ops| ==>
      ops[i].event == e ==> ops[i].Claim? && !ops[i].reclaim && ops[i].now <= claimedAt + CLAIM_STALE_AFTER
  }

  /** A lease holds: once claimed at `now`, no run of non-reclaiming attempts made within the
      lease moves the row, and each of them is refused, whatever happens to other events. */
  lemma {:induction false} LeaseExcludesOthers(t: Table, ops: seq<Op>, e: EventId, claimedAt: Time)
    requires e in t && t[e] == Processing(claimedAt)
    requires OnlyForeignOrFreshClaims(ops, e, claimedAt)
    ensures e in ApplyAll(t, ops) && ApplyAll(t, ops)[e] == Processing(claimedAt)
    ensures forall now :: now <= claimedAt + CLAIM_STALE_AFTER ==>
      ClaimOutcome(ApplyAll(t, ops), e, false, now) == None
    decreases |ops|
  {
    if ops != [] {
      assert ops[0].event == e ==> ops[0].Claim?;
      LeaseExcludesOthers(Apply(t, ops[0]), ops[1..], e, claimedAt);
    }
  }

  /** Exactly when a claim is granted. In particular a redelivery takes over any processing
      row, but never a legacy one, which a first delivery would take. */
  lemma ClaimGrantedIff(t: Table, e: EventId, reclaim: bool, now: Time)
    ensures ClaimOutcome(t, e, reclaim, now).Some? <==>
      || e !in t
      || (t[e].Processing? && (reclaim || t[e].claimedAt < now - CLAIM_STALE_AFTER))
      || (t[e].Legacy? && !reclaim)
    ensures ClaimOutcome(t, e, reclaim, now).Some? ==>
      var t' := ClaimOutcome(t, e, reclaim, now).value;
      e in t' && t'[e] == Processing(now) && t' - {e} == t - {e}
  {
    var r := ClaimOutcome(t, e, reclaim, now);
    if r.Some? {
      assert r.value - {e} == t - {e};
    }
  }

  /** A failed attempt leaves no trace of its claim: releasing restores the table, so a retry
      copy that is not flagged redelivered can claim at once. */
  lemma ReleaseUndoesClaim(t: Table, e: EventId, now: Time)
    requires e !in t
    ensures ApplyAll(t, [Claim(e, false, now), Release(e)]) == t
  {
    var ops := [Claim(e, false, now), Release(e)];
    assert ops[1..] == [Release(e)] && ops[1..][1..] == [];
    var claimed := t[e := Processing(now)];
    assert Apply(t, ops[0]) == claimed && Apply(claimed, Release(e)) == claimed - {e} == t;
    assert ApplyAll(claimed, ops[1..]) == ApplyAll(claimed - {e}, []);
  }

  /** The repository: the collection is a field its methods update. */
  class InboxRepository {
    var rows: Table

    constructor ()
      ensures rows == map[]
    {
      rows := map[];
    }

    method TryClaim(event: EventId, reclaimProcessing: bool, now: Time) returns (claimed: bool)
      modifies this
      ensures claimed <==> ClaimOutcome(old(rows), event, reclaimProcessing, now).Some?
      ensures rows == Apply(old(rows), Claim(event, reclaimProcessing, now))
      ensures claimed <==>
        || event !in old(rows)
        || (old(rows)[event].Processing? && reclaimProcessing)
        || (old(rows)[event].Processing? && old(rows)[event].claimedAt + 5 * 60 * 1000 < now)
        || (old(rows)[event].Legacy? && !reclaimProcessing)
      ensures rows == if claimed then old(rows)[event := Processing(now)] else old(rows)
    {
      if event !in rows {
        rows := rows[event := Processing(now)];
        return true;
      }
      var staleBefore := now - CLAIM_STALE_AFTER;
      var matches := if reclaimProcessing then rows[event].Processing?
                     else (rows[event].Processing? && rows[event].claimedAt < staleBefore) || rows[event].Legacy?;
      if matches {
        rows := rows[event := Processing(now)];
      }
      return matches;
    }

    method MarkCompleted(event: EventId, now: Time)
      modifies this
      ensures rows == Apply(old(rows), Complete(event, now)) == old(rows)[event := Completed(now)]
    {
      rows := rows[event := Completed(now)];
    }

    method ReleaseClaim(event: EventId)
      modifies this
      ensures rows == Apply(old(rows), Release(event))
      ensures rows == if event in old(rows) && old(rows)[event].Processing? then old(rows) - {event} else old(rows)
    {
      if event in rows && rows[event].Processing? {
        rows := rows - {event};
      }
    }
  }
}
