/** The in-memory repository simulates the SQL one while no command meets a stale lease. */
module StoreSimulation {
  import opened Types
  import opened PricerStores

  datatype OutboxStatus = Open | InFlight | Delivered

  ghost function MemoryStatus(m: Memory, id: int): OutboxStatus {
    if id in m.published then Delivered else if id in m.processing then InFlight else Open
  }

  ghost function SqlStatus(row: Row): OutboxStatus {
    match row.status
    case Waiting => Open
    case Leased(_) => InFlight
    case Sent(_) => Delivered
  }

  ghost predicate SameInbox(m: Memory, s: Sql) {
    && m.inbox.Keys == s.inbox.Keys
    && forall e :: e in m.inbox ==> (m.inbox[e].Completed? <==> s.inbox[e].Completed?)
  }

  ghost predicate SameOutbox(m: Memory, s: Sql) {
    && m.nextId == s.nextId
    && forall id :: id in m.outbox && id in s.outbox ==>
         m.outbox[id] == AsMessage(id, s.outbox[id]) && MemoryStatus(m, id) == SqlStatus(s.outbox[id])
  }

  /** Every query answers the same on both: results, inbox statuses, outbox rows and statuses. */
  ghost predicate Same(m: Memory, s: Sql) {
    && m.Valid() && s.Valid()
    && m.items == s.items && SameInbox(m, s) && SameOutbox(m, s)
  }

  /** The commands on which the SQL store takes over a stale lease, which the in-memory store,
      having no clock, does not. */
  ghost predicate MeetsStaleLease(s: Sql, c: Command, now: Time) {
    match c
    case TryClaim(e, reclaim) =>
      !reclaim && e in s.inbox && s.inbox[e].Processing? && s.inbox[e].claimedAt < now - CLAIM_STALE_AFTER
    case ClaimPending(limit) =>
      exists id :: id in Oldest(s.Claimable(now), limit) && s.IsStale(id, now)
    case _ => false
  }

  /** Only ids that were handed out are marked, as the drain does. */
  ghost predicate MarksKnownRow(s: Sql, c: Command) { c.MarkPublished? ==> c.outboxId < s.nextId }

  lemma ClaimAgrees(m: Memory, s: Sql, c: Command, now: Time)
    requires Same(m, s) && c.TryClaim? && !MeetsStaleLease(s, c, now)
    ensures Same(MemoryStep(m, c).0, SqlStep(s, c, now).0)
    ensures MemoryStep(m, c).1 == SqlStep(s, c, now).1
  {
  }

  lemma EndOfClaimAgrees(m: Memory, s: Sql, c: Command, now: Time)
    requires Same(m, s) && (c.MarkCompleted? || c.ReleaseClaim?)
    ensures Same(MemoryStep(m, c).0, SqlStep(s, c, now).0)
    ensures MemoryStep(m, c).1 == SqlStep(s, c, now).1
  {
  }

  lemma SaveAgrees(m: Memory, s: Sql, c: Command, now: Time)
    requires Same(m, s) && c.Save?
    ensures Same(MemoryStep(m, c).0, SqlStep(s, c, now).0)
    ensures MemoryStep(m, c).1 == SqlStep(s, c, now).1
  {
  }

  lemma MarkAgrees(m: Memory, s: Sql, c: Command, now: Time)
    requires Same(m, s) && c.MarkPublished? && MarksKnownRow(s, c)
    ensures Same(MemoryStep(m, c).0, SqlStep(s, c, now).0)
    ensures MemoryStep(m, c).1 == SqlStep(s, c, now).1
  {
  }

  lemma GiveBackAgrees(m: Memory, s: Sql, c: Command, now: Time)
    requires Same(m, s) && c.ReleaseOutboxClaim?
    ensures Same(MemoryStep(m, c).0, SqlStep(s, c, now).0)
    ensures MemoryStep(m, c).1 == SqlStep(s, c, now).1
  {
  }

  /** Without stale rows among them, the oldest claimable rows are the oldest pending ones, and
      only then. */
  lemma BatchesAgreeIff(m: Memory, s: Sql, limit: int, now: Time)
    requires Same(m, s)
    ensures Oldest(m.Pending(), limit) == Oldest(s.Claimable(now), limit) <==>
      !MeetsStaleLease(s, ClaimPending(limit), now)
  {
    var ids := Oldest(s.Claimable(now), limit);
    var pending := m.Pending();
    assert forall id :: id in s.Claimable(now) <==> id in pending || s.IsStale(id, now);
    assert forall id :: id in pending ==> !s.IsStale(id, now);
    if !MeetsStaleLease(s, ClaimPending(limit), now) {
      assert IsOldest(ids, pending, limit);
      OldestIsUnique(ids, Oldest(pending, limit), pending, limit);
    } else {
      var id :| id in ids && s.IsStale(id, now);
      assert id !in Oldest(pending, limit);
    }
  }

  lemma LeasedAgree(m: Memory, s: Sql, ids: seq<int>, now: Time)
    requires Same(m, s) && forall id :: id in ids ==> id in m.Pending()
    ensures Same(m.(processing := m.processing + Elements(ids)), s.(outbox := WithStatus(s.outbox, ids, Leased(now))))
  {
    var leased := Elements(ids);
    assert forall id :: id in leased <==> id in ids;
    forall id | id in leased ensures id in m.outbox && id !in m.published {
      assert id in m.Pending();
    }
  }

  lemma ClaimPendingAgrees(m: Memory, s: Sql, limit: int, now: Time)
    requires Same(m, s) && !MeetsStaleLease(s, ClaimPending(limit), now)
    ensures Same(MemoryStep(m, ClaimPending(limit)).0, SqlStep(s, ClaimPending(limit), now).0)
    ensures MemoryStep(m, ClaimPending(limit)).1 == SqlStep(s, ClaimPending(limit), now).1
  {
    BatchesAgreeIff(m, s, limit, now);
    var ids := Oldest(m.Pending(), limit);
    LeasedAgree(m, s, ids, now);
    assert Messages(m.outbox, ids) == Messages(AllMessages(s.outbox), ids);
  }

  lemma StepAgrees(m: Memory, s: Sql, c: Command, now: Time)
    requires Same(m, s) && !MeetsStaleLease(s, c, now) && MarksKnownRow(s, c)
    ensures Same(MemoryStep(m, c).0, SqlStep(s, c, now).0)
    ensures MemoryStep(m, c).1 == SqlStep(s, c, now).1
  {
    match c
    case TryClaim(_, _) => ClaimAgrees(m, s, c, now);
    case MarkCompleted(_) => EndOfClaimAgrees(m, s, c, now);
    case ReleaseClaim(_) => EndOfClaimAgrees(m, s, c, now);
    case Save(_, _, _) => SaveAgrees(m, s, c, now);
    case ClaimPending(limit) => ClaimPendingAgrees(m, s, limit, now);
    case MarkPublished(_) => MarkAgrees(m, s, c, now);
    case ReleaseOutboxClaim(_) => GiveBackAgrees(m, s, c, now);
  }

  lemma StaleBatchesDiffer(m: Memory, s: Sql, limit: int, now: Time)
    requires Same(m, s) && MeetsStaleLease(s, ClaimPending(limit), now)
    ensures MemoryStep(m, ClaimPending(limit)).1 != SqlStep(s, ClaimPending(limit), now).1
  {
    var a, b := Oldest(m.Pending(), limit), Oldest(s.Claimable(now), limit);
    BatchesAgreeIff(m, s, limit, now);
    var ma, mb := Messages(m.outbox, a), Messages(AllMessages(s.outbox), b);
    assert forall i :: 0 <= i < |a| ==> ma[i].id == a[i];
    assert forall i :: 0 <= i < |b| ==> mb[i].id == b[i];
    assert ma == mb ==> a == b;
  }

  /** Exactly when the reply to one command is the same on both: when it meets no stale lease. */
  lemma RepliesAgreeIff(m: Memory, s: Sql, c: Command, now: Time)
    requires Same(m, s)
    ensures MemoryStep(m, c).1 == SqlStep(s, c, now).1 <==> !MeetsStaleLease(s, c, now)
  {
    if !MeetsStaleLease(s, c, now) {
      if MarksKnownRow(s, c) {
        StepAgrees(m, s, c, now);
      }
    } else if c.ClaimPending? {
      StaleBatchesDiffer(m, s, c.limit, now);
    }
  }

  type Run = seq<(Command, Time)>

  ghost function MemoryRun(m: Memory, run: Run): (Memory, seq<Reply>)
    decreases |run|
  {
    if run == [] then (m, [])
    else
      var step := MemoryStep(m, run[0].0);
      var rest := MemoryRun(step.0, run[1..]);
      (rest.0, [step.1] + rest.1)
  }

  lemma NumberingLasts(m: Memory, c: Command)
    requires m.Numbered()
    ensures MemoryStep(m, c).0.Numbered()
  {
  }

  /** Whatever is called from the start on, stale leases and marks of unknown ids included, ids stay
      numbered from one up, which is all the claiming and the counting loop ask for. */
  lemma {:induction false} AlwaysNumbered(m: Memory, run: Run)
    requires m == EMPTY_MEMORY || m.Numbered()
    ensures MemoryRun(m, run).0.Numbered()
    decreases |run|
  {
    if run != [] {
      NumberingLasts(m, run[0].0);
      AlwaysNumbered(MemoryStep(m, run[0].0).0, run[1..]);
    }
  }

  ghost function SqlRun(s: Sql, run: Run): (Sql, seq<Reply>)
    decreases |run|
  {
    if run == [] then (s, [])
    else
      var step := SqlStep(s, run[0].0, run[0].1);
      var rest := SqlRun(step.0, run[1..]);
      (rest.0, [step.1] + rest.1)
  }

  ghost predicate NoLeaseGoesStale(s: Sql, run: Run)
    decreases |run|
  {
    run != [] ==>
      !MeetsStaleLease(s, run[0].0, run[0].1) && NoLeaseGoesStale(SqlStep(s, run[0].0, run[0].1).0, run[1..])
  }

  ghost predicate MarksKnownRows(s: Sql, run: Run)
    decreases |run|
  {
    run != [] ==>
      MarksKnownRow(s, run[0].0) && MarksKnownRows(SqlStep(s, run[0].0, run[0].1).0, run[1..])
  }

  /** The simulation, over command sequences of any length: same claim results, same batches in
      the same order, and in the end the same results, statuses and counts. */
  lemma {:induction false} MemorySimulatesSql(m: Memory, s: Sql, run: Run)
    requires Same(m, s) && NoLeaseGoesStale(s, run) && MarksKnownRows(s, run)
    ensures MemoryRun(m, run).1 == SqlRun(s, run).1
    ensures Same(MemoryRun(m, run).0, SqlRun(s, run).0)
    decreases |run|
  {
    if run != [] {
      StepAgrees(m, s, run[0].0, run[0].1);
      MemorySimulatesSql(MemoryStep(m, run[0].0).0, SqlStep(s, run[0].0, run[0].1).0, run[1..]);
    }
  }

  const EMPTY_MEMORY := Memory(map[], map[], map[], {}, {}, 1)
  const EMPTY_SQL := Sql(map[], map[], map[], 1)

  ghost predicate LeasesSince(s: Sql, start: Time) {
    && (forall e :: e in s.inbox && s.inbox[e].Processing? ==> s.inbox[e].claimedAt >= start)
    && (forall id :: id in s.outbox && s.outbox[id].status.Leased? ==> s.outbox[id].status.claimedAt >= start)
  }

  ghost predicate Within(run: Run, start: Time) {
    forall i :: 0 <= i < |run| ==> start <= run[i].1 <= start + CLAIM_STALE_AFTER
  }

  lemma LeasesSinceStep(s: Sql, c: Command, now: Time, start: Time)
    requires LeasesSince(s, start) && start <= now
    ensures LeasesSince(SqlStep(s, c, now).0, start)
  {
  }

  /** A run no longer than a lease meets no stale one, whatever it does. */
  lemma {:induction false} ShortRunsAreFresh(s: Sql, run: Run, start: Time)
    requires LeasesSince(s, start) && Within(run, start)
    ensures NoLeaseGoesStale(s, run)
    decreases |run|
  {
    if run != [] {
      var c, now := run[0].0, run[0].1;
      assert start <= now <= start + CLAIM_STALE_AFTER;
      LeasesSinceStep(s, c, now, start);
      ShortRunsAreFresh(SqlStep(s, c, now).0, run[1..], start);
    }
  }

  /** From empty stores, any run that fits in five minutes is the same on both. */
  lemma SameWithinFiveMinutes(run: Run, start: Time)
    requires Within(run, start) && MarksKnownRows(EMPTY_SQL, run)
    ensures MemoryRun(EMPTY_MEMORY, run).1 == SqlRun(EMPTY_SQL, run).1
    ensures Same(MemoryRun(EMPTY_MEMORY, run).0, SqlRun(EMPTY_SQL, run).0)
  {
    ShortRunsAreFresh(EMPTY_SQL, run, start);
    MemorySimulatesSql(EMPTY_MEMORY, EMPTY_SQL, run);
  }

  // ---- marking an id that was not handed out yet

  ghost function Saves(result: PricingResult, n: nat, now: Time): Run {
    seq(n, i => (Save(result, None, None), now))
  }

  lemma {:induction false} SavesOnMemory(m: Memory, result: PricingResult, n: nat, now: Time)
    requires m.nextId >= 1
    ensures var m' := MemoryRun(m, Saves(result, n, now)).0;
      && m'.nextId == m.nextId + n && m'.published == m.published && m'.processing == m.processing
      && forall id :: m.nextId <= id < m.nextId + n ==> id in m'.outbox
    ensures forall id :: id in m.outbox && id < m.nextId ==> id in MemoryRun(m, Saves(result, n, now)).0.outbox
    decreases n
  {
    if n > 0 {
      var run := Saves(result, n, now);
      assert run[1..] == Saves(result, n - 1, now);
      SavesOnMemory(MemoryStep(m, run[0].0).0, result, n - 1, now);
    }
  }

  lemma {:induction false} SavesOnSql(s: Sql, result: PricingResult, n: nat, now: Time)
    requires s.nextId >= 1
    ensures var s' := SqlRun(s, Saves(result, n, now)).0;
      && s'.nextId == s.nextId + n
      && forall id :: s.nextId <= id < s.nextId + n ==> id in s'.outbox && s'.outbox[id].status.Waiting?
    ensures forall id :: id in s.outbox && id < s.nextId ==>
      id in SqlRun(s, Saves(result, n, now)).0.outbox && SqlRun(s, Saves(result, n, now)).0.outbox[id] == s.outbox[id]
    decreases n
  {
    if n > 0 {
      var run := Saves(result, n, now);
      assert run[1..] == Saves(result, n - 1, now);
      SavesOnSql(SqlStep(s, run[0].0, now).0, result, n - 1, now);
    }
  }

  /** Marking an id before it is handed out makes the stores part: once the row is saved, the
      in-memory store never publishes it, the SQL store has it waiting. */
  lemma EarlyMarkDiverges(m: Memory, s: Sql, id: int, result: PricingResult, now: Time)
    requires Same(m, s) && id >= s.nextId
    ensures var run := Saves(result, (id - s.nextId + 1) as nat, now);
      var m', s' :=
        MemoryRun(MemoryStep(m, MarkPublished(id)).0, run).0, SqlRun(SqlStep(s, MarkPublished(id), now).0, run).0;
      && id in m'.outbox && id in s'.outbox
      && MemoryStatus(m', id) == Delivered && SqlStatus(s'.outbox[id]) == Open
  {
    var n := id - s.nextId + 1;
    SavesOnMemory(MemoryStep(m, MarkPublished(id)).0, result, n, now);
    SavesOnSql(SqlStep(s, MarkPublished(id), now).0, result, n, now);
  }

  lemma {:induction false} SavesAreUndisturbed(s: Sql, result: PricingResult, n: nat, now: Time)
    ensures NoLeaseGoesStale(s, Saves(result, n, now)) && MarksKnownRows(s, Saves(result, n, now))
    decreases n
  {
    if n > 0 {
      var run := Saves(result, n, now);
      assert run[1..] == Saves(result, n - 1, now);
      SavesAreUndisturbed(SqlStep(s, run[0].0, now).0, result, n - 1, now);
    }
  }

  /** The outbox statuses stay the same over a run that meets no stale lease. */
  ghost predicate StaysAlike(m: Memory, s: Sql, run: Run) {
    NoLeaseGoesStale(s, run) && MarksKnownRows(s, run) ==> SameOutbox(MemoryRun(m, run).0, SqlRun(s, run).0)
  }

  /** Exactly when marking a row is safe for the simulation, over all later runs: when its id was
      already handed out. */
  lemma MarkIsHarmlessIff(m: Memory, s: Sql, id: int, now: Time)
    requires Same(m, s)
    ensures id < s.nextId <==>
      (forall run :: StaysAlike(MemoryStep(m, MarkPublished(id)).0, SqlStep(s, MarkPublished(id), now).0, run))
  {
    var m1, s1 := MemoryStep(m, MarkPublished(id)).0, SqlStep(s, MarkPublished(id), now).0;
    if id < s.nextId {
      StepAgrees(m, s, MarkPublished(id), now);
      forall run ensures StaysAlike(m1, s1, run) {
        if NoLeaseGoesStale(s1, run) && MarksKnownRows(s1, run) {
          MemorySimulatesSql(m1, s1, run);
        }
      }
    } else {
      var result := PricingResult("", now, "");
      var run := Saves(result, id - s.nextId + 1, now);
      EarlyMarkDiverges(m, s, id, result, now);
      SavesAreUndisturbed(s1, result, id - s.nextId + 1, now);
      assert !StaysAlike(m1, s1, run);
    }
  }

  // ---- counts

  /** The rows of each status, without statuses. */
  lemma StatusesAreSets(m: Memory)
    ensures WithMemoryStatus(m, Delivered) == m.outbox.Keys * m.published
    ensures WithMemoryStatus(m, InFlight) == m.outbox.Keys * m.processing - m.published
    ensures WithMemoryStatus(m, Open) == m.outbox.Keys - m.processing - m.published
  {
  }

  /** The status count of the in-memory store walks its rows once. */
  method CountOutboxByStatus(repository: InMemoryPricingRepository)
    returns (pending: nat, processing: nat, published: nat)
    requires repository.State().Numbered()
    ensures pending == |WithMemoryStatus(repository.State(), Open)|
    ensures processing == |WithMemoryStatus(repository.State(), InFlight)|
    ensures published == |WithMemoryStatus(repository.State(), Delivered)|
    ensures published == |repository.outbox.Keys * repository.published|
    ensures processing == |repository.outbox.Keys * repository.processing - repository.published|
    ensures pending == |repository.outbox.Keys - repository.processing - repository.published|
  {
    pending, processing, published := 0, 0, 0;
    ghost var m := repository.State();
    var id := 1;
    while id < repository.nextOutboxId
      invariant 1 <= id <= repository.nextOutboxId
      invariant pending == |Below(m, Open, id)|
      invariant processing == |Below(m, InFlight, id)|
      invariant published == |Below(m, Delivered, id)|
    {
      BelowStep(m, Open, id);
      BelowStep(m, InFlight, id);
      BelowStep(m, Delivered, id);
      if id in repository.published {
        published := published + 1;
      } else if id in repository.processing {
        processing := processing + 1;
      } else {
        pending := pending + 1;
      }
      id := id + 1;
    }
    AllBelow(m, Open);
    AllBelow(m, InFlight);
    AllBelow(m, Delivered);
    StatusesAreSets(m);
  }

  ghost function WithMemoryStatus(m: Memory, status: OutboxStatus): set<int> {
    set id | id in m.outbox && MemoryStatus(m, id) == status
  }

  ghost function WithSqlStatus(s: Sql, status: OutboxStatus): set<int> {
    set id | id in s.outbox && SqlStatus(s.outbox[id]) == status
  }

  ghost function Below(m: Memory, status: OutboxStatus, bound: int): set<int> {
    set id | id in m.outbox && MemoryStatus(m, id) == status && id < bound
  }

  lemma BelowStep(m: Memory, status: OutboxStatus, id: int)
    requires m.Numbered() && id in m.outbox
    ensures |Below(m, status, id + 1)| == |Below(m, status, id)| + (if MemoryStatus(m, id) == status then 1 else 0)
  {
    if MemoryStatus(m, id) == status {
      assert Below(m, status, id + 1) == Below(m, status, id) + {id};
    } else {
      assert Below(m, status, id + 1) == Below(m, status, id);
    }
  }

  lemma AllBelow(m: Memory, status: OutboxStatus)
    requires m.Numbered()
    ensures Below(m, status, m.nextId) == WithMemoryStatus(m, status)
  {
  }

  /** Grouping by status gives the same counts on both. */
  lemma CountsAgree(m: Memory, s: Sql, status: OutboxStatus)
    requires Same(m, s)
    ensures |WithMemoryStatus(m, status)| == |WithSqlStatus(s, status)|
  {
    forall id ensures id in WithMemoryStatus(m, status) <==> id in WithSqlStatus(s, status) {
      assert id in m.outbox <==> id in s.outbox;
      assert id in m.outbox ==> m.outbox[id] == AsMessage(id, s.outbox[id]);
    }
    assert WithMemoryStatus(m, status) == WithSqlStatus(s, status);
  }
}
