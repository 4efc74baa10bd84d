/** The pricer's drain over its SQL repository: claim a batch, publish it row by row, mark what the
    broker confirmed and give back what it refused. */
module PricerDrain {
  import opened Types
  import opened PricerStores
  import opened Batches

  type Fates = int -> Fate

  function StatusAfter(fate: Fate, now: Time): RowStatus {
    if fate.Publishes() then Sent(now) else if fate.StaysLeased() then Leased(now) else Waiting
  }

  /** The batch settled up to position `i`, the rest of it leased. */
  ghost function SettledTo(outbox: map<int, Row>, ids: seq<int>, i: nat, fates: Fates, now: Time): map<int, Row>
    requires i <= |ids|
  {
    map id | id in outbox ::
      if id in ids[..i] then outbox[id].(status := StatusAfter(fates(id), now))
      else if id in ids then outbox[id].(status := Leased(now))
      else outbox[id]
  }

  /** What a drain leaves of each row: published if its publish was confirmed and its mark applied,
      waiting again if not and it was given back, leased if neither was applied or the drain ended
      in front of it; and a row that is not in the batch as it was. */
  lemma SettledRowIs(outbox: map<int, Row>, ids: seq<int>, n: nat, fates: Fates, now: Time, id: int)
    requires n <= |ids| && id in outbox
    ensures var after := SettledTo(outbox, ids, n, fates, now);
      && after.Keys == outbox.Keys
      && (id !in ids ==> after[id] == outbox[id])
      && (id in ids && id !in ids[..n] ==> after[id] == outbox[id].(status := Leased(now)))
      && (id in ids[..n] && fates(id).publish == Confirmed && fates(id).mark != Raises(false) ==>
            after[id] == outbox[id].(status := Sent(now)))
      && (id in ids[..n] && (fates(id).publish != Confirmed || fates(id).mark == Raises(false)) ==>
            after[id] == outbox[id].(status := if fates(id).release != Raises(false) then Waiting else Leased(now)))
  {
  }

  lemma SettleNext(outbox: map<int, Row>, ids: seq<int>, i: nat, fates: Fates, now: Time)
    requires i < |ids| && ids[i] in outbox
    requires forall a, b :: 0 <= a < b < |ids| ==> ids[a] < ids[b]
    ensures var leased, id := SettledTo(outbox, ids, i, fates, now), ids[i];
      && leased[id].status == Leased(now)
      && SettledTo(outbox, ids, i + 1, fates, now) == WithStatus(leased, [id], StatusAfter(fates(id), now))
  {
    assert ids[..i + 1] == ids[..i] + [ids[i]];
    assert ids[i] !in ids[..i];
  }

  lemma NothingSettled(outbox: map<int, Row>, ids: seq<int>, fates: Fates, now: Time)
    ensures SettledTo(outbox, ids, 0, fates, now) == WithStatus(outbox, ids, Leased(now))
  {
  }

  class OutboxPublisher {
    const repository: PricingRepository
    /** Ids of the rows whose payload has got to the broker. */
    var sent: seq<int>

    constructor (repository: PricingRepository)
      ensures this.repository == repository && sent == []
    {
      this.repository, sent := repository, [];
    }

    ghost predicate OthersUntouched(before: Sql)
      reads repository
    {
      repository.inbox == before.inbox && repository.items == before.items && repository.nextId == before.nextId
    }

    /** Publishes one claimed row and marks it; whatever raises, the row is given back, and only if
        that raises too does the exception get out. */
    method SettleOne(id: int, now: Time, fate: Fate) returns (counted: bool, raised: bool)
      requires id in repository.outbox && repository.outbox[id].status == Leased(now)
      modifies this, repository
      ensures counted == fate.Counts() && raised == fate.EndsDrain() && OthersUntouched(old(repository.State()))
      ensures repository.outbox == WithStatus(old(repository.outbox), [id], StatusAfter(fate, now))
      ensures sent == if fate.ReachesBroker() then old(sent) + [id] else old(sent)
      ensures counted <==> fate.publish == Confirmed && fate.mark == Returns
      ensures raised <==> !counted && fate.release != Returns
      ensures repository.outbox == old(repository.outbox)[id := old(repository.outbox)[id].(status :=
        if fate.publish == Confirmed && fate.mark != Raises(false) then Sent(now)
        else if fate.release != Raises(false) then Waiting
        else Leased(now))]
      ensures sent == if fate.publish in {Confirmed, Failed(true)} then old(sent) + [id] else old(sent)
    {
      if fate.ReachesBroker() {
        sent := sent + [id];
      }
      if fate.Publishes() {
        MarkRow(id, now);
        if fate.mark.Returns? {
          return true, false;
        }
      }
      if fate.release != Raises(false) {
        GiveBackRow(id, now);
      }
      return false, fate.release.Raises?;
    }

    method MarkRow(id: int, now: Time)
      requires id in repository.outbox
      modifies repository
      ensures repository.outbox == WithStatus(old(repository.outbox), [id], Sent(now))
        && OthersUntouched(old(repository.State()))
    {
      ghost var before := repository.State();
      repository.MarkPublished(id, now);
      assert repository.State() == SqlStep(before, Command.MarkPublished(id), now).0;
    }

    method GiveBackRow(id: int, now: Time)
      requires id in repository.outbox
      modifies repository
      ensures OthersUntouched(old(repository.State()))
      ensures repository.outbox ==
        if old(repository.outbox[id].status).Leased? then WithStatus(old(repository.outbox), [id], Waiting)
        else old(repository.outbox)
    {
      ghost var before := repository.State();
      repository.ReleaseOutboxClaim(id, now);
      assert repository.State() == SqlStep(before, Command.ReleaseOutboxClaim(id), now).0;
    }

    method Claim(limit: int, now: Time) returns (pending: seq<Message>, ghost ids: seq<int>)
      modifies repository
      ensures ids == Oldest(old(repository.State()).Claimable(now), limit)
      ensures pending == Messages(AllMessages(old(repository.outbox)), ids)
      ensures repository.outbox == WithStatus(old(repository.outbox), ids, Leased(now))
        && OthersUntouched(old(repository.State()))
    {
      ghost var before := repository.State();
      pending := repository.ClaimPending(limit, now);
      ids := Oldest(before.Claimable(now), limit);
      assert (repository.State(), Batch(pending)) == SqlStep(before, Command.ClaimPending(limit), now);
    }

    /** The batch is settled up to position `i`. */
    ghost predicate UpTo(outbox: map<int, Row>, ids: seq<int>, i: nat, fates: Fates, now: Time, sent0: seq<int>,
                         published: nat)
      requires i <= |ids|
      reads this, repository
    {
      && repository.outbox == SettledTo(outbox, ids, i, fates, now)
      && sent == sent0 + Reaching(ids[..i], fates) && published == Counted(ids[..i], fates)
    }

    /** One turn of the loop over a batch. */
    method SettleNth(id: int, now: Time, fates: Fates, published: nat,
                     ghost outbox: map<int, Row>, ghost ids: seq<int>, ghost i: nat, ghost sent0: seq<int>)
      returns (counted: nat, raised: bool)
      requires i < |ids| && ids[i] == id && id in outbox
      requires forall a, b :: 0 <= a < b < |ids| ==> ids[a] < ids[b]
      requires UpTo(outbox, ids, i, fates, now, sent0, published)
      modifies this, repository
      ensures UpTo(outbox, ids, i + 1, fates, now, sent0, counted)
      ensures raised == fates(id).EndsDrain() && OthersUntouched(old(repository.State()))
    {
      SettleNext(outbox, ids, i, fates, now);
      NextCounts(ids, i, fates);
      Regrouped(sent0, Reaching(ids[..i], fates), Sends(id, fates));
      var one;
      one, raised := SettleOne(id, now, fates(id));
      counted := if one then published + 1 else published;
    }

    /** The loop over a claimed batch. */
    method SettleBatch(pending: seq<Message>, now: Time, fates: Fates, ghost outbox: map<int, Row>, ghost ids: seq<int>)
      returns (published: nat, raised: bool)
      requires |pending| == |ids| && forall i :: 0 <= i < |ids| ==> ids[i] in outbox && pending[i].id == ids[i]
      requires forall i, j :: 0 <= i < j < |ids| ==> ids[i] < ids[j]
      requires repository.outbox == WithStatus(outbox, ids, Leased(now))
      modifies this, repository
      ensures OthersUntouched(old(repository.State()))
      ensures UpTo(outbox, ids, Handled(ids, fates), fates, now, old(sent), published)
      ensures raised <==> !NoneEnds(ids, fates)
    {
      published, raised := 0, false;
      NothingSettled(outbox, ids, fates, now);
      var i := 0;
      while i < |pending|
        invariant 0 <= i <= |pending| && NoneEnds(ids[..i], fates)
        invariant UpTo(outbox, ids, i, fates, now, old(sent), published) && OthersUntouched(old(repository.State()))
      {
        NextEnds(ids, i, fates);
        published, raised := SettleNth(pending[i].id, now, fates, published, outbox, ids, i, old(sent));
        i := i + 1;
        if raised {
          return;
        }
      }
      assert ids[..i] == ids;
      AllHandled(ids, fates);
    }

    /** A row that is refused, or whose mark raises, is given back and the batch goes on; only a
        give-back that raises ends the drain, and leaves the rest of the batch leased. A claim that
        raises has leased its whole batch or nothing. */
    method Drain(limit: int, now: Time, claim: Call, fates: Fates)
      returns (published: nat, raised: bool, ghost ids: seq<int>)
      modifies this, repository
      ensures ids == Oldest(old(repository.State()).Claimable(now), limit) && OthersUntouched(old(repository.State()))
      ensures claim.Raises? ==>
        && raised && published == 0 && sent == old(sent)
        && repository.outbox ==
             if claim.applied then WithStatus(old(repository.outbox), ids, Leased(now)) else old(repository.outbox)
      ensures claim.Returns? ==>
        var n := Handled(ids, fates);
        && repository.outbox == SettledTo(old(repository.outbox), ids, n, fates, now)
        && sent == old(sent) + Reaching(ids[..n], fates) && published == Counted(ids[..n], fates)
        && (raised <==> !NoneEnds(ids, fates))
    {
      ids := Oldest(repository.State().Claimable(now), limit);
      if claim == Raises(false) {
        return 0, true, ids;
      }
      ghost var outbox := repository.outbox;
      var pending;
      pending, ids := Claim(limit, now);
      if claim.Raises? {
        return 0, true, ids;
      }
      published, raised := SettleBatch(pending, now, fates, outbox, ids);
    }
  }
}
