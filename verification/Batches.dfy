/** A drain's way through a batch of claimed rows: which of them it gets to, and what becomes of
    them when publishes, marks and releases may raise. */
module Batches {
  import opened Types

  datatype Publish = Confirmed | Failed(reached: bool)

  /** What the calls about one claimed row come to: its publish, its mark if that is confirmed, and
      its release if either raises. */
  datatype Fate = Fate(publish: Publish, mark: Call, release: Call) {
    predicate ReachesBroker() { publish.Confirmed? || publish.reached }

    predicate Counts() { publish.Confirmed? && mark.Returns? }

    /** The release raises, which ends the drain. */
    predicate EndsDrain() { !Counts() && release.Raises? }

    /** The row is marked published, whether the mark then raises or not. */
    predicate Publishes() { publish.Confirmed? && mark != Raises(false) }

    /** The row is neither marked nor released. */
    predicate StaysLeased() { !Publishes() && release == Raises(false) }
  }

  /** How many rows of a batch a drain gets to. */
  function Handled<T>(ids: seq<T>, fates: T -> Fate): (n: nat)
    ensures n <= |ids|
  {
    if ids == [] then 0
    else if fates(ids[0]).EndsDrain() then 1
    else 1 + Handled(ids[1..], fates)
  }

  predicate NoneEnds<T>(ids: seq<T>, fates: T -> Fate) {
    forall i :: 0 <= i < |ids| ==> !fates(ids[i]).EndsDrain()
  }

  lemma {:induction false} HandledFrom<T>(ids: seq<T>, i: nat, fates: T -> Fate)
    requires i <= |ids| && NoneEnds(ids[..i], fates)
    ensures Handled(ids, fates) == i + Handled(ids[i..], fates)
    decreases i
  {
    if i == 0 {
      assert ids[0..] == ids;
    } else {
      assert ids[..i][0] == ids[0];
      assert ids[1..][..i - 1] == ids[..i][1..] && ids[1..][i - 1..] == ids[i..];
      HandledFrom(ids[1..], i - 1, fates);
    }
  }

  function Sends<T>(id: T, fates: T -> Fate): seq<T> { if fates(id).ReachesBroker() then [id] else [] }

  lemma Regrouped<T>(a: seq<T>, b: seq<T>, c: seq<T>)
    ensures (a + b) + c == a + (b + c)
  {
  }

  /** The rows whose publish gets to the broker, in order. */
  function Reaching<T>(ids: seq<T>, fates: T -> Fate): seq<T> {
    if ids == [] then []
    else Sends(ids[0], fates) + Reaching(ids[1..], fates)
  }

  function Counted<T>(ids: seq<T>, fates: T -> Fate): nat {
    if ids == [] then 0 else (if fates(ids[0]).Counts() then 1 else 0) + Counted(ids[1..], fates)
  }

  lemma {:induction false} OneMoreReaching<T>(ids: seq<T>, id: T, fates: T -> Fate)
    ensures Reaching(ids + [id], fates) == Reaching(ids, fates) + Sends(id, fates)
    decreases |ids|
  {
    if ids == [] {
      assert ids + [id] == [id] && [id][1..] == [];
    } else {
      assert (ids + [id])[1..] == ids[1..] + [id];
      OneMoreReaching(ids[1..], id, fates);
      Regrouped(Sends(ids[0], fates), Reaching(ids[1..], fates), Sends(id, fates));
    }
  }

  lemma {:induction false} OneMoreCounted<T>(ids: seq<T>, id: T, fates: T -> Fate)
    ensures Counted(ids + [id], fates) == Counted(ids, fates) + (if fates(id).Counts() then 1 else 0)
    decreases |ids|
  {
    if ids == [] {
      assert ids + [id] == [id] && [id][1..] == [];
    } else {
      assert (ids + [id])[1..] == ids[1..] + [id];
      OneMoreCounted(ids[1..], id, fates);
    }
  }

  /** What handling the next row adds. */
  lemma NextCounts<T>(ids: seq<T>, i: nat, fates: T -> Fate)
    requires i < |ids|
    ensures Reaching(ids[..i + 1], fates) == Reaching(ids[..i], fates) + Sends(ids[i], fates)
    ensures Counted(ids[..i + 1], fates) == Counted(ids[..i], fates) + (if fates(ids[i]).Counts() then 1 else 0)
  {
    var front, id := ids[..i], ids[i];
    assert ids[..i + 1] == front + [id];
    OneMoreReaching(front, id, fates);
    OneMoreCounted(front, id, fates);
  }

  lemma NextEnds<T>(ids: seq<T>, i: nat, fates: T -> Fate)
    requires i < |ids| && NoneEnds(ids[..i], fates)
    ensures if fates(ids[i]).EndsDrain() then Handled(ids, fates) == i + 1 && !NoneEnds(ids, fates)
            else NoneEnds(ids[..i + 1], fates)
  {
    if fates(ids[i]).EndsDrain() {
      HandledFrom(ids, i, fates);
      var rest := ids[i..];
      assert rest[0] == ids[i] && Handled(rest, fates) == 1;
    } else {
      var more := ids[..i + 1];
      forall k | 0 <= k < |more| ensures !fates(more[k]).EndsDrain() {
        assert k < i ==> more[k] == ids[..i][k];
      }
    }
  }

  lemma AllHandled<T>(ids: seq<T>, fates: T -> Fate)
    requires NoneEnds(ids, fates)
    ensures Handled(ids, fates) == |ids| && ids[..|ids|] == ids
  {
    assert ids[..|ids|] == ids;
    HandledFrom(ids, |ids|, fates);
  }

  /** Which rows a drain gets to: up to and including the first one whose publish or mark raises and
      whose release then raises too, or all of them. */
  lemma {:induction false} HandledIsUpToFirstEnd<T>(ids: seq<T>, fates: T -> Fate)
    ensures var n := Handled(ids, fates);
      && (forall i :: 0 <= i < n - 1 ==> !BothRaise(fates(ids[i])))
      && (n < |ids| ==> n > 0 && BothRaise(fates(ids[n - 1])))
    decreases |ids|
  {
    if ids != [] && !fates(ids[0]).EndsDrain() {
      HandledIsUpToFirstEnd(ids[1..], fates);
      assert forall i :: 0 < i < |ids| ==> ids[i] == ids[1..][i - 1];
    }
  }

  predicate BothRaise(fate: Fate) {
    (fate.publish.Failed? || fate.mark.Raises?) && fate.release.Raises?
  }

  /** What a drain counts is the number of rows whose publish was confirmed and whose mark returned. */
  lemma {:induction false} CountedIsNumber<T>(ids: seq<T>, fates: T -> Fate)
    ensures Counted(ids, fates) ==
      |set i: nat | i < |ids| && fates(ids[i]).publish.Confirmed? && fates(ids[i]).mark.Returns?|
    decreases |ids|
  {
    var all := set i: nat | i < |ids| && IsDone(fates(ids[i]));
    assert all == set i: nat | i < |ids| && fates(ids[i]).publish.Confirmed? && fates(ids[i]).mark.Returns?;
    if ids == [] {
      assert all == {};
    } else {
      var rest := ids[1..];
      CountedIsNumber(rest, fates);
      var later := set i: nat | i < |rest| && fates(rest[i]).publish.Confirmed? && fates(rest[i]).mark.Returns?;
      ShiftedSize(later, all - {0});
      assert 0 in all ==> |all| == |all - {0}| + 1;
      assert 0 !in all ==> all == all - {0};
    }
  }

  predicate IsDone(fate: Fate) { fate.publish.Confirmed? && fate.mark.Returns? }

  lemma {:induction false} ShiftedSize(a: set<nat>, b: set<nat>)
    requires forall x :: x in b <==> x > 0 && x - 1 in a
    ensures |a| == |b|
    decreases |a|
  {
    if x :| x in a {
      assert x + 1 in b;
      ShiftedSize(a - {x}, b - {x + 1});
    } else {
      assert a == {} && b == {};
    }
  }

  /** What a drain sends: the rows whose publish was confirmed, or raised after it got through, in the
      order of the batch. */
  lemma {:induction false} SentInOrder<T>(a: seq<T>, r: T, b: seq<T>, fates: T -> Fate)
    ensures Reaching(a + [r] + b, fates) ==
      Reaching(a, fates)
      + (if fates(r).publish == Confirmed || fates(r).publish == Failed(true) then [r] else [])
      + Reaching(b, fates)
    decreases |a|
  {
    if a == [] {
      assert [] + [r] + b == [r] + b && ([r] + b)[1..] == b;
    } else {
      assert (a + [r] + b)[1..] == a[1..] + [r] + b;
      SentInOrder(a[1..], r, b, fates);
      var sent := if fates(r).publish == Confirmed || fates(r).publish == Failed(true) then [r] else [];
      Regrouped(Sends(a[0], fates), Reaching(a[1..], fates) + sent, Reaching(b, fates));
      Regrouped(Sends(a[0], fates), Reaching(a[1..], fates), sent);
    }
  }

  lemma {:induction false} InReaching<T>(ids: seq<T>, r: T, fates: T -> Fate)
    ensures r in Reaching(ids, fates) <==> r in ids && fates(r).ReachesBroker()
    decreases |ids|
  {
    if ids != [] {
      InReaching(ids[1..], r, fates);
      assert ids == [ids[0]] + ids[1..];
    }
  }
}
