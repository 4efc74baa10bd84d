/** Each condition of the conservation theorem is needed: with one step of one of the five
    faulty kinds, and every other step benign, an event can be lost for good. */
module Losses {
  import opened Types
  import opened Retry
  import opened Consumer
  import opened Conservation
  import Inbox

  /** The event is neither completed nor dead-lettered, and nobody is going to handle it again. */
  ghost predicate Lost(s: State, k: Key) {
    k in s.seen && !HasMessage(s.dlq, k) && !RowIsCompleted(s, k) && !InFlight(s, k)
  }

  ghost predicate BenignBut(s: State, acts: seq<Action>, fault: Action)
    requires Valid(s, acts)
    decreases |acts|
  {
    acts != [] ==>
      (acts[0] == fault || Benign(s, acts[0])) && BenignBut(Apply(s, acts[0]), acts[1..], fault)
  }

  ghost predicate Loses(s: State, acts: seq<Action>, fault: Action, k: Key) {
    Valid(s, acts) && BenignBut(s, acts, fault) && Lost(Exec(s, acts), k)
  }

  ghost predicate CanLose(s: State, fault: Action, k: Key) {
    exists acts :: Loses(s, acts, fault, k)
  }

  lemma Now(s: State, fault: Action, k: Key)
    requires Lost(s, k)
    ensures CanLose(s, fault, k)
  {
    assert Loses(s, [], fault, k);
  }

  lemma Before(s: State, a: Action, fault: Action, k: Key)
    requires Enabled(s, a) && (a == fault || Benign(s, a))
    requires CanLose(Apply(s, a), fault, k)
    ensures CanLose(s, fault, k)
  {
    var rest :| Loses(Apply(s, a), rest, fault, k);
    var acts := [a] + rest;
    assert acts[1..] == rest;
    assert Loses(s, acts, fault, k);
  }

  /** A start that has never heard of the event `body` carries. */
  ghost predicate FreshStart(s: State, body: Body) {
    Init(s) && body.Event? && body.eventId !in s.inbox && body.retryCount == 0 && s.maxRetries >= 2
  }

  /** A later state of a run from `s` about key `k`, with no message in the dead letters. */
  function Later(s: State, k: Key, work: set<Message>, retry: set<Message>, row: Option<Inbox.Row>,
                 hs: Handlers, tags: nat, served: nat): State
  {
    State(work, retry, {}, if k.EventKey? && row.Some? then s.inbox[k.id := row.value] else s.inbox,
          hs, s.clock, s.nextTag + tags, s.nextHandler + served, s.seen + {k}, s.maxRetries)
  }

  /** The event's message arrives and is delivered to the first handler. */
  lemma Delivered(s: State, body: Body, fault: Action, k: Key)
    requires Init(s) && KeyOf(body) == k
    requires CanLose(Later(s, k, {}, {}, None,
               map[s.nextHandler := Handler(Message(s.nextTag, body, None, false), true, Start)], 1, 1), fault, k)
    ensures CanLose(s, fault, k)
  {
    var m := Message(s.nextTag, body, None, false);
    var s1 := Apply(s, Arrive(body, None));
    assert s1.work == {m};
    assert s1.work - {m} == {};
    Before(s1, Deliver(m), fault, k);
    Before(s, Arrive(body, None), fault, k);
  }

  /** The flagged message is delivered again, to the next handler. */
  lemma Redelivered(s: State, k: Key, m: Message, row: Option<Inbox.Row>, hs: Handlers, tags: nat, served: nat,
                    fault: Action)
    requires CanLose(
      Later(s, k, {}, {}, row, hs[s.nextHandler + served := Handler(m, true, Start)], tags, served + 1), fault, k)
    ensures CanLose(Later(s, k, {m}, {}, row, hs, tags, served), fault, k)
  {
    assert {m} - {m} == {};
    Before(Later(s, k, {m}, {}, row, hs, tags, served), Deliver(m), fault, k);
  }

  /** A handler that fails outside a claim publishes a copy and acknowledges. */
  lemma RetriedAndAcked(s: State, k: Key, h: nat, m: Message, row: Option<Inbox.Row>, hs: Handlers, tags: nat,
                        served: nat, fault: Action)
    requires h !in hs && GetsRetry(m, Transient, s.maxRetries)
    requires CanLose(
      Later(s, k, {}, {RetryCopy(m, ReadRetryCount(m) + 1, s.nextTag + tags)}, row, hs, tags + 1, served), fault, k)
    ensures CanLose(Later(s, k, {}, {}, row, hs[h := Handler(m, true, Failed(Transient))], tags, served), fault, k)
  {
    var s0 := Later(s, k, {}, {}, row, hs[h := Handler(m, true, Failed(Transient))], tags, served);
    var s1 := Apply(s0, PublishRetry(h));
    assert s1.retry == {RetryCopy(m, ReadRetryCount(m) + 1, s.nextTag + tags)};
    assert s1.handlers - {h} == hs;
    Before(s1, Ack(h), fault, k);
    Before(s0, PublishRetry(h), fault, k);
  }

  /** One step of handler `h` that only changes its own entry and perhaps the row. */
  lemma Advanced(s: State, k: Key, h: nat, a: Action, x: Handler, y: Handler,
                 row: Option<Inbox.Row>, row': Option<Inbox.Row>, hs: Handlers, tags: nat, served: nat, fault: Action)
    requires h !in hs && x.Key() == k && k.EventKey?
    requires k.id !in s.inbox
    requires || (a == InsertClaim(h) && x.pc == Start && row == None && row' == Some(Inbox.Processing(s.clock))
                 && y == x.(pc := Working(s.clock)))
             || (a == InsertClaim(h) && x.pc == Start && row.Some? && row' == row && y == x.(pc := Window(s.clock)))
             || (a == WorkRaises(h, Transient) && x.pc.Working? && row' == row && y == x.(pc := Releasing(Transient)))
             || (a == ReleaseRaises(h, false) && x.pc == Releasing(Transient) && row' == row
                && y == x.(pc := Failed(Transient)))
             || (a == ClaimRaises(h, false) && x.pc == Start && row' == row && y == x.(pc := Failed(Transient)))
             || (a == ClaimRaises(h, true) && x.pc == Start && row == None && row' == Some(Inbox.Processing(s.clock))
                && y == x.(pc := Failed(Transient)))
             || (a == Release(h) && x.pc == Releasing(Transient) && row.Some? && row.value.Processing?
                && row' == None && y == x.(pc := Failed(Transient)))
    requires a == fault || Benign(Later(s, k, {}, {}, row, hs[h := x], tags, served), a)
    requires CanLose(Later(s, k, {}, {}, row', hs[h := y], tags, served), fault, k)
    ensures CanLose(Later(s, k, {}, {}, row, hs[h := x], tags, served), fault, k)
  {
    var s0 := Later(s, k, {}, {}, row, hs[h := x], tags, served);
    var s1 := Later(s, k, {}, {}, row', hs[h := y], tags, served);
    assert hs[h := x][h := y] == hs[h := y];
    if row.Some? {
      assert s.inbox[k.id := row.value] - {k.id} == s.inbox;
    }
    assert Apply(s0, a) == s1;
    Before(s0, a, fault, k);
  }

  /** The channel of handler `h` drops, or its process dies: the broker takes the message back. */
  lemma TakenBack(s: State, k: Key, h: nat, x: Handler, row: Option<Inbox.Row>, dies: bool, tags: nat, served: nat,
                  fault: Action)
    requires x.attached
    requires CanLose(Later(s, k, {x.msg.(redelivered := true)}, {}, row,
               if dies then map[] else map[h := x.(attached := false)], tags, served), fault, k)
    ensures CanLose(Later(s, k, {}, {}, row, map[h := x], tags, served), fault, k)
  {
    var s0 := Later(s, k, {}, {}, row, map[h := x], tags, served);
    assert {} + {x.msg.(redelivered := true)} == {x.msg.(redelivered := true)};
    assert map[h := x] - {h} == map[] && map[h := x][h := x.(attached := false)] == map[h := x.(attached := false)];
    Before(s0, if dies then Crash(h) else Detach(h), fault, k);
  }

  /** A handler without a channel dies: nothing goes back to the broker. */
  lemma Vanished(s: State, k: Key, h: nat, x: Handler, retry: set<Message>, row: Option<Inbox.Row>, tags: nat,
                 served: nat, fault: Action)
    requires !x.attached
    requires CanLose(Later(s, k, {}, retry, row, map[], tags, served), fault, k)
    ensures CanLose(Later(s, k, {}, retry, row, map[h := x], tags, served), fault, k)
  {
    assert map[h := x] - {h} == map[];
    Before(Later(s, k, {}, retry, row, map[h := x], tags, served), Crash(h), fault, k);
  }

  /** A copy without the flag meets a fresh processing row, is skipped, and is acknowledged. */
  lemma UnflaggedCopyIsDropped(s: State, k: Key, copy: Message, tags: nat, served: nat, fault: Action)
    requires KeyOf(copy.body) == k && k.EventKey? && !copy.redelivered
    ensures CanLose(Later(s, k, {}, {copy}, Some(Inbox.Processing(s.clock)), map[], tags, served), fault, k)
  {
    var row, h := Some(Inbox.Processing(s.clock)), s.nextHandler + served;
    var s0 := Later(s, k, {}, {copy}, row, map[], tags, served);
    var s1 := Later(s, k, {copy}, {}, row, map[], tags, served);
    var s2 := Later(s, k, {}, {}, row, map[h := Handler(copy, true, Start)], tags, served + 1);
    assert Apply(s0, Expire(copy)) == s1 by {
      assert {copy} - {copy} == {} && {} + {copy} == {copy};
    }
    assert Apply(s1, Deliver(copy)) == s2 by {
      assert {copy} - {copy} == {};
    }
    SkippedAndAcked(s, k, h, copy, row, tags, served + 1, fault);
    Before(s1, Deliver(copy), fault, k);
    Before(s0, Expire(copy), fault, k);
  }

  lemma SkippedAndAcked(s: State, k: Key, h: nat, copy: Message, row: Option<Inbox.Row>, tags: nat, served: nat,
                        fault: Action)
    requires KeyOf(copy.body) == k && k.EventKey? && !copy.redelivered && row == Some(Inbox.Processing(s.clock))
    ensures CanLose(Later(s, k, {}, {}, row, map[h := Handler(copy, true, Start)], tags, served), fault, k)
  {
    var s0 := Later(s, k, {}, {}, row, map[h := Handler(copy, true, Start)], tags, served);
    var s1 := Later(s, k, {}, {}, row, map[h := Handler(copy, true, Window(s.clock))], tags, served);
    assert s0.handlers[h := s1.handlers[h]] == s1.handlers;
    assert Apply(s0, InsertClaim(h)) == s1;
    RefusedAndAcked(s, k, h, copy, row, tags, served, fault);
    Before(s0, InsertClaim(h), fault, k);
  }

  lemma RefusedAndAcked(s: State, k: Key, h: nat, copy: Message, row: Option<Inbox.Row>, tags: nat, served: nat,
                        fault: Action)
    requires KeyOf(copy.body) == k && k.EventKey? && !copy.redelivered && row == Some(Inbox.Processing(s.clock))
    ensures CanLose(Later(s, k, {}, {}, row, map[h := Handler(copy, true, Window(s.clock))], tags, served), fault, k)
  {
    var s0 := Later(s, k, {}, {}, row, map[h := Handler(copy, true, Window(s.clock))], tags, served);
    var s1 := Later(s, k, {}, {}, row, map[h := Handler(copy, true, ToAck(SkippedDuplicate))], tags, served);
    assert s0.handlers[h := s1.handlers[h]] == s1.handlers;
    assert Apply(s0, UpdateClaim(h)) == s1;
    DuplicateAcked(s, k, h, copy, row, tags, served, fault);
    Before(s0, UpdateClaim(h), fault, k);
  }

  lemma DuplicateAcked(s: State, k: Key, h: nat, copy: Message, row: Option<Inbox.Row>, tags: nat, served: nat,
                       fault: Action)
    requires k.EventKey? && row == Some(Inbox.Processing(s.clock))
    ensures CanLose(Later(s, k, {}, {}, row, map[h := Handler(copy, true, ToAck(SkippedDuplicate))], tags, served),
      fault, k)
  {
    var s0 := Later(s, k, {}, {}, row, map[h := Handler(copy, true, ToAck(SkippedDuplicate))], tags, served);
    var s1 := Later(s, k, {}, {}, row, map[], tags, served);
    assert s0.handlers - {h} == map[];
    assert Apply(s0, Ack(h)) == s1;
    Now(s1, fault, k);
    Before(s0, Ack(h), fault, k);
  }

  /** Nothing is left of the event but, perhaps, a processing row. */
  lemma Abandoned(s: State, k: Key, row: Option<Inbox.Row>, tags: nat, served: nat, fault: Action)
    requires k.EventKey? && k.id !in s.inbox && (row.Some? ==> row.value.Processing?)
    ensures CanLose(Later(s, k, {}, {}, row, map[], tags, served), fault, k)
  {
    Now(Later(s, k, {}, {}, row, map[], tags, served), fault, k);
  }

  /** A skipped duplicate is acknowledged while the last holder is without a channel. */
  lemma SkippedWhileDetached(s: State, k: Key, g: nat, h: nat, flagged: Message, x: Handler, tags: nat, served: nat,
                             fault: Action)
    requires g != h && !x.attached && k.EventKey? && k.id !in s.inbox
    ensures CanLose(
      Later(s, k, {}, {}, None, map[h := x, g := Handler(flagged, true, ToAck(SkippedDuplicate))], tags, served),
      fault, k)
  {
    var late := Handler(flagged, true, ToAck(SkippedDuplicate));
    var s0 := Later(s, k, {}, {}, None, map[h := x, g := late], tags, served);
    assert map[h := x, g := late] - {g} == map[h := x];
    assert Apply(s0, Ack(g)) == Later(s, k, {}, {}, None, map[h := x], tags, served);
    LastHolderVanishes(s, k, h, x, tags, served, fault);
    Before(s0, Ack(g), fault, k);
  }

  lemma LastHolderVanishes(s: State, k: Key, h: nat, x: Handler, tags: nat, served: nat, fault: Action)
    requires !x.attached && k.EventKey? && k.id !in s.inbox
    ensures CanLose(Later(s, k, {}, {}, None, map[h := x], tags, served), fault, k)
  {
    Abandoned(s, k, None, tags, served, fault);
    Vanished(s, k, h, x, {}, None, tags, served, fault);
  }

  /** The claim of `g` finds the row gone, counts as a duplicate, and the last holder dies. */
  lemma WindowFindsNothing(s: State, k: Key, g: nat, h: nat, flagged: Message, x: Handler, tags: nat, served: nat,
                           fault: Action)
    requires g != h && !x.attached && KeyOf(flagged.body) == k && k.EventKey? && k.id !in s.inbox
    ensures CanLose(
      Later(s, k, {}, {}, None, map[h := x, g := Handler(flagged, true, Window(s.clock))], tags, served), fault, k)
  {
    var s0 := Later(s, k, {}, {}, None, map[h := x, g := Handler(flagged, true, Window(s.clock))], tags, served);
    var late := Handler(flagged, true, ToAck(SkippedDuplicate));
    assert Apply(s0, UpdateClaim(g)) == Later(s, k, {}, {}, None, map[h := x, g := late], tags, served);
    SkippedWhileDetached(s, k, g, h, flagged, x, tags, served, fault);
    Before(s0, UpdateClaim(g), fault, k);
  }

  /** The release raises: the copy put on the retry queue meets the row left behind. */
  lemma ReleaseFails(s: State, body: Body, h: nat, fault: Action)
    requires FreshStart(s, body) && h == s.nextHandler && fault == ReleaseRaises(h, false)
    ensures CanLose(Later(s, KeyOf(body), {}, {}, Some(Inbox.Processing(s.clock)),
              map[h := Handler(Message(s.nextTag, body, None, false), true, Releasing(Transient))], 1, 1),
      fault, KeyOf(body))
  {
    var k, m, row := KeyOf(body), Message(s.nextTag, body, None, false), Some(Inbox.Processing(s.clock));
    var x, y := Handler(m, true, Releasing(Transient)), Handler(m, true, Failed(Transient));
    UnflaggedCopyIsDropped(s, k, RetryCopy(m, 1, s.nextTag + 1), 2, 1, fault);
    RetriedAndAcked(s, k, h, m, row, map[], 1, 1, fault);
    Advanced(s, k, h, fault, x, y, row, row, map[], 1, 1, fault);
  }

  /** A failing release leaves the row processing, and the retry copy is skipped. */
  lemma FailedReleaseLoses(s: State, body: Body)
    requires FreshStart(s, body)
    ensures CanLose(s, ReleaseRaises(s.nextHandler, false), KeyOf(body))
  {
    var k, h, fault := KeyOf(body), s.nextHandler, ReleaseRaises(s.nextHandler, false);
    var row := Some(Inbox.Processing(s.clock));
    var x := Handler(Message(s.nextTag, body, None, false), true, Start);
    ReleaseFails(s, body, h, fault);
    Advanced(s, k, h, WorkRaises(h, Transient), x.(pc := Working(s.clock)), x.(pc := Releasing(Transient)), row, row,
      map[], 1, 1, fault);
    Advanced(s, k, h, InsertClaim(h), x, x.(pc := Working(s.clock)), None, row, map[], 1, 1, fault);
    Delivered(s, body, fault, k);
  }

  /** The first handler claims the event, and then its message goes back to the broker. */
  lemma HolderTakenBack(s: State, body: Body, h: nat, dies: bool, fault: Action)
    requires FreshStart(s, body) && h == s.nextHandler
    requires CanLose(Later(s, KeyOf(body), {Message(s.nextTag, body, None, true)}, {}, Some(Inbox.Processing(s.clock)),
               if dies then map[]
               else map[h := Handler(Message(s.nextTag, body, None, false), false, Working(s.clock))], 1, 1),
               fault, KeyOf(body))
    ensures CanLose(s, fault, KeyOf(body))
  {
    var k, row := KeyOf(body), Some(Inbox.Processing(s.clock));
    var x := Handler(Message(s.nextTag, body, None, false), true, Start);
    TakenBack(s, k, h, x.(pc := Working(s.clock)), row, dies, 1, 1, fault);
    Advanced(s, k, h, InsertClaim(h), x, x.(pc := Working(s.clock)), None, row, map[], 1, 1, fault);
    Delivered(s, body, fault, k);
  }

  /** After a crash the redelivered message vouches for the orphaned row. When its claim
      raises, the copy that replaces it does not. */
  lemma FailedReclaimLoses(s: State, body: Body)
    requires FreshStart(s, body)
    ensures CanLose(s, ClaimRaises(s.nextHandler + 1, false), KeyOf(body))
  {
    var k, h, g, fault := KeyOf(body), s.nextHandler, s.nextHandler + 1, ClaimRaises(s.nextHandler + 1, false);
    var m := Message(s.nextTag, body, None, false);
    var flagged := m.(redelivered := true);
    var row := Some(Inbox.Processing(s.clock));
    var y := Handler(flagged, true, Start);
    UnflaggedCopyIsDropped(s, k, RetryCopy(flagged, 1, s.nextTag + 1), 2, 2, fault);
    RetriedAndAcked(s, k, g, flagged, row, map[], 1, 2, fault);
    Advanced(s, k, g, fault, y, y.(pc := Failed(Transient)), row, row, map[], 1, 2, fault);
    Redelivered(s, k, flagged, row, map[], 1, 1, fault);
    HolderTakenBack(s, body, h, true, fault);
  }

  /** The insert of a first delivery is applied, and the call raises all the same: the handler does
      not know that it holds the claim, and the copy it publishes meets the row. */
  lemma AppliedInsertLoses(s: State, body: Body)
    requires FreshStart(s, body)
    ensures CanLose(s, ClaimRaises(s.nextHandler, true), KeyOf(body))
  {
    var k, h, fault := KeyOf(body), s.nextHandler, ClaimRaises(s.nextHandler, true);
    var m, row := Message(s.nextTag, body, None, false), Some(Inbox.Processing(s.clock));
    var x := Handler(m, true, Start);
    UnflaggedCopyIsDropped(s, k, RetryCopy(m, 1, s.nextTag + 1), 2, 1, fault);
    RetriedAndAcked(s, k, h, m, row, map[], 1, 1, fault);
    Advanced(s, k, h, fault, x, x.(pc := Failed(Transient)), None, row, map[], 1, 1, fault);
    Delivered(s, body, fault, k);
  }

  /** The same with the update that takes over a row without a status. */
  lemma AppliedUpdateLoses(s: State, body: Body)
    requires Init(s) && body.Event? && body.retryCount == 0 && s.maxRetries >= 2
    requires body.eventId in s.inbox && s.inbox[body.eventId].Legacy?
    ensures CanLose(s, ClaimRaises(s.nextHandler, true), KeyOf(body))
  {
    var k, h, fault := KeyOf(body), s.nextHandler, ClaimRaises(s.nextHandler, true);
    var m, row := Message(s.nextTag, body, None, false), Some(Inbox.Processing(s.clock));
    var x := Handler(m, true, Start);
    UnflaggedCopyIsDropped(s, k, RetryCopy(m, 1, s.nextTag + 1), 2, 1, fault);
    RetriedAndAcked(s, k, h, m, row, map[], 1, 1, fault);
    var s0 := Later(s, k, {}, {}, None, map[h := x], 1, 1);
    var s1 := Later(s, k, {}, {}, None, map[h := x.(pc := Window(s.clock))], 1, 1);
    assert map[h := x][h := x.(pc := Window(s.clock))] == map[h := x.(pc := Window(s.clock))];
    assert Apply(s0, InsertClaim(h)) == s1;
    UpdateApplied(s, k, h, m, fault);
    Before(s0, InsertClaim(h), fault, k);
    Delivered(s, body, fault, k);
  }

  lemma UpdateApplied(s: State, k: Key, h: nat, m: Message, fault: Action)
    requires fault == ClaimRaises(h, true) && m.body.Event? && KeyOf(m.body) == k && !m.redelivered
    requires k.id in s.inbox && s.inbox[k.id].Legacy?
    requires CanLose(
      Later(s, k, {}, {}, Some(Inbox.Processing(s.clock)), map[h := Handler(m, true, Failed(Transient))], 1, 1),
      fault, k)
    ensures CanLose(Later(s, k, {}, {}, None, map[h := Handler(m, true, Window(s.clock))], 1, 1), fault, k)
  {
    var x, y := Handler(m, true, Window(s.clock)), Handler(m, true, Failed(Transient));
    var s0 := Later(s, k, {}, {}, None, map[h := x], 1, 1);
    assert map[h := x][h := y] == map[h := y];
    assert Apply(s0, fault) == Later(s, k, {}, {}, Some(Inbox.Processing(s.clock)), map[h := y], 1, 1);
    Before(s0, fault, fault, k);
  }

  /** The second half: `h`, without a channel, holds the row and `g` is in its window. */
  lemma ReleasedInWindow(s: State, k: Key, h: nat, g: nat, z: Handler, flagged: Message, fault: Action)
    requires fault == Release(h) && g != h && k.EventKey? && k.id !in s.inbox
    requires z.Key() == k && KeyOf(flagged.body) == k && !z.attached && z.pc.Working?
    ensures CanLose(Later(s, k, {}, {}, Some(Inbox.Processing(s.clock)),
              map[h := z, g := Handler(flagged, true, Window(s.clock))], 1, 2), fault, k)
  {
    var row := Some(Inbox.Processing(s.clock));
    var late := Handler(flagged, true, Window(s.clock));
    var releasing, failed := z.(pc := Releasing(Transient)), z.(pc := Failed(Transient));
    WindowFindsNothing(s, k, g, h, flagged, failed, 1, 2, fault);
    Swap(h, failed, g, late);
    Advanced(s, k, h, fault, releasing, failed, row, None, map[g := late], 1, 2, fault);
    Swap(h, releasing, g, late);
    Swap(h, z, g, late);
    Advanced(s, k, h, WorkRaises(h, Transient), z, releasing, row, row, map[g := late], 1, 2, fault);
  }

  /** The same, from the moment the redelivered message is delivered to `g`. */
  lemma WindowOpens(s: State, k: Key, h: nat, g: nat, z: Handler, flagged: Message, fault: Action)
    requires fault == Release(h) && g != h && k.EventKey? && k.id !in s.inbox
    requires z.Key() == k && KeyOf(flagged.body) == k && !z.attached && z.pc.Working?
    ensures CanLose(Later(s, k, {}, {}, Some(Inbox.Processing(s.clock)),
              map[h := z][g := Handler(flagged, true, Start)], 1, 2), fault, k)
  {
    var row := Some(Inbox.Processing(s.clock));
    var y := Handler(flagged, true, Start);
    var late := y.(pc := Window(s.clock));
    ReleasedInWindow(s, k, h, g, z, flagged, fault);
    Swap(h, z, g, late);
    Advanced(s, k, g, InsertClaim(g), y, late, row, row, map[h := z], 1, 2, fault);
  }

  /** A handler without a channel releases the row while the redelivered message is between
      its insert and its find-and-update: that finds no row and is taken for a duplicate. */
  lemma DetachedReleaseLoses(s: State, body: Body)
    requires FreshStart(s, body)
    ensures CanLose(s, Release(s.nextHandler), KeyOf(body))
  {
    var k, h, fault := KeyOf(body), s.nextHandler, Release(s.nextHandler);
    var flagged := Message(s.nextTag, body, None, true);
    var z := Handler(Message(s.nextTag, body, None, false), false, Working(s.clock));
    WindowOpens(s, k, h, h + 1, z, flagged, fault);
    Redelivered(s, k, flagged, Some(Inbox.Processing(s.clock)), map[h := z], 1, 1, fault);
    HolderTakenBack(s, body, h, false, fault);
  }

  lemma Swap(h: nat, x: Handler, g: nat, y: Handler)
    requires h != g
    ensures map[g := y][h := x] == map[h := x][g := y] == map[h := x, g := y]
  {
  }

  /** A handler without a channel is granted the claim and dies: only an unflagged retry copy
      is left, and the row turns it away. */
  lemma DetachedClaimLoses(s: State, body: Body)
    requires FreshStart(s, body)
    ensures CanLose(s, InsertClaim(s.nextHandler), KeyOf(body))
  {
    var k, h, g, fault := KeyOf(body), s.nextHandler, s.nextHandler + 1, InsertClaim(s.nextHandler);
    var m := Message(s.nextTag, body, None, false);
    var flagged := m.(redelivered := true);
    var copy := RetryCopy(flagged, 1, s.nextTag + 1);
    var x, y := Handler(m, true, Start), Handler(flagged, true, Start);
    var z := x.(attached := false);
    ClaimedLate(s, k, h, z, copy, fault);
    RetriedAndAcked(s, k, g, flagged, None, map[h := z], 1, 2, fault);
    Advanced(s, k, g, ClaimRaises(g, false), y, y.(pc := Failed(Transient)), None, None, map[h := z], 1, 2, fault);
    Redelivered(s, k, flagged, None, map[h := z], 1, 1, fault);
    TakenBack(s, k, h, x, None, false, 1, 1, fault);
    Delivered(s, body, fault, k);
  }

  lemma ClaimedLate(s: State, k: Key, h: nat, z: Handler, copy: Message, fault: Action)
    requires fault == InsertClaim(h) && z.pc == Start && z.Key() == k && k.EventKey? && k.id !in s.inbox
    requires KeyOf(copy.body) == k && !copy.redelivered && !z.attached
    ensures CanLose(Later(s, k, {}, {copy}, None, map[h := z], 2, 2), fault, k)
  {
    var working := z.(pc := Working(s.clock));
    HolderVanishes(s, k, h, working, copy, fault);
    var s0 := Later(s, k, {}, {copy}, None, map[h := z], 2, 2);
    assert map[h := z][h := working] == map[h := working];
    assert Apply(s0, fault) == Later(s, k, {}, {copy}, Some(Inbox.Processing(s.clock)), map[h := working], 2, 2);
    Before(s0, fault, fault, k);
  }

  lemma HolderVanishes(s: State, k: Key, h: nat, working: Handler, copy: Message, fault: Action)
    requires k.EventKey? && KeyOf(copy.body) == k && !copy.redelivered && !working.attached
    ensures CanLose(Later(s, k, {}, {copy}, Some(Inbox.Processing(s.clock)), map[h := working], 2, 2), fault, k)
  {
    UnflaggedCopyIsDropped(s, k, copy, 2, 2, fault);
    Vanished(s, k, h, working, {copy}, Some(Inbox.Processing(s.clock)), 2, 2, fault);
  }

  /** Tick is benign, so no fault at all is involved here: a redelivered message never takes a
      row without a status, is skipped, and is acknowledged. Excluding such rows is needed. */
  lemma LegacyRowDropsRedelivery(s: State, body: Body)
    requires Init(s) && body.Event? && body.eventId in s.inbox && s.inbox[body.eventId].Legacy?
    ensures CanLose(s, Tick(0), KeyOf(body))
  {
    var k, h, g, fault := KeyOf(body), s.nextHandler, s.nextHandler + 1, Tick(0);
    var m := Message(s.nextTag, body, None, false);
    var flagged := m.(redelivered := true);
    LegacySkipped(s, k, g, flagged, fault);
    Redelivered(s, k, flagged, None, map[], 1, 1, fault);
    TakenBack(s, k, h, Handler(m, true, Start), None, true, 1, 1, fault);
    Delivered(s, body, fault, k);
  }

  lemma LegacySkipped(s: State, k: Key, g: nat, flagged: Message, fault: Action)
    requires KeyOf(flagged.body) == k && k.EventKey? && flagged.redelivered
    requires k.id in s.inbox && s.inbox[k.id].Legacy?
    ensures CanLose(Later(s, k, {}, {}, None, map[g := Handler(flagged, true, Start)], 1, 2), fault, k)
  {
    var s0 := Later(s, k, {}, {}, None, map[g := Handler(flagged, true, Start)], 1, 2);
    var s1 := Apply(s0, InsertClaim(g));
    var s2 := Apply(s1, UpdateClaim(g));
    var s3 := Apply(s2, Ack(g));
    assert s3.handlers == map[];
    Now(s3, fault, k);
    Before(s2, Ack(g), fault, k);
    Before(s1, UpdateClaim(g), fault, k);
    Before(s0, InsertClaim(g), fault, k);
  }

  // ---- the general case: what an orphaned row leads to

  /** A row in its lease that nobody holds: no handler of the event is left, and all its copies
      are without the flag. */
  ghost predicate Orphaned(s: State, k: Key) {
    && k.EventKey? && k in s.seen && !HasMessage(s.dlq, k)
    && k.id in s.inbox && s.inbox[k.id].Processing? && s.clock <= s.inbox[k.id].claimedAt + CLAIM_STALE_AFTER
    && (forall h :: h in s.handlers ==> h < s.nextHandler && s.handlers[h].Key() != k)
    && (forall m :: m in Copies(s.work, k) + Copies(s.retry, k) ==> !m.redelivered)
  }

  function Copies(ms: set<Message>, k: Key): set<Message> { set m | m in ms && KeyOf(m.body) == k }

  /** A handler that does nothing but take message `m`, be refused, and acknowledge. */
  function Dropped(s: State, m: Message): State {
    s.(work := s.work - {m}, nextHandler := s.nextHandler + 1)
  }

  function Held(s: State, m: Message, pc: Pc): State {
    Dropped(s, m).(handlers := s.handlers[s.nextHandler := Handler(m, true, pc)])
  }

  lemma DropRefused(s: State, k: Key, m: Message, fault: Action)
    requires Orphaned(s, k) && KeyOf(m.body) == k && !m.redelivered && s.nextHandler !in s.handlers
    requires CanLose(Dropped(s, m), fault, k)
    ensures CanLose(Held(s, m, Window(s.clock)), fault, k)
  {
    var h, s0, s1 := s.nextHandler, Held(s, m, Window(s.clock)), Held(s, m, ToAck(SkippedDuplicate));
    assert s0.handlers[h := s1.handlers[h]] == s1.handlers;
    assert Apply(s0, UpdateClaim(h)) == s1;
    assert s1.handlers - {h} == s.handlers;
    assert Apply(s1, Ack(h)) == Dropped(s, m);
    Before(s1, Ack(h), fault, k);
    Before(s0, UpdateClaim(h), fault, k);
  }

  lemma DropCopy(s: State, k: Key, m: Message, fault: Action)
    requires Orphaned(s, k) && m in s.work && KeyOf(m.body) == k && s.nextHandler !in s.handlers
    requires CanLose(Dropped(s, m), fault, k)
    ensures CanLose(s, fault, k)
  {
    var h, s0, s1 := s.nextHandler, Held(s, m, Start), Held(s, m, Window(s.clock));
    assert m in Copies(s.work, k);
    DropRefused(s, k, m, fault);
    assert s0.handlers[h := s1.handlers[h]] == s1.handlers;
    assert Apply(s0, InsertClaim(h)) == s1;
    assert Apply(s, Deliver(m)) == s0;
    Before(s0, InsertClaim(h), fault, k);
    Before(s, Deliver(m), fault, k);
  }

  /** A copy that waits is dropped in two turns. */
  function Remaining(s: State, k: Key): nat {
    2 * |Copies(s.retry, k)| + |Copies(s.work, k)|
  }

  lemma StaysOrphanedByDrop(s: State, k: Key, m: Message)
    requires Orphaned(s, k) && m in s.work && KeyOf(m.body) == k
    ensures Orphaned(Dropped(s, m), k) && s.nextHandler !in s.handlers
    ensures Remaining(Dropped(s, m), k) < Remaining(s, k)
  {
    assert m in Copies(s.work, k);
    assert Copies(Dropped(s, m).work, k) == Copies(s.work, k) - {m};
  }

  lemma StaysOrphanedByExpiry(s: State, k: Key, m: Message)
    requires Orphaned(s, k) && m in s.retry && KeyOf(m.body) == k
    ensures Orphaned(Apply(s, Expire(m)), k)
    ensures Remaining(Apply(s, Expire(m)), k) < Remaining(s, k)
  {
    var t := Apply(s, Expire(m));
    assert m in Copies(s.retry, k);
    assert Copies(t.retry, k) == Copies(s.retry, k) - {m};
    assert Copies(t.work, k) == Copies(s.work, k) + {m};
  }

  /** From every state with an orphaned row, whatever happened before and whatever other events are
      doing, steps that are all benign lose the event: each copy is skipped as a duplicate. */
  lemma {:induction false} OrphanedRowLoses(s: State, k: Key, fault: Action)
    requires Orphaned(s, k)
    ensures CanLose(s, fault, k)
    decreases Remaining(s, k)
  {
    if m :| m in s.work && KeyOf(m.body) == k {
      StaysOrphanedByDrop(s, k, m);
      OrphanedRowLoses(Dropped(s, m), k, fault);
      DropCopy(s, k, m, fault);
    } else if m :| m in s.retry && KeyOf(m.body) == k {
      StaysOrphanedByExpiry(s, k, m);
      OrphanedRowLoses(Apply(s, Expire(m)), k, fault);
      Before(s, Expire(m), fault, k);
    } else {
      Now(s, fault, k);
    }
  }
}
