/** Retry accounting: how a failed delivery is settled, and how long a lineage of retry
    copies can get. */
module Retry {
  import opened Types

  /** A broker message. `tag` tells copies apart; `header` is the retry-count header. */
  datatype Message = Message(tag: nat, body: Body, header: Option<int>, redelivered: bool)

  /** What reaches the message callback: a body that does not parse, an error marked
      non-retryable, or any other exception. */
  datatype Failure = Poison | Permanent | Transient

  datatype Settlement =
    | Acked
    | Retried(copy: Message, delaySec: real)
    | Rejected(reportedCount: int)

  /** Header first, then the body's own counter, then zero. */
  function ReadRetryCount(m: Message): int {
    match m.header
    case Some(n) => n
    case None => if m.body.Event? then m.body.retryCount else 0
  }

  function Pow2(n: nat): nat {
    if n == 0 then 1 else 2 * Pow2(n - 1)
  }

  function MinReal(a: real, b: real): real { if a <= b then a else b }

  function RetryDelaySec(retryCount: int, base: real, cap: real): real {
    MinReal(cap, base * Pow2(if retryCount >= 1 then retryCount - 1 else 0) as real)
  }

  /** `int()` of a float: toward zero. */
  function Truncate(x: real): int {
    if x >= 0.0 then x.Floor else -(-x).Floor
  }

  /** The TTL of the retry copy, in milliseconds. */
  function ExpirationMs(delaySec: real): int {
    var ms := Truncate(delaySec * 1000.0);
    if ms >= 1 then ms else 1
  }

  /** The copy put on the retry queue: the body is re-serialised with the new count when it
      parses, and left alone when it does not. */
  function RetryCopy(m: Message, count: int, tag: nat): Message {
    var body := if m.body.Event? then m.body.(retryCount := count) else m.body;
    Message(tag, body, Some(count), false)
  }

  /** Whether a failure gets another attempt. */
  predicate GetsRetry(m: Message, failure: Failure, maxRetries: int) {
    failure.Transient? && ReadRetryCount(m) + 1 < maxRetries
  }

  /** The count reported with the failure event when no further attempt is made. */
  function ReportedCount(m: Message, failure: Failure): int {
    if failure.Transient? then ReadRetryCount(m) + 1 else ReadRetryCount(m)
  }

  datatype Policy = Policy(maxRetries: int, baseDelay: real, maxDelay: real)

  function Settle(m: Message, outcome: Option<Failure>, policy: Policy): Settlement {
    match outcome
    case None => Acked
    case Some(failure) =>
      if GetsRetry(m, failure, policy.maxRetries) then
        var next := ReadRetryCount(m) + 1;
        Retried(RetryCopy(m, next, m.tag + 1), RetryDelaySec(next, policy.baseDelay, policy.maxDelay))
      else
        Rejected(ReportedCount(m, failure))
  }

  /** Everything that becomes of one message without crashes: `outcomes(i)` is the result of
      the i-th handling of it or of its copies. */
  function Lineage(m: Message, outcomes: nat -> Option<Failure>, i: nat, policy: Policy): (r: seq<Settlement>)
    ensures r != []
    decreases policy.maxRetries - ReadRetryCount(m)
  {
    var s := Settle(m, outcomes(i), policy);
    if s.Retried? then [s] + Lineage(s.copy, outcomes, i + 1, policy) else [s]
  }

  function Max(a: int, b: int): int { if a >= b then a else b }

  /** A lineage is finite and short: it is handled at most max(1, N - count) times, every
      handling but the last leaves a copy, and the last one acks or rejects. */
  lemma {:induction false} LineageTerminates(m: Message, outcomes: nat -> Option<Failure>, i: nat, policy: Policy)
    ensures var r := Lineage(m, outcomes, i, policy);
      && |r| <= Max(1, policy.maxRetries - ReadRetryCount(m))
      && (forall j :: 0 <= j < |r| - 1 ==> r[j].Retried?)
      && !r[|r| - 1].Retried?
    decreases policy.maxRetries - ReadRetryCount(m)
  {
    var s := Settle(m, outcomes(i), policy);
    if s.Retried? {
      LineageTerminates(s.copy, outcomes, i + 1, policy);
    }
  }

  /** The j-th copy carries count c + j + 1, in the header and in the re-serialised body
      alike; the event id and listing are those of the first message. */
  lemma {:induction false} LineageCountsAgree(m: Message, outcomes: nat -> Option<Failure>, i: nat, policy: Policy,
                                              j: nat)
    requires j < |Lineage(m, outcomes, i, policy)| && Lineage(m, outcomes, i, policy)[j].Retried?
    ensures var copy := Lineage(m, outcomes, i, policy)[j].copy;
      && copy.header == Some(ReadRetryCount(m) + j + 1)
      && !copy.redelivered
      && (m.body.Event? ==> copy.body == m.body.(retryCount := ReadRetryCount(m) + j + 1))
      && (m.body.Malformed? ==> copy.body == m.body)
    decreases j
  {
    var s := Settle(m, outcomes(i), policy);
    if j > 0 {
      LineageCountsAgree(s.copy, outcomes, i + 1, policy, j - 1);
    }
  }

  /** The count a message carries: the header's, or without a header the body's own, or zero. */
  lemma CountSources(m: Message)
    ensures m.header.Some? ==> ReadRetryCount(m) == m.header.value
    ensures m.header.None? && m.body.Event? ==> ReadRetryCount(m) == m.body.retryCount
    ensures m.header.None? && m.body.Malformed? ==> ReadRetryCount(m) == 0
  {
  }

  /** Only a transient failure is retried, and only while the next count is below the maximum. */
  lemma RetriedIff(m: Message, outcome: Option<Failure>, policy: Policy)
    ensures Settle(m, outcome, policy).Retried? <==>
      outcome == Some(Transient) && ReadRetryCount(m) + 1 < policy.maxRetries
  {
  }

  /** A whole lineage, read off the outcomes of its handlings. All but the last are transient
      failures with a count to spare, each answered by a copy that waits its time. The last is a
      success, which is acknowledged; an error that is permanent or a malformed body, which is
      dead-lettered at the count it came with; or a transient failure at the maximum, which is
      dead-lettered with its own attempt counted. */
  lemma {:induction false} LineageIsItsOutcomes(m: Message, outcomes: nat -> Option<Failure>, i: nat, policy: Policy,
                                                j: nat)
    requires j < |Lineage(m, outcomes, i, policy)|
    ensures var r, c := Lineage(m, outcomes, i, policy), ReadRetryCount(m) + j;
      && (j < |r| - 1 <==> outcomes(i + j) == Some(Transient) && c + 1 < policy.maxRetries)
      && (j < |r| - 1 ==>
            r[j].Retried? && r[j].delaySec == RetryDelaySec(c + 1, policy.baseDelay, policy.maxDelay))
      && (outcomes(i + j) == None ==> r[j] == Acked)
      && (outcomes(i + j) == Some(Permanent) ==> r[j] == Rejected(c))
      && (outcomes(i + j) == Some(Poison) ==> r[j] == Rejected(c))
      && (outcomes(i + j) == Some(Transient) && c + 1 >= policy.maxRetries ==> r[j] == Rejected(c + 1))
    decreases j
  {
    var s := Settle(m, outcomes(i), policy);
    if j > 0 {
      LineageIsItsOutcomes(s.copy, outcomes, i + 1, policy, j - 1);
    }
  }

  /** In particular an error that is not retryable is handled once and dead-lettered. */
  lemma NotRetryableIsRejected(m: Message, outcomes: nat -> Option<Failure>, i: nat, policy: Policy)
    requires outcomes(i) == Some(Permanent) || outcomes(i) == Some(Poison)
    ensures Lineage(m, outcomes, i, policy) == [Rejected(ReadRetryCount(m))]
  {
    LineageIsItsOutcomes(m, outcomes, i, policy, 0);
  }

  function TotalDelay(r: seq<Settlement>): real {
    if r == [] then 0.0
    else (if r[0].Retried? then r[0].delaySec else 0.0) + TotalDelay(r[1..])
  }

  /** The uncapped wait before retry n + 1. */
  function Wait(n: nat, base: real): real { base * Pow2(n) as real }

  /** Waiting `base * 2^n` twice is waiting `base * 2^(n+1)`. */
  lemma BackoffDoubles(n: nat, base: real)
    ensures Wait(n, base) + Wait(n, base) == Wait(n + 1, base)
  {
    assert Pow2(n + 1) as real == 2.0 * Pow2(n) as real;
    assert base * (2.0 * Pow2(n) as real) == base * Pow2(n) as real + base * Pow2(n) as real;
  }

  lemma {:induction false} BackoffMonotone(a: nat, b: nat, base: real)
    requires a <= b && base >= 0.0
    ensures Wait(a, base) <= Wait(b, base)
    decreases b - a
  {
    if a < b {
      BackoffDoubles(a, base);
      assert Wait(a, base) >= 0.0;
      BackoffMonotone(a + 1, b, base);
    }
  }

  lemma AddOneCap(cap: real, n: int, d: real, rest: real)
    requires d <= cap && rest <= cap * (n - 1) as real
    ensures d + rest <= cap * n as real
  {
    assert n as real == (n - 1) as real + 1.0;
    assert cap * n as real == cap * (n - 1) as real + cap;
  }

  /** What a lineage that is retried waits: once for the copy, then what the copy waits. */
  lemma DelayUnrolls(m: Message, outcomes: nat -> Option<Failure>, i: nat, policy: Policy)
    requires Settle(m, outcomes(i), policy).Retried?
    ensures var s := Settle(m, outcomes(i), policy);
      && TotalDelay(Lineage(m, outcomes, i, policy))
           == s.delaySec + TotalDelay(Lineage(s.copy, outcomes, i + 1, policy))
      && ReadRetryCount(s.copy) == ReadRetryCount(m) + 1 < policy.maxRetries
      && s.delaySec <= policy.maxDelay
      && (ReadRetryCount(m) >= 0 ==> s.delaySec <= Wait(ReadRetryCount(m), policy.baseDelay))
  {
    var s := Settle(m, outcomes(i), policy);
    assert Lineage(m, outcomes, i, policy)[1..] == Lineage(s.copy, outcomes, i + 1, policy);
  }

  lemma NothingToWait(m: Message, outcomes: nat -> Option<Failure>, i: nat, policy: Policy)
    requires !Settle(m, outcomes(i), policy).Retried?
    ensures TotalDelay(Lineage(m, outcomes, i, policy)) == 0.0
  {
    assert Lineage(m, outcomes, i, policy)[1..] == [];
  }

  /** The waits left from count c on are each at most the cap. */
  lemma {:induction false} CappedDelay(m: Message, outcomes: nat -> Option<Failure>, i: nat, policy: Policy)
    requires policy.maxDelay >= 0.0 && ReadRetryCount(m) < policy.maxRetries
    ensures TotalDelay(Lineage(m, outcomes, i, policy)) <=
      policy.maxDelay * (policy.maxRetries - 1 - ReadRetryCount(m)) as real
    decreases policy.maxRetries - ReadRetryCount(m)
  {
    var n := policy.maxRetries - 1 - ReadRetryCount(m);
    var s := Settle(m, outcomes(i), policy);
    if s.Retried? {
      DelayUnrolls(m, outcomes, i, policy);
      CappedDelay(s.copy, outcomes, i + 1, policy);
      AddOneCap(policy.maxDelay, n, s.delaySec, TotalDelay(Lineage(s.copy, outcomes, i + 1, policy)));
    } else {
      NothingToWait(m, outcomes, i, policy);
      assert policy.maxDelay * n as real >= 0.0;
    }
  }

  /** The waits left from count c on telescope: base * (2^(N-1) - 2^c). */
  lemma {:induction false} DoublingDelay(m: Message, outcomes: nat -> Option<Failure>, i: nat, policy: Policy)
    requires policy.baseDelay >= 0.0 && 0 <= ReadRetryCount(m) < policy.maxRetries
    ensures TotalDelay(Lineage(m, outcomes, i, policy)) + Wait(ReadRetryCount(m), policy.baseDelay)
         <= Wait(policy.maxRetries - 1, policy.baseDelay)
    decreases policy.maxRetries - ReadRetryCount(m)
  {
    var c := ReadRetryCount(m);
    var s := Settle(m, outcomes(i), policy);
    if s.Retried? {
      DelayUnrolls(m, outcomes, i, policy);
      DoublingDelay(s.copy, outcomes, i + 1, policy);
      BackoffDoubles(c, policy.baseDelay);
    } else {
      NothingToWait(m, outcomes, i, policy);
      BackoffMonotone(c, policy.maxRetries - 1, policy.baseDelay);
    }
  }

  lemma LessFirstWait(n: nat, base: real)
    ensures base * (Pow2(n) as real - 1.0) == Wait(n, base) - Wait(0, base)
  {
    var p := Pow2(n) as real;
    assert base * (p - 1.0) == base * p - base;
    assert Wait(0, base) == base;
  }

  /** Every one of the N - 1 waits at the cap. */
  function CapBound(policy: Policy): real { policy.maxDelay * (policy.maxRetries - 1) as real }

  /** The N - 1 waits base, 2 base, 4 base, ... */
  function DoublingBound(policy: Policy): real
    requires policy.maxRetries >= 1
  {
    policy.baseDelay * (Pow2(policy.maxRetries - 1) as real - 1.0)
  }

  lemma TotalUnderCaps(m: Message, outcomes: nat -> Option<Failure>, policy: Policy)
    requires ReadRetryCount(m) == 0 && policy.maxRetries >= 1 && policy.maxDelay >= 0.0
    ensures TotalDelay(Lineage(m, outcomes, 0, policy)) <= CapBound(policy)
  {
    CappedDelay(m, outcomes, 0, policy);
    assert policy.maxRetries - 1 - ReadRetryCount(m) == policy.maxRetries - 1;
  }

  lemma TotalUnderDoubling(m: Message, outcomes: nat -> Option<Failure>, policy: Policy)
    requires ReadRetryCount(m) == 0 && policy.maxRetries >= 1 && policy.baseDelay >= 0.0
    ensures TotalDelay(Lineage(m, outcomes, 0, policy)) <= DoublingBound(policy)
  {
    DoublingDelay(m, outcomes, 0, policy);
    LessFirstWait(policy.maxRetries - 1, policy.baseDelay);
  }

  /** Total requested delay of a message that starts at count zero. */
  lemma TotalDelayBound(m: Message, outcomes: nat -> Option<Failure>, policy: Policy)
    requires ReadRetryCount(m) == 0 && policy.maxRetries >= 1
    requires policy.baseDelay >= 0.0 && policy.maxDelay >= 0.0
    ensures TotalDelay(Lineage(m, outcomes, 0, policy)) <= policy.maxDelay * (policy.maxRetries - 1) as real
    ensures TotalDelay(Lineage(m, outcomes, 0, policy)) <=
      policy.baseDelay * (Pow2(policy.maxRetries - 1) as real - 1.0)
  {
    TotalUnderCaps(m, outcomes, policy);
    TotalUnderDoubling(m, outcomes, policy);
  }

  /** The schedule, without powers: the base wait first, then twice the wait before, up to the cap. */
  lemma DelayDoublesUntilCap(n: nat, base: real, cap: real)
    requires n >= 1 && base >= 0.0 && cap >= 0.0
    ensures RetryDelaySec(1, base, cap) == MinReal(cap, base)
    ensures RetryDelaySec(n + 1, base, cap) == MinReal(cap, RetryDelaySec(n, base, cap) + RetryDelaySec(n, base, cap))
  {
    BackoffDoubles(n - 1, base);
    assert Wait(0, base) == base;
    assert RetryDelaySec(n, base, cap) == MinReal(cap, Wait(n - 1, base));
    assert RetryDelaySec(n + 1, base, cap) == MinReal(cap, Wait(n, base));
    assert Wait(n - 1, base) >= 0.0;
  }

  function AlwaysFails(i: nat): Option<Failure> { Some(Transient) }

  lemma {:induction false} AlwaysFailsLength(m: Message, i: nat, policy: Policy)
    requires ReadRetryCount(m) < policy.maxRetries
    ensures |Lineage(m, AlwaysFails, i, policy)| == policy.maxRetries - ReadRetryCount(m)
    decreases policy.maxRetries - ReadRetryCount(m)
  {
    var s := Settle(m, AlwaysFails(i), policy);
    if s.Retried? {
      AlwaysFailsLength(s.copy, i + 1, policy);
    }
  }

  /** Below the cap a copy waits the uncapped time. */
  lemma WaitsUncapped(m: Message, i: nat, policy: Policy)
    requires policy.baseDelay >= 0.0 && 0 <= ReadRetryCount(m) && ReadRetryCount(m) + 1 < policy.maxRetries
    requires Wait(policy.maxRetries - 2, policy.baseDelay) <= policy.maxDelay
    ensures var s := Settle(m, AlwaysFails(i), policy);
      s.Retried? && s.delaySec == Wait(ReadRetryCount(m), policy.baseDelay)
  {
    BackoffMonotone(ReadRetryCount(m), policy.maxRetries - 2, policy.baseDelay);
  }

  /** The bounds are met: a message that keeps failing is handled N - count times, and while the cap
      is not reached it waits exactly the doubling bound. */
  lemma {:induction false} BoundsAreTight(m: Message, i: nat, policy: Policy)
    requires policy.baseDelay >= 0.0 && 0 <= ReadRetryCount(m) < policy.maxRetries
    requires policy.maxRetries >= 2 ==> Wait(policy.maxRetries - 2, policy.baseDelay) <= policy.maxDelay
    ensures |Lineage(m, AlwaysFails, i, policy)| == policy.maxRetries - ReadRetryCount(m)
    ensures TotalDelay(Lineage(m, AlwaysFails, i, policy)) + Wait(ReadRetryCount(m), policy.baseDelay)
         == Wait(policy.maxRetries - 1, policy.baseDelay)
    decreases policy.maxRetries - ReadRetryCount(m)
  {
    var c := ReadRetryCount(m);
    var s := Settle(m, AlwaysFails(i), policy);
    AlwaysFailsLength(m, i, policy);
    if s.Retried? {
      DelayUnrolls(m, AlwaysFails, i, policy);
      BoundsAreTight(s.copy, i + 1, policy);
      BackoffDoubles(c, policy.baseDelay);
      WaitsUncapped(m, i, policy);
    } else {
      NothingToWait(m, AlwaysFails, i, policy);
    }
  }

  /** The TTL never exceeds the requested delay, except that it is at least one millisecond,
      and falls short of it by less than a millisecond. */
  lemma ExpirationTracksDelay(delaySec: real)
    requires delaySec >= 0.0
    ensures 1 <= ExpirationMs(delaySec)
    ensures delaySec * 1000.0 >= 1.0 ==>
      delaySec * 1000.0 - 1.0 < ExpirationMs(delaySec) as real <= delaySec * 1000.0
    ensures delaySec * 1000.0 < 1.0 ==> ExpirationMs(delaySec) == 1
  {
    var x := delaySec * 1000.0;
    assert x >= 0.0;
    assert x.Floor as real <= x < (x.Floor + 1) as real;
  }
}
