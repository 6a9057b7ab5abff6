/** When a retry can run: the backoff delays add up, whatever the interleaving of waiting hops and crashes. */
module ExecutorTiming {
  import opened Options
  import opened ExecutorProtocol

  /** The delays before the execution that carries `retries`. */
  function TotalDelay(ex: Executor, retries: nat): int {
    if retries == 0 then 0 else TotalDelay(ex, retries - 1) + ex.backoff(retries - 1)
  }

  predicate Elapsed(ex: Executor, firstFailure: Option<int>, retries: nat, at: int) {
    firstFailure.Some? && firstFailure.value + TotalDelay(ex, retries) <= at
  }

  /** A copy in the retry queue is not due before its delays are over; one past it has waited them out. */
  predicate CopyTimed(ex: Executor, now: int, c: Copy) {
    c.place.Queued? || c.place.Unacked? ==>
      match c.place.queue
      case Process =>
        if c.msg.retries == 0 then c.firstFailure.None?
        else Elapsed(ex, c.firstFailure, c.msg.retries, now)
      case Retry => c.msg.retries > 0 && Elapsed(ex, c.firstFailure, c.msg.retries, c.msg.processAfter)
      case Dead => c.msg.retries == 0
  }

  predicate EventTimed(ex: Executor, e: Event) {
    e.Executed? && e.retries > 0 ==> Elapsed(ex, e.firstFailure, e.retries, e.at)
  }

  predicate AllTimed(ex: Executor, s: State) {
    && (forall i :: 0 <= i < |s.copies| ==> CopyTimed(ex, s.now, s.copies[i]))
    && (forall i :: 0 <= i < |s.log| ==> EventTimed(ex, s.log[i]))
  }

  lemma SuccessorTimed(ex: Executor, c: Copy, queue: Queue, failure: Failure, now: int)
    requires c.place == Unacked(queue, Started) && CopyTimed(ex, now, c)
    ensures
      var pub := Successor(ex, queue, c.msg, failure, now);
      CopyTimed(ex, now, Copy(c.id, pub.msg, Queued(pub.queue), NextFirstFailure(c, queue, pub.queue, now)))
  {
  }

  lemma ActKeepsTimed(ex: Executor, now: int, c: Copy, a: Action)
    requires CopyTimed(ex, now, c)
    ensures CopyTimed(ex, now, Act(ex, now, c, a).copy)
    ensures forall d :: d in Act(ex, now, c, a).successor ==> CopyTimed(ex, now, d)
    ensures forall e :: e in Act(ex, now, c, a).events ==> EventTimed(ex, e)
  {
    if a.Forward? && c.place.Unacked? && c.place.progress == Started {
      SuccessorTimed(ex, c, c.place.queue, a.failure, now);
    }
  }

  lemma AdvanceKeepsTimed(ex: Executor, s: State, i: nat, out: Outcome)
    requires AllTimed(ex, s) && i < |s.copies|
    requires CopyTimed(ex, s.now, out.copy)
    requires forall d :: d in out.successor ==> CopyTimed(ex, s.now, d)
    requires forall e :: e in out.events ==> EventTimed(ex, e)
    ensures AllTimed(ex, Advance(s, i, out))
  {
  }

  lemma {:induction false} RunTimed(ex: Executor, start: int, steps: seq<Step>)
    ensures AllTimed(ex, Run(ex, start, steps))
  {
    if steps != [] {
      var before := steps[..|steps| - 1];
      RunTimed(ex, start, before);
      var s, step := Run(ex, start, before), steps[|steps| - 1];
      match step
      case Accept(_, _) =>
      case Tick(_) =>
        forall i | 0 <= i < |s.copies|
          ensures CopyTimed(ex, Apply(ex, s, step).now, s.copies[i])
        {
          assert CopyTimed(ex, s.now, s.copies[i]);
        }
      case At(i, a) =>
        if i < |s.copies| {
          ActKeepsTimed(ex, s.now, s.copies[i], a);
          AdvanceKeepsTimed(ex, s, i, Act(ex, s.now, s.copies[i], a));
        }
    }
  }

  /* The backoff that ProcessTx and SaveTxOfInterest pass. */

  function Pow2(n: nat): nat {
    if n == 0 then 1 else 2 * Pow2(n - 1)
  }

  const MIN_DELAY_IN_S := 60

  function TxBackoff(): nat -> int {
    (retry: nat) => (Pow2(retry) + MIN_DELAY_IN_S) * 1000
  }

  lemma {:induction false} TxDelays(ex: Executor, retries: nat)
    requires ex.backoff == TxBackoff()
    ensures TotalDelay(ex, retries) == (Pow2(retries) - 1 + 60 * retries) * 1000
  {
    if retries > 0 {
      TxDelays(ex, retries - 1);
    }
  }

  /**
   * Over every run, the execution that carries `retries` = j > 0 starts no earlier than (2^j - 1 + 60j) seconds
   * after the first failure since the message entered the process queue. This is what the backoff promises wherever
   * it retries; in the repository's own topology the two executors that pass it never do (ExecutorRouting).
   */
  lemma TxRetriesSpaced(ex: Executor, start: int, steps: seq<Step>, e: Event)
    requires ex.backoff == TxBackoff()
    requires e in Run(ex, start, steps).log && e.Executed? && e.retries > 0
    ensures e.firstFailure.Some?
    ensures e.at - e.firstFailure.value >= (Pow2(e.retries) - 1 + 60 * e.retries) * 1000
  {
    RunTimed(ex, start, steps);
    TxDelays(ex, e.retries);
  }

  /* The default backoff, which SaveToken and SaveWallet use: floor(2^(1.5 retry) 1000) + 5000, in exact arithmetic. */

  function Pow8(n: nat): nat {
    if n == 0 then 1 else 8 * Pow8(n - 1)
  }

  /** The integer square root. */
  function Root(n: nat): nat {
    if n == 0 then 0
    else
      var r := Root(n - 1);
      if (r + 1) * (r + 1) <= n then r + 1 else r
  }

  /** 2^(1.5 retry) 1000 is the square root of 8^retry 10^6. */
  function DefaultDelay(retry: nat): int {
    Root(Pow8(retry) * 1000000) + 5000
  }

  ghost predicate DefaultBackoff(ex: Executor) {
    forall retry: nat :: ex.backoff(retry) == DefaultDelay(retry)
  }

  lemma {:induction false} RootBounds(n: nat)
    ensures Root(n) * Root(n) <= n < (Root(n) + 1) * (Root(n) + 1)
  {
    if n > 0 {
      RootBounds(n - 1);
      var r := Root(n - 1);
      assert (r + 2) * (r + 2) > (r + 1) * (r + 1);
    }
  }

  lemma SquaresGrow(a: nat, b: nat)
    requires a <= b
    ensures a * a <= b * b
  {
  }

  lemma RootAtLeast(a: nat, n: nat)
    requires a * a <= n
    ensures a <= Root(n)
  {
    RootBounds(n);
    if a > Root(n) {
      SquaresGrow(Root(n) + 1, a);
    }
  }

  lemma SquareOfProduct(c: nat, p: nat)
    ensures (c * p) * (c * p) == (c * c) * (p * p)
  {
    assert (c * p) * (c * p) == c * (p * (c * p)) == c * (c * (p * p)) == (c * c) * (p * p);
  }

  lemma RootOfMultiple(c: nat, m: nat, p: nat)
    requires c * c <= m
    ensures c * p <= Root(m * (p * p))
  {
    SquareOfProduct(c, p);
    assert (c * c) * (p * p) <= m * (p * p);
    RootAtLeast(c * p, m * (p * p));
  }

  lemma {:induction false} Pow8Square(k: nat)
    ensures Pow8(2 * k) == Pow8(k) * Pow8(k)
  {
    if k > 0 {
      Pow8Square(k - 1);
      var p := Pow8(k - 1);
      assert Pow8(2 * k) == 8 * Pow8(2 * k - 1) == 64 * (p * p);
      SquareOfProduct(8, p);
    }
  }

  /** Two delays in a row: 8^k seconds, and 2.828 times that; 5 seconds more each. */
  predicate TwoDelays(ex: Executor, k: nat) {
    ex.backoff(2 * k) >= 1000 * Pow8(k) + 5000 && ex.backoff(2 * k + 1) >= 2828 * Pow8(k) + 5000
  }

  lemma DefaultDelays(ex: Executor, k: nat)
    requires DefaultBackoff(ex)
    ensures TwoDelays(ex, k)
  {
    var p := Pow8(k);
    var square := p * p;
    Pow8Square(k);
    assert Pow8(2 * k + 1) == 8 * square;
    RootOfMultiple(1000, 1000000, p);
    RootOfMultiple(2828, 8000000, p);
    assert Pow8(2 * k) * 1000000 == 1000000 * square && Pow8(2 * k + 1) * 1000000 == 8000000 * square;
  }

  lemma {:induction false} DelaysAddUp(ex: Executor, k: nat)
    requires forall i: nat :: TwoDelays(ex, i)
    ensures 7 * TotalDelay(ex, 2 * k) >= 3828 * (Pow8(k) - 1) + 70000 * k
  {
    if k > 0 {
      var i := k - 1;
      DelaysAddUp(ex, i);
      assert TwoDelays(ex, i) && Pow8(k) == 8 * Pow8(i);
      assert TotalDelay(ex, 2 * i + 1) == TotalDelay(ex, 2 * i) + ex.backoff(2 * i);
      assert TotalDelay(ex, 2 * k) == TotalDelay(ex, 2 * i + 1) + ex.backoff(2 * i + 1);
    }
  }

  /** Seven times the delays before the execution that carries `retries`, at least. */
  function SevenDelays(retries: nat): int {
    3828 * (Pow8(retries / 2) - 1) + 35000 * retries + if retries % 2 == 1 then 7000 * Pow8(retries / 2) else 0
  }

  lemma DelaysTotal(ex: Executor, retries: nat)
    requires forall i: nat :: TwoDelays(ex, i)
    ensures 7 * TotalDelay(ex, retries) >= SevenDelays(retries)
  {
    var k := retries / 2;
    DelaysAddUp(ex, k);
    if retries % 2 == 1 {
      assert TwoDelays(ex, k) && retries == 2 * k + 1;
      assert TotalDelay(ex, retries) == TotalDelay(ex, 2 * k) + ex.backoff(2 * k);
    } else {
      assert retries == 2 * k;
    }
  }

  /** The default backoff is 5 seconds and the whole milliseconds of 2^(1.5 retry) seconds: the root of 8^retry 10^6. */
  lemma DefaultBackoffExact(ex: Executor, retry: nat)
    requires DefaultBackoff(ex)
    ensures
      var d := ex.backoff(retry) - 5000;
      d >= 0 && d * d <= Pow8(retry) * 1000000 < (d + 1) * (d + 1)
  {
    RootBounds(Pow8(retry) * 1000000);
    assert ex.backoff(retry) == DefaultDelay(retry);
  }

  lemma SquaresGrowStrictly(a: nat, b: nat)
    requires a < b
    ensures a * a < b * b
  {
    assert b * b == a * a + (b - a) * (b + a);
  }

  lemma RootAtMost(a: nat, n: nat)
    requires n <= a * a
    ensures Root(n) <= a
  {
    var r := Root(n);
    RootBounds(n);
    if a < r {
      SquaresGrowStrictly(a, r);
    }
  }

  lemma RootOfMultipleAtMost(c: nat, m: nat, p: nat)
    requires m <= c * c
    ensures Root(m * (p * p)) <= c * p
  {
    SquareOfProduct(c, p);
    assert m * (p * p) <= (c * c) * (p * p);
    RootAtMost(c * p, m * (p * p));
  }

  predicate TwoDelaysAtMost(ex: Executor, k: nat) {
    ex.backoff(2 * k) <= 1000 * Pow8(k) + 5000 && ex.backoff(2 * k + 1) <= 2829 * Pow8(k) + 5000
  }

  lemma DefaultDelaysAtMost(ex: Executor, k: nat)
    requires DefaultBackoff(ex)
    ensures TwoDelaysAtMost(ex, k)
  {
    var p := Pow8(k);
    var square := p * p;
    Pow8Square(k);
    assert Pow8(2 * k + 1) == 8 * square;
    RootOfMultipleAtMost(1000, 1000000, p);
    RootOfMultipleAtMost(2829, 8000000, p);
    assert Pow8(2 * k) * 1000000 == 1000000 * square && Pow8(2 * k + 1) * 1000000 == 8000000 * square;
  }

  lemma {:induction false} DelaysAddUpAtMost(ex: Executor, k: nat)
    requires forall i: nat :: TwoDelaysAtMost(ex, i)
    ensures 7 * TotalDelay(ex, 2 * k) <= 3829 * (Pow8(k) - 1) + 70000 * k
  {
    if k > 0 {
      var i := k - 1;
      DelaysAddUpAtMost(ex, i);
      assert TwoDelaysAtMost(ex, i) && Pow8(k) == 8 * Pow8(i);
      assert TotalDelay(ex, 2 * i + 1) == TotalDelay(ex, 2 * i) + ex.backoff(2 * i);
      assert TotalDelay(ex, 2 * k) == TotalDelay(ex, 2 * i + 1) + ex.backoff(2 * i + 1);
    }
  }

  lemma DelaysTotalAtMost(ex: Executor, retries: nat)
    requires forall i: nat :: TwoDelaysAtMost(ex, i)
    ensures 7 * TotalDelay(ex, retries) <= SevenDelays(retries) + Pow8(retries / 2) - 1
  {
    var k := retries / 2;
    DelaysAddUpAtMost(ex, k);
    if retries % 2 == 1 {
      assert TwoDelaysAtMost(ex, k) && retries == 2 * k + 1;
      assert TotalDelay(ex, retries) == TotalDelay(ex, 2 * k) + ex.backoff(2 * k);
    } else {
      assert retries == 2 * k;
    }
  }

  /** The delays before the execution that carries `retries`, up to a seventh of 8^(retries / 2) milliseconds. */
  lemma DefaultDelaysTotal(ex: Executor, retries: nat)
    requires DefaultBackoff(ex)
    ensures SevenDelays(retries) <= 7 * TotalDelay(ex, retries) <= SevenDelays(retries) + Pow8(retries / 2) - 1
  {
    forall i: nat
      ensures TwoDelays(ex, i) && TwoDelaysAtMost(ex, i)
    {
      DefaultDelays(ex, i);
      DefaultDelaysAtMost(ex, i);
    }
    DelaysTotal(ex, retries);
    DelaysTotalAtMost(ex, retries);
  }

  /**
   * Over every run, the execution that carries `retries` = j starts at least 3.828 (8^k - 1) / 7 + 5j seconds after
   * the first failure, where k = j / 2, and 8^k seconds later still for odd j.
   */
  lemma DefaultRetriesSpaced(ex: Executor, start: int, steps: seq<Step>, e: Event)
    requires DefaultBackoff(ex)
    requires e in Run(ex, start, steps).log && e.Executed? && e.retries > 0
    ensures e.firstFailure.Some?
    ensures 7 * (e.at - e.firstFailure.value) >= SevenDelays(e.retries)
  {
    RunTimed(ex, start, steps);
    forall i: nat
      ensures TwoDelays(ex, i)
    {
      DefaultDelays(ex, i);
    }
    DelaysTotal(ex, e.retries);
  }

  /**
   * The retry manager never changes a message it keeps alive: it passes the whole message on exactly when the
   * message can be retried, back to the retry queue while it is early and to the process queue from then on.
   */
  lemma RetryManagerPassesOn(ex: Executor, m: Message, now: int)
    ensures
      var pub := RetryManager(ex, m, now);
      && (CanBeRetried(ex, m) <==> pub.queue != Dead)
      && (CanBeRetried(ex, m) ==> pub.msg == m)
      && (pub.queue == Process <==> CanBeRetried(ex, m) && m.processAfter <= now)
      && (pub.queue == Dead ==>
            && pub.msg.retries == 0 && pub.msg.payload == m.payload && pub.msg.error.None?
            && pub.msg.maxRetries == 10 && pub.msg.processAfter == now)
  {
  }

  /**
   * What dead recovery brings back: whichever way a message came to the dead queue, it starts afresh with the default
   * limit and its body, and its payload is marked with an error exactly by a DirectToDead failure.
   */
  lemma RecoveredMessage(ex: Executor, queue: Queue, m: Message, failure: Failure, died: int, now: int)
    requires queue != Dead && Successor(ex, queue, m, failure, died).queue == Dead
    ensures
      var back := DeadRecovery(Successor(ex, queue, m, failure, died).msg, now);
      && back.queue == Process && back.msg.retries == 0 && back.msg.maxRetries == DEFAULT_MAX_RETRIES
      && back.msg.error.None? && back.msg.processAfter == now && !ShouldWait(back.msg, now)
      && back.msg.payload.body == m.payload.body
      && back.msg.payload.error == if queue == Process then Some(failure.info) else m.payload.error
  {
  }
}
