/**
 * Wallet messages between the retry protocol and the cache: a wallet found in the cache cannot be saved
 * (CachedWallets), and the handler of a refused message fails and is retried with the default backoff. A cache entry
 * dies before that runs out of retries.
 */
module WalletRetries {
  import opened Sums
  import opened ExecutorProtocol
  import opened ExecutorSafety
  import opened ExecutorBounds
  import opened ExecutorTiming
  import opened ExecutorSpacing
  import CachedRepository

  const TTL_SECS := CachedRepository.DEFAULT_TTL_SECS

  /** An entry filled at `filledAt` seconds can be found by a handler that starts at `at` milliseconds. */
  predicate Alive(filledAt: int, at: int) {
    filledAt <= at / 1000 < filledAt + TTL_SECS
  }

  /** Executions of message `id` that can find that entry. */
  function Refusable(id: nat, filledAt: int): Event -> int {
    (e: Event) => if e.Executed? && e.id == id && Alive(filledAt, e.at) then 1 else 0
  }

  /** Five delays in a row outlast a cache entry. */
  lemma FiveDelays(ex: Executor, j: nat)
    requires forall i: nat :: TwoDelays(ex, i)
    ensures ex.backoff(j) + ex.backoff(j + 1) + ex.backoff(j + 2) + ex.backoff(j + 3) + ex.backoff(j + 4)
         >= 1000 * TTL_SECS
  {
    var k := j / 2;
    assert TwoDelays(ex, k) && TwoDelays(ex, k + 1) && TwoDelays(ex, k + 2);
    assert Pow8(k + 1) == 8 * Pow8(k) && Pow8(k + 2) == 8 * Pow8(k + 1);
    Pow8Positive(k);
    if j % 2 == 0 {
      assert j == 2 * k;
    } else {
      assert j == 2 * k + 1;
    }
  }

  lemma {:induction false} Pow8Positive(k: nat)
    ensures Pow8(k) >= 1
  {
    if k > 0 {
      Pow8Positive(k - 1);
    }
  }

  lemma {:induction false} DelaysPositive(ex: Executor, j: nat)
    requires forall i: nat :: TwoDelays(ex, i)
    ensures ex.backoff(j) >= 0
  {
    assert TwoDelays(ex, j / 2);
    Pow8Positive(j / 2);
    assert j == 2 * (j / 2) || j == 2 * (j / 2) + 1;
  }

  /** Five executions later, or more, the entry has expired. */
  lemma {:induction false} FiveApart(ex: Executor, starts: seq<Event>, j: nat, k: nat)
    requires Spaced(ex, starts) && j + 5 <= k < |starts| && forall i: nat :: TwoDelays(ex, i)
    ensures starts[k].at - starts[j].at >= 1000 * TTL_SECS
  {
    if k == j + 5 {
      FiveDelays(ex, j);
      assert starts[j].at + ex.backoff(j) <= starts[j + 1].at;
      assert starts[j + 1].at + ex.backoff(j + 1) <= starts[j + 2].at;
      assert starts[j + 2].at + ex.backoff(j + 2) <= starts[j + 3].at;
      assert starts[j + 3].at + ex.backoff(j + 3) <= starts[j + 4].at;
      assert starts[j + 4].at + ex.backoff(j + 4) <= starts[j + 5].at;
    } else {
      FiveApart(ex, starts, j, k - 1);
      DelaysPositive(ex, k - 1);
      assert starts[k - 1].at + ex.backoff(k - 1) <= starts[k].at;
    }
  }

  lemma {:induction false} SumAtMostLength<T>(f: T -> int, s: seq<T>)
    requires forall x :: f(x) <= 1
    ensures Sum(f, s) <= |s|
  {
    if s != [] {
      SumAtMostLength(f, s[..|s| - 1]);
    }
  }

  lemma SpacedPrefix(ex: Executor, starts: seq<Event>, n: nat)
    requires Spaced(ex, starts) && n <= |starts|
    ensures Spaced(ex, starts[..n])
  {
  }

  lemma {:induction false} AtMostFive(ex: Executor, starts: seq<Event>, id: nat, filledAt: int)
    requires Spaced(ex, starts) && forall i: nat :: TwoDelays(ex, i)
    ensures Sum(Refusable(id, filledAt), starts) <= 5
  {
    var f, n := Refusable(id, filledAt), |starts|;
    if n <= 5 {
      SumAtMostLength(f, starts);
    } else if f(starts[n - 1]) == 0 {
      SpacedPrefix(ex, starts, n - 1);
      AtMostFive(ex, starts[..n - 1], id, filledAt);
    } else {
      assert starts == starts[..n - 5] + starts[n - 5..];
      SumConcat(f, starts[..n - 5], starts[n - 5..]);
      SumAtMostLength(f, starts[n - 5..]);
      forall x | x in starts[..n - 5]
        ensures f(x) == 0
      {
        var j :| 0 <= j < n - 5 && starts[j] == x;
        FiveApart(ex, starts, j, n - 1);
      }
      SumZero(f, starts[..n - 5]);
    }
  }

  lemma {:induction false} RefusableStarts(id: nat, filledAt: int, log: seq<Event>)
    ensures Sum(Refusable(id, filledAt), log) == Sum(Refusable(id, filledAt), Starts(id, log))
  {
    if log != [] {
      var init, last := log[..|log| - 1], log[|log| - 1];
      RefusableStarts(id, filledAt, init);
      if last.Executed? && last.id == id {
        SumConcat(Refusable(id, filledAt), Starts(id, init), [last]);
        SumOne(Refusable(id, filledAt), last);
      } else {
        assert Starts(id, init) + [] == Starts(id, init);
      }
    }
  }

  /** Over every crash-free run, one cache entry can refuse at most five executions of a message not recovered. */
  lemma EntryRefusesFew(ex: Executor, start: int, steps: seq<Step>, id: nat, filledAt: int)
    requires DefaultBackoff(ex) && CrashFree(steps) && Recovered(id) !in Run(ex, start, steps).log
    ensures Sum(Refusable(id, filledAt), Run(ex, start, steps).log) <= 5
  {
    var log := Run(ex, start, steps).log;
    ExecutionsSpaced(ex, start, steps, id);
    forall i: nat
      ensures TwoDelays(ex, i)
    {
      DefaultDelays(ex, i);
    }
    AtMostFive(ex, Starts(id, log), id, filledAt);
    RefusableStarts(id, filledAt, log);
  }

  lemma {:induction false} WaitsAreDelays(ex: Executor, retries: nat, k: nat)
    requires forall i: nat :: TwoDelays(ex, i)
    ensures Waits(ex, retries, k) == TotalDelay(ex, retries + k) - TotalDelay(ex, retries)
    decreases k
  {
    if k > 0 {
      DelaysPositive(ex, retries);
      WaitsAreDelays(ex, retries + 1, k - 1);
      assert retries + 1 + (k - 1) == retries + k;
    }
  }

  lemma FourDelays(k: nat)
    requires k <= 4
    ensures SevenDelays(k) + Pow8(k / 2) - 1 <= 385000
  {
    assert Pow8(0) == 1 && Pow8(1) == 8 && Pow8(2) == 64;
    assert k / 2 == 0 || k / 2 == 1 || k / 2 == 2;
  }

  lemma DefaultWaits(ex: Executor, k: nat)
    requires DefaultBackoff(ex)
    ensures Waits(ex, 0, k) == TotalDelay(ex, k)
  {
    forall i: nat
      ensures TwoDelays(ex, i)
    {
      DefaultDelays(ex, i);
    }
    WaitsAreDelays(ex, 0, k);
  }

  /** The first five executions, when each starts as soon as its backoff is over, are within 55 seconds. */
  lemma FirstFiveTogether(ex: Executor, k: nat)
    requires DefaultBackoff(ex) && k <= 4
    ensures 0 <= Waits(ex, 0, k) <= 55000
  {
    DefaultWaits(ex, k);
    DefaultDelaysTotal(ex, k);
    FourDelays(k);
  }

  lemma {:induction false} SumAllOnes<T>(f: T -> int, s: seq<T>)
    requires forall x :: x in s ==> f(x) == 1
    ensures Sum(f, s) == |s|
  {
    if s != [] {
      SumAllOnes(f, s[..|s| - 1]);
    }
  }

  /** Five are possible: the entry is there at the first execution of a message that keeps failing. */
  lemma FiveAreRefusable(ex: Executor, start: int, body: string, maxRetries: int, failure: Failure)
    returns (steps: seq<Step>)
    requires ex.retriable && ex.directRoute && failure.Other? && DefaultBackoff(ex)
    ensures CrashFree(steps) && Sum(Refusable(0, start / 1000), Run(ex, start, steps).log) >= 5
  {
    steps := PersistentFailure(ex, start, body, maxRetries, failure);
    var log := Run(ex, start, steps).log;
    StartsOf(0, log);
    FiveOfPrompt(ex, start, Starts(0, log));
    RefusableStarts(0, start / 1000, log);
  }

  lemma FiveOfPrompt(ex: Executor, start: int, starts: seq<Event>)
    requires DefaultBackoff(ex) && |starts| >= 5
    requires forall k :: 0 <= k < 5 ==> Prompt(ex, starts[k], 0, start, k) && starts[k].id == 0
    ensures Sum(Refusable(0, start / 1000), starts) >= 5
  {
    var f := Refusable(0, start / 1000);
    forall x | x in starts[..5]
      ensures f(x) == 1
    {
      var k :| 0 <= k < 5 && starts[k] == x;
      FirstFiveTogether(ex, k);
    }
    SumAllOnes(f, starts[..5]);
    assert starts == starts[..5] + starts[5..];
    SumConcat(f, starts[..5], starts[5..]);
    SumNonNegative(f, starts[5..]);
  }

  lemma {:induction false} StartsOf(id: nat, log: seq<Event>)
    ensures forall e :: e in Starts(id, log) ==> e.Executed? && e.id == id
  {
    if log != [] {
      StartsOf(id, log[..|log| - 1]);
    }
  }

  /**
   * One cache entry never brings a wallet message to the dead queue: when the message gets there, at least six of its
   * eleven executions started before that entry was filled or after it had expired.
   */
  lemma EntryAloneNeverBuries(ex: Executor, start: int, steps: seq<Step>, c: Copy, filledAt: int)
    requires ex.retriable && DefaultBackoff(ex) && CrashFree(steps) && NoDirect(steps)
    requires c in Run(ex, start, steps).copies && c.place == Queued(Dead)
    requires Recovered(c.id) !in Run(ex, start, steps).log
    ensures
      var log := Run(ex, start, steps).log;
      Sum(Executions(c.id), log) == 11 && Sum(Executions(c.id), log) - Sum(Refusable(c.id, filledAt), log) >= 6
  {
    DeadAfterEleven(ex, start, steps, c);
    EntryRefusesFew(ex, start, steps, c.id, filledAt);
  }
}
