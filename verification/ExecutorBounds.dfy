/**
 * How often a message can be executed, and how many handler runs it takes: a budget that every action on a copy
 * pays from, and that only dead recovery and crashes refill.
 */
module ExecutorBounds {
  import opened Options
  import opened Sums
  import opened ExecutorProtocol
  import opened ExecutorSafety

  function Executions(id: nat): Event -> int {
    (e: Event) => if e.Executed? && e.id == id then 1 else 0
  }

  /** Handler runs other than the retry manager's waiting ones and dead recovery. */
  function Hops(id: nat): Event -> int {
    (e: Event) => if e == Hopped(id) then 1 else 0
  }

  function Recoveries(id: nat): Event -> int {
    (e: Event) => if e == Recovered(id) then 1 else 0
  }

  /** Deliveries interrupted before anything was published for them. */
  function Redeliveries(id: nat): Event -> int {
    (e: Event) => if e == Interrupted(id, false) then 1 else 0
  }

  function Credit(generation: nat, id: nat): Event -> int {
    (e: Event) =>
      if e == Recovered(id) || e == Interrupted(id, true) then generation
      else if e == Interrupted(id, false) then 1
      else 0
  }

  /** Executions a copy and its successors can still start before the dead queue. */
  function ExecutionsLeft(ex: Executor, id: nat): Copy -> int {
    (c: Copy) =>
      if c.id != id || !Live(c.place) then 0
      else match c.place
        case Queued(Process) => Generation(ex) - c.msg.retries
        case Unacked(Process, _) => Generation(ex) - c.msg.retries - 1
        case Queued(Retry) => Generation(ex) - c.msg.retries
        case Unacked(Retry, _) => Generation(ex) - c.msg.retries
        case _ => 0
  }

  function HopGeneration(ex: Executor): nat {
    2 * Generation(ex)
  }

  /** Non-waiting handler runs that a copy and its successors still need before the dead queue. */
  function HopsLeft(ex: Executor, id: nat): Copy -> int {
    (c: Copy) =>
      if c.id != id || !Live(c.place) then 0
      else match c.place
        case Queued(Process) => 2 * (Generation(ex) - c.msg.retries)
        case Queued(Retry) => 2 * (Generation(ex) - c.msg.retries) + 1
        case Unacked(Process, Started) => 2 * (Generation(ex) - c.msg.retries)
        case Unacked(Process, _) => 2 * (Generation(ex) - c.msg.retries) - 1
        case Unacked(Retry, Started) => 2 * (Generation(ex) - c.msg.retries) + 1
        case Unacked(Retry, _) => 2 * (Generation(ex) - c.msg.retries)
        case _ => 0
  }

  lemma ActPaysForExecutions(ex: Executor, accepted: seq<string>, now: int, c: Copy, a: Action, id: nat)
    requires CopyOk(ex, accepted, c)
    ensures
      var out := Act(ex, now, c, a);
      ExecutionsLeft(ex, id)(out.copy) + Sum(ExecutionsLeft(ex, id), out.successor)
      + Sum(Executions(id), out.events)
      <= ExecutionsLeft(ex, id)(c) + Sum(Credit(Generation(ex), id), out.events)
  {
    var out := Act(ex, now, c, a);
    SumShort(ExecutionsLeft(ex, id), out.successor);
    SumShort(Executions(id), out.events);
    SumShort(Credit(Generation(ex), id), out.events);
  }

  lemma ActPaysForHops(ex: Executor, accepted: seq<string>, now: int, c: Copy, a: Action, id: nat)
    requires CopyOk(ex, accepted, c)
    ensures
      var out := Act(ex, now, c, a);
      HopsLeft(ex, id)(out.copy) + Sum(HopsLeft(ex, id), out.successor) + Sum(Hops(id), out.events)
      <= HopsLeft(ex, id)(c) + Sum(Credit(HopGeneration(ex), id), out.events)
  {
    var out := Act(ex, now, c, a);
    SumShort(HopsLeft(ex, id), out.successor);
    SumShort(Hops(id), out.events);
    SumShort(Credit(HopGeneration(ex), id), out.events);
  }

  lemma ExecutionBudgetStep(ex: Executor, s: State, i: nat, a: Action, id: nat)
    requires i < |s.copies| && CopyOk(ex, s.accepted, s.copies[i])
    ensures
      var t := Advance(s, i, Act(ex, s.now, s.copies[i], a));
      Sum(ExecutionsLeft(ex, id), t.copies) + Sum(Executions(id), t.log) - Sum(Credit(Generation(ex), id), t.log)
      <= Sum(ExecutionsLeft(ex, id), s.copies) + Sum(Executions(id), s.log) - Sum(Credit(Generation(ex), id), s.log)
  {
    var out := Act(ex, s.now, s.copies[i], a);
    ActPaysForExecutions(ex, s.accepted, s.now, s.copies[i], a, id);
    AdvanceSums(s, i, out, ExecutionsLeft(ex, id), Executions(id));
    AdvanceSums(s, i, out, ExecutionsLeft(ex, id), Credit(Generation(ex), id));
  }

  /** An accepted message comes with its budget. */
  lemma AcceptPays(ex: Executor, s: State, body: string, maxRetries: int, id: nat)
    ensures
      var t := Apply(ex, s, Accept(body, maxRetries));
      && t.log == s.log
      && Sum(ExecutionsLeft(ex, id), t.copies) - Generation(ex) * Accepted(t, id)
         == Sum(ExecutionsLeft(ex, id), s.copies) - Generation(ex) * Accepted(s, id)
      && Sum(HopsLeft(ex, id), t.copies) - HopGeneration(ex) * Accepted(t, id)
         == Sum(HopsLeft(ex, id), s.copies) - HopGeneration(ex) * Accepted(s, id)
  {
    var c := Apply(ex, s, Accept(body, maxRetries)).copies[|s.copies|];
    AcceptSum(s, c, ExecutionsLeft(ex, id));
    AcceptSum(s, c, HopsLeft(ex, id));
  }

  lemma {:induction false} ExecutionBudget(ex: Executor, start: int, steps: seq<Step>, id: nat)
    ensures
      var s := Run(ex, start, steps);
      Sum(ExecutionsLeft(ex, id), s.copies) + Sum(Executions(id), s.log)
      <= Generation(ex) * Accepted(s, id) + Sum(Credit(Generation(ex), id), s.log)
  {
    if steps != [] {
      var before := steps[..|steps| - 1];
      ExecutionBudget(ex, start, before, id);
      RunKeepsMessages(ex, start, before);
      var s, step := Run(ex, start, before), steps[|steps| - 1];
      match step
      case Accept(body, maxRetries) => AcceptPays(ex, s, body, maxRetries, id);
      case Tick(_) =>
      case At(i, a) =>
        if i < |s.copies| {
          ExecutionBudgetStep(ex, s, i, a, id);
        }
    }
  }

  lemma HopBudgetStep(ex: Executor, s: State, i: nat, a: Action, id: nat)
    requires i < |s.copies| && CopyOk(ex, s.accepted, s.copies[i])
    ensures
      var t := Advance(s, i, Act(ex, s.now, s.copies[i], a));
      Sum(HopsLeft(ex, id), t.copies) + Sum(Hops(id), t.log) - Sum(Credit(HopGeneration(ex), id), t.log)
      <= Sum(HopsLeft(ex, id), s.copies) + Sum(Hops(id), s.log) - Sum(Credit(HopGeneration(ex), id), s.log)
  {
    var out := Act(ex, s.now, s.copies[i], a);
    ActPaysForHops(ex, s.accepted, s.now, s.copies[i], a, id);
    AdvanceSums(s, i, out, HopsLeft(ex, id), Hops(id));
    AdvanceSums(s, i, out, HopsLeft(ex, id), Credit(HopGeneration(ex), id));
  }

  lemma {:induction false} HopBudget(ex: Executor, start: int, steps: seq<Step>, id: nat)
    ensures
      var s := Run(ex, start, steps);
      Sum(HopsLeft(ex, id), s.copies) + Sum(Hops(id), s.log)
      <= HopGeneration(ex) * Accepted(s, id) + Sum(Credit(HopGeneration(ex), id), s.log)
  {
    if steps != [] {
      var before := steps[..|steps| - 1];
      HopBudget(ex, start, before, id);
      RunKeepsMessages(ex, start, before);
      var s, step := Run(ex, start, before), steps[|steps| - 1];
      match step
      case Accept(body, maxRetries) => AcceptPays(ex, s, body, maxRetries, id);
      case Tick(_) =>
      case At(i, a) =>
        if i < |s.copies| {
          HopBudgetStep(ex, s, i, a, id);
        }
    }
  }

  lemma {:induction false} CreditSum(generation: nat, id: nat, log: seq<Event>)
    ensures Sum(Credit(generation, id), log)
         == generation * (Sum(Recoveries(id), log) + Sum(Duplications(id), log)) + Sum(Redeliveries(id), log)
  {
    if log != [] {
      var init := log[..|log| - 1];
      CreditSum(generation, id, init);
      OneMore(generation, Sum(Recoveries(id), init) + Sum(Duplications(id), init));
    }
  }

  lemma OneMore(g: int, r: int)
    ensures g * (1 + r) == g + g * r
  {
  }

  lemma NothingLeftNegative(ex: Executor, start: int, steps: seq<Step>, id: nat)
    ensures Sum(ExecutionsLeft(ex, id), Run(ex, start, steps).copies) >= 0
    ensures Sum(HopsLeft(ex, id), Run(ex, start, steps).copies) >= 0
  {
    var s := Run(ex, start, steps);
    RunKeepsMessages(ex, start, steps);
    forall i | 0 <= i < |s.copies|
      ensures ExecutionsLeft(ex, id)(s.copies[i]) >= 0 && HopsLeft(ex, id)(s.copies[i]) >= 0
    {
      assert CopyOk(ex, s.accepted, s.copies[i]);
    }
    SumNonNegative(ExecutionsLeft(ex, id), s.copies);
    SumNonNegative(HopsLeft(ex, id), s.copies);
  }

  /** How often a message enters the process queue afresh, or gets a second copy that can start over. */
  function Generations(id: nat, log: seq<Event>): int {
    1 + Sum(Recoveries(id), log) + Sum(Duplications(id), log)
  }

  lemma SpentWithin(generation: nat, id: nat, log: seq<Event>, left: int, spent: int)
    requires left >= 0 && left + spent <= generation + Sum(Credit(generation, id), log)
    ensures spent <= generation * Generations(id, log) + Sum(Redeliveries(id), log)
  {
    CreditSum(generation, id, log);
    OneMore(generation, Sum(Recoveries(id), log) + Sum(Duplications(id), log));
  }

  /**
   * Over every run, an accepted message is executed at most `Generation` times for itself, for each dead recovery
   * and for each duplicate that a crash made, plus once for each delivery that a crash cut short.
   */
  lemma ExecutionsBounded(ex: Executor, start: int, steps: seq<Step>, id: nat)
    requires id < |Run(ex, start, steps).accepted|
    ensures
      var log := Run(ex, start, steps).log;
      Sum(Executions(id), log) <= Generation(ex) * Generations(id, log) + Sum(Redeliveries(id), log)
  {
    var s := Run(ex, start, steps);
    ExecutionBudget(ex, start, steps, id);
    NothingLeftNegative(ex, start, steps, id);
    SpentWithin(Generation(ex), id, s.log, Sum(ExecutionsLeft(ex, id), s.copies), Sum(Executions(id), s.log));
  }

  /** Non-waiting handler runs are bounded in the same way by twice as many. */
  lemma HopsBounded(ex: Executor, start: int, steps: seq<Step>, id: nat)
    requires id < |Run(ex, start, steps).accepted|
    ensures
      var log := Run(ex, start, steps).log;
      Sum(Hops(id), log) <= HopGeneration(ex) * Generations(id, log) + Sum(Redeliveries(id), log)
  {
    var s := Run(ex, start, steps);
    HopBudget(ex, start, steps, id);
    NothingLeftNegative(ex, start, steps, id);
    SpentWithin(HopGeneration(ex), id, s.log, Sum(HopsLeft(ex, id), s.copies), Sum(Hops(id), s.log));
  }

  /**
   * Without crashes: at most 11 executions (1 if the executor does not retry) and 22 non-waiting handler runs for
   * each time the message entered the process queue afresh. The publisher's `maxRetries` plays no part.
   */
  lemma CrashFreeExecutionsBounded(ex: Executor, start: int, steps: seq<Step>, id: nat)
    requires CrashFree(steps)
    requires id < |Run(ex, start, steps).accepted|
    ensures
      var log := Run(ex, start, steps).log;
      var entries := 1 + Sum(Recoveries(id), log);
      && Sum(Executions(id), log) <= (if ex.retriable && ex.directRoute then 11 else 1) * entries
      && Sum(Hops(id), log) <= (if ex.retriable && ex.directRoute then 22 else 2) * entries
  {
    var log := Run(ex, start, steps).log;
    ExecutionsBounded(ex, start, steps, id);
    HopsBounded(ex, start, steps, id);
    CrashFreeLog(ex, start, steps);
    SumZero(Duplications(id), log);
    SumZero(Redeliveries(id), log);
    assert Generation(ex) == if ex.retriable && ex.directRoute then 11 else 1;
    assert HopGeneration(ex) == if ex.retriable && ex.directRoute then 22 else 2;
    assert Generations(id, log) == 1 + Sum(Recoveries(id), log);
  }

  /* The executions one by one. */

  /** The executions of message `id`, in order. */
  function Starts(id: nat, log: seq<Event>): seq<Event> {
    if log == [] then []
    else
      var last := log[|log| - 1];
      Starts(id, log[..|log| - 1]) + if last.Executed? && last.id == id then [last] else []
  }

  lemma {:induction false} StartsConcat(id: nat, a: seq<Event>, b: seq<Event>)
    ensures Starts(id, a + b) == Starts(id, a) + Starts(id, b)
  {
    if b == [] {
      assert a + b == a;
    } else {
      assert (a + b)[..|a + b| - 1] == a + b[..|b| - 1];
      StartsConcat(id, a, b[..|b| - 1]);
    }
  }

  lemma ShortStarts(id: nat, events: seq<Event>)
    requires |events| <= 1
    ensures Starts(id, events) == if events != [] && events[0].Executed? && events[0].id == id then events else []
  {
    if events != [] {
      assert events == [events[0]];
    }
  }

  lemma {:induction false} StartsCounted(id: nat, log: seq<Event>)
    ensures Sum(Executions(id), log) == |Starts(id, log)|
  {
    if log != [] {
      StartsCounted(id, log[..|log| - 1]);
    }
  }

  /* The bound is reached: a message that fails every time. */

  lemma {:induction false} RunFromConcat(ex: Executor, s: State, a: seq<Step>, b: seq<Step>)
    ensures RunFrom(ex, s, a + b) == RunFrom(ex, RunFrom(ex, s, a), b)
  {
    if b == [] {
      assert a + b == a;
    } else {
      assert (a + b)[..|a + b| - 1] == a + b[..|b| - 1];
      RunFromConcat(ex, s, a, b[..|b| - 1]);
    }
  }

  lemma RunFromOne(ex: Executor, s: State, step: Step)
    ensures RunFrom(ex, s, [step]) == Apply(ex, s, step)
  {
    assert [step][..0] == [];
  }

  lemma ThreeActions(ex: Executor, s: State, i: nat, a: Action, b: Action, c: Action)
    ensures RunFrom(ex, s, [At(i, a), At(i, b), At(i, c)])
         == Apply(ex, Apply(ex, Apply(ex, s, At(i, a)), At(i, b)), At(i, c))
  {
    assert [At(i, a), At(i, b), At(i, c)] == [At(i, a)] + [At(i, b)] + [At(i, c)];
    RunFromOne(ex, s, At(i, a));
    RunFromConcat(ex, s, [At(i, a)], [At(i, b)]);
    RunFromOne(ex, Apply(ex, s, At(i, a)), At(i, b));
    RunFromConcat(ex, s, [At(i, a)] + [At(i, b)], [At(i, c)]);
    RunFromOne(ex, Apply(ex, Apply(ex, s, At(i, a)), At(i, b)), At(i, c));
  }

  /** A handler run that publishes a successor for copy `i` and acknowledges it. */
  lemma HandlerRun(ex: Executor, s: State, i: nat, failure: Failure) returns (t: State)
    requires i < |s.copies| && s.copies[i].place.Queued?
    requires Routed(ex, Successor(ex, s.copies[i].place.queue, s.copies[i].msg, failure, s.now).queue)
    ensures t == RunFrom(ex, s, [At(i, Deliver), At(i, Forward(failure)), At(i, Settle)])
    ensures
      var c := s.copies[i];
      var q := c.place.queue;
      var pub := Successor(ex, q, c.msg, failure, s.now);
      && t.now == s.now && t.accepted == s.accepted
      && t.copies == s.copies[i := c.(place := Forwarded)]
                   + [Copy(c.id, pub.msg, Queued(pub.queue), NextFirstFailure(c, q, pub.queue, s.now))]
      && t.log == s.log
                + (if q == Process then [Executed(c.id, c.msg.retries, s.now, c.firstFailure)] else [])
                + [ForwardEvent(c, q, pub.queue)]
  {
    ThreeActions(ex, s, i, Deliver, Forward(failure), Settle);
    var s1 := Apply(ex, s, At(i, Deliver));
    assert s1.copies == s.copies[i := s.copies[i].(place := Unacked(s.copies[i].place.queue, Started))];
    var s2 := Apply(ex, s1, At(i, Forward(failure)));
    t := Apply(ex, s2, At(i, Settle));
  }

  function HandlerSteps(i: nat, failure: Failure): seq<Step> {
    [At(i, Deliver), At(i, Forward(failure)), At(i, Settle)]
  }

  /** The newest copy belongs to message 0 and waits in `queue` with this many retries behind it. */
  predicate Newest(s: State, queue: Queue, retries: nat) {
    s.copies != [] && s.copies[|s.copies| - 1].place == Queued(queue)
    && s.copies[|s.copies| - 1].id == 0 && s.copies[|s.copies| - 1].msg.retries == retries
    && (retries > 0 ==> s.copies[|s.copies| - 1].msg.maxRetries == DEFAULT_MAX_RETRIES)
  }

  predicate Spent(s: State, t: State, executions: nat) {
    && Sum(Executions(0), t.log) == Sum(Executions(0), s.log) + executions
    && Sum(Recoveries(0), t.log) == Sum(Recoveries(0), s.log)
    && t.accepted == s.accepted
  }

  lemma Spend(s: State, t: State, a: Event, b: seq<Event>)
    requires t.log == s.log + b + [a] && |b| <= 1 && a.id == 0
    requires a.Hopped? && (b != [] ==> b[0].Executed? && b[0].id == 0) && t.accepted == s.accepted
    ensures Spent(s, t, |b|)
  {
    SumConcat(Executions(0), s.log + b, [a]);
    SumConcat(Executions(0), s.log, b);
    SumConcat(Recoveries(0), s.log + b, [a]);
    SumConcat(Recoveries(0), s.log, b);
    SumOne(Executions(0), a);
    SumOne(Recoveries(0), a);
    SumShort(Executions(0), b);
    SumShort(Recoveries(0), b);
  }

  /** The newest copy is executed and fails: it moves to the retry queue. */
  lemma FailOnce(ex: Executor, s: State, retries: nat, failure: Failure) returns (run: seq<Step>, t: State)
    requires failure.Other? && Newest(s, Process, retries)
    ensures t == RunFrom(ex, s, run) && CrashFree(run)
    ensures Newest(t, Retry, retries + 1) && Spent(s, t, 1) && t.now == s.now
    ensures t.copies[|t.copies| - 1].msg.processAfter == t.now + ex.backoff(retries)
    ensures t.log == s.log + [Executed(0, retries, s.now, s.copies[|s.copies| - 1].firstFailure)] + [Hopped(0)]
  {
    var i := |s.copies| - 1;
    run := HandlerSteps(i, failure);
    t := HandlerRun(ex, s, i, failure);
    Spend(s, t, Hopped(0), [Executed(0, retries, s.now, s.copies[i].firstFailure)]);
  }

  /** The newest copy is due in the retry queue: it moves to the process queue, or to the dead queue. */
  lemma HandOn(ex: Executor, s: State, retries: nat, failure: Failure) returns (run: seq<Step>, t: State)
    requires ex.retriable && ex.directRoute && 0 < retries && Newest(s, Retry, retries)
    requires s.copies[|s.copies| - 1].msg.processAfter <= s.now
    ensures t == RunFrom(ex, s, run) && CrashFree(run)
    ensures Spent(s, t, 0) && t.now == s.now && t.log == s.log + [Hopped(0)]
    ensures if retries <= DEFAULT_MAX_RETRIES then Newest(t, Process, retries) else Newest(t, Dead, 0)
  {
    run := HandlerSteps(|s.copies| - 1, failure);
    t := HandlerRun(ex, s, |s.copies| - 1, failure);
    Spend(s, t, Hopped(0), []);
  }

  function WaitFor(delay: int): nat {
    if delay > 0 then delay else 0
  }

  /** The backoffs after `k` executions in a row, of which the first carries `retries`. */
  function Waits(ex: Executor, retries: nat, k: nat): nat
    decreases k
  {
    if k == 0 then 0 else WaitFor(ex.backoff(retries)) + Waits(ex, retries + 1, k - 1)
  }

  /** An execution, and what the log says afterwards. */
  lemma StartsAfter(log: seq<Event>, e: Event)
    requires e.Executed? && e.id == 0
    ensures Starts(0, log + [e] + [Hopped(0)] + [Hopped(0)]) == Starts(0, log) + [e]
  {
    StartsConcat(0, log + [e] + [Hopped(0)], [Hopped(0)]);
    StartsConcat(0, log + [e], [Hopped(0)]);
    StartsConcat(0, log, [e]);
    ShortStarts(0, [e]);
    ShortStarts(0, [Hopped(0)]);
  }

  /** One failing execution, and the way back once the backoff has passed. */
  lemma FailAndReturn(ex: Executor, s: State, retries: nat, failure: Failure) returns (run: seq<Step>)
    requires ex.retriable && ex.directRoute && failure.Other? && retries <= DEFAULT_MAX_RETRIES
    requires Newest(s, Process, retries)
    ensures CrashFree(run)
    ensures
      var t := RunFrom(ex, s, run);
      && Spent(s, t, 1) && t.now == s.now + WaitFor(ex.backoff(retries))
      && Starts(0, t.log)
         == Starts(0, s.log) + [Executed(0, retries, s.now, s.copies[|s.copies| - 1].firstFailure)]
      && (if retries < DEFAULT_MAX_RETRIES then Newest(t, Process, retries + 1) else Newest(t, Dead, 0))
  {
    var wait := Tick(WaitFor(ex.backoff(retries)));
    var fail, failed := FailOnce(ex, s, retries, failure);
    var due := Apply(ex, failed, wait);
    var handOn, moved := HandOn(ex, due, retries + 1, failure);
    RunFromOne(ex, failed, wait);
    RunFromConcat(ex, s, fail, [wait]);
    RunFromConcat(ex, s, fail + [wait], handOn);
    StartsAfter(s.log, Executed(0, retries, s.now, s.copies[|s.copies| - 1].firstFailure));
    run := fail + [wait] + handOn;
  }

  /** The k-th execution after the one that carries `retries` and starts at `now`, without any delay. */
  predicate Prompt(ex: Executor, e: Event, retries: nat, now: int, k: nat) {
    e.Executed? && e.retries == retries + k && e.at == now + Waits(ex, retries, k)
  }

  /** The executions of a run: `before`, and then one after each backoff from `now` on. */
  predicate StartsFrom(ex: Executor, starts: seq<Event>, before: seq<Event>, retries: nat, now: int) {
    && |before| <= |starts| && starts[..|before|] == before
    && forall k :: |before| <= k < |starts| ==> Prompt(ex, starts[k], retries, now, k - |before|)
  }

  lemma StartsChain(ex: Executor, starts: seq<Event>, before: seq<Event>, e: Event, retries: nat, now: int)
    requires Prompt(ex, e, retries, now, 0)
    requires StartsFrom(ex, starts, before + [e], retries + 1, now + WaitFor(ex.backoff(retries)))
    ensures StartsFrom(ex, starts, before, retries, now)
  {
    var n := |before|;
    assert starts[..n] == starts[..n + 1][..n] == before;
    assert starts[n] == starts[..n + 1][n] == e;
    forall k | n <= k < |starts|
      ensures Prompt(ex, starts[k], retries, now, k - n)
    {
      if k > n {
        assert Prompt(ex, starts[k], retries + 1, now + WaitFor(ex.backoff(retries)), k - (n + 1));
      }
    }
  }

  /** One more failing execution in front of `n`. */
  lemma OneMoreExecution(ex: Executor, s: State, t: State, u: State, e: Event, retries: nat, n: nat)
    requires Spent(s, t, 1) && Spent(t, u, n) && t.now == s.now + WaitFor(ex.backoff(retries))
    requires Starts(0, t.log) == Starts(0, s.log) + [e] && Prompt(ex, e, retries, s.now, 0)
    requires StartsFrom(ex, Starts(0, u.log), Starts(0, t.log), retries + 1, t.now)
    ensures Spent(s, u, n + 1) && StartsFrom(ex, Starts(0, u.log), Starts(0, s.log), retries, s.now)
  {
    StartsChain(ex, Starts(0, u.log), Starts(0, s.log), e, retries, s.now);
  }

  lemma LastExecution(ex: Executor, s: State, t: State, e: Event, retries: nat)
    requires Starts(0, t.log) == Starts(0, s.log) + [e] && Prompt(ex, e, retries, s.now, 0)
    ensures StartsFrom(ex, Starts(0, t.log), Starts(0, s.log), retries, s.now)
  {
  }

  lemma {:induction false} FailUntilDead(ex: Executor, s: State, retries: nat, failure: Failure)
    returns (run: seq<Step>)
    requires ex.retriable && ex.directRoute && failure.Other? && retries <= DEFAULT_MAX_RETRIES
    requires Newest(s, Process, retries)
    ensures CrashFree(run)
    ensures
      var t := RunFrom(ex, s, run);
      && Spent(s, t, DEFAULT_MAX_RETRIES + 1 - retries) && Newest(t, Dead, 0)
      && StartsFrom(ex, Starts(0, t.log), Starts(0, s.log), retries, s.now)
    decreases DEFAULT_MAX_RETRIES - retries
  {
    run := FailAndReturn(ex, s, retries, failure);
    var t := RunFrom(ex, s, run);
    var e := Executed(0, retries, s.now, s.copies[|s.copies| - 1].firstFailure);
    if retries < DEFAULT_MAX_RETRIES {
      var rest := FailUntilDead(ex, t, retries + 1, failure);
      OneMoreExecution(ex, s, t, RunFrom(ex, t, rest), e, retries, DEFAULT_MAX_RETRIES - retries);
      RunFromConcat(ex, s, run, rest);
      run := run + rest;
    } else {
      LastExecution(ex, s, t, e, retries);
    }
  }

  lemma {:induction false} RunIsRunFrom(ex: Executor, start: int, steps: seq<Step>)
    ensures Run(ex, start, steps) == RunFrom(ex, Run(ex, start, []), steps)
  {
    if steps != [] {
      RunIsRunFrom(ex, start, steps[..|steps| - 1]);
    }
  }

  /**
   * The bound of 11 is exact and the publisher's `maxRetries` plays no part: whatever it asked for, a message that
   * keeps failing is executed 11 times, without crash or recovery, and ends in the dead queue. What was asked for,
   * one execution and `maxRetries` more, is done exactly for 10. And no execution need be later than its backoffs:
   * the run shown starts each one exactly when they are over.
   */
  lemma PersistentFailure(ex: Executor, start: int, body: string, maxRetries: int, failure: Failure)
    returns (steps: seq<Step>)
    requires ex.retriable && ex.directRoute && failure.Other?
    ensures CrashFree(steps) && steps != [] && steps[0] == Accept(body, maxRetries)
    ensures
      var s := Run(ex, start, steps);
      && s.accepted == [body]
      && Sum(Executions(0), s.log) == 11 && Sum(Recoveries(0), s.log) == 0
      && (Sum(Executions(0), s.log) == maxRetries + 1 <==> maxRetries == DEFAULT_MAX_RETRIES)
      && (exists c :: c in s.copies && c.id == 0 && c.place == Queued(Dead))
      && |Starts(0, s.log)| == 11
      && forall k :: 0 <= k < 11 ==> Prompt(ex, Starts(0, s.log)[k], 0, start, k)
  {
    var empty, accept := Run(ex, start, []), Accept(body, maxRetries);
    var s := Apply(ex, empty, accept);
    var run := FailUntilDead(ex, s, 0, failure);
    RunFromOne(ex, empty, accept);
    RunFromConcat(ex, empty, [accept], run);
    steps := [accept] + run;
    RunIsRunFrom(ex, start, steps);
    var t := RunFrom(ex, s, run);
    assert t.copies[|t.copies| - 1] in t.copies;
    StartsCounted(0, t.log);
    assert Starts(0, s.log) == [];
  }
}
