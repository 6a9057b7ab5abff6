/** The protocol on the repository's own topology: which executors can retry at all. */
module ExecutorRouting {
  import opened Options
  import opened Sums
  import opened ExecutorProtocol
  import opened ExecutorSafety
  import opened ExecutorBounds
  import opened Topology

  /** The executor that consumes `sub`, wired by the publication table `pubs`. */
  function Wired(sub: Subscription, backoff: nat -> int, pubs: map<string, Target>): Executor {
    Executor(true, backoff, AddDirectPubPrefix(sub.name) in pubs)
  }

  lemma {:induction false} UnroutedLog(ex: Executor, start: int, steps: seq<Step>)
    requires !ex.directRoute
    ensures forall e :: e in Run(ex, start, steps).log ==> !e.Recovered?
  {
    if steps != [] {
      UnroutedLog(ex, start, steps[..|steps| - 1]);
    }
  }

  lemma Once(g: int, n: int)
    requires g == 1
    ensures g * n == n
  {
  }

  lemma UnroutedExecutions(ex: Executor, start: int, steps: seq<Step>, id: nat)
    requires !ex.directRoute && id < |Run(ex, start, steps).accepted|
    ensures
      var log := Run(ex, start, steps).log;
      Sum(Executions(id), log) <= 1 + Sum(Duplications(id), log) + Sum(Redeliveries(id), log)
  {
    var log := Run(ex, start, steps).log;
    ExecutionsBounded(ex, start, steps, id);
    UnroutedLog(ex, start, steps);
    SumZero(Recoveries(id), log);
    Once(Generation(ex), Generations(id, log));
  }

  lemma UnroutedCopies(ex: Executor, start: int, steps: seq<Step>)
    requires !ex.directRoute
    ensures forall c :: c in Run(ex, start, steps).copies && (c.place.Completed? || c.place == Queued(Process)) ==>
      c.msg.retries == 0
  {
    var s := Run(ex, start, steps);
    RunKeepsMessages(ex, start, steps);
    forall c | c in s.copies
      ensures CopyOk(ex, s.accepted, c)
    {
      var i :| 0 <= i < |s.copies| && s.copies[i] == c;
    }
  }

  lemma {:induction false} UnroutedEvents(ex: Executor, start: int, steps: seq<Step>)
    requires !ex.directRoute
    ensures forall e :: e in Run(ex, start, steps).log && e.Executed? ==> e.retries == 0
  {
    if steps != [] {
      var before, step := steps[..|steps| - 1], steps[|steps| - 1];
      UnroutedEvents(ex, start, before);
      RunKeepsMessages(ex, start, before);
      var s := Run(ex, start, before);
      if step.At? && step.index < |s.copies| {
        assert CopyOk(ex, s.accepted, s.copies[step.index]);
      }
    }
  }

  /**
   * An executor whose process channel is not a publication never runs a retry: in every run, crashes included, no
   * copy that carries retries is executed, completed or in the process queue, and nothing comes out of the dead
   * queue. Only deliveries that a crash cuts short or duplicates are executed more than once.
   */
  lemma UnroutedNeverRetries(ex: Executor, start: int, steps: seq<Step>, id: nat)
    requires !ex.directRoute && id < |Run(ex, start, steps).accepted|
    ensures
      var s := Run(ex, start, steps);
      && Sum(Executions(id), s.log) <= 1 + Sum(Duplications(id), s.log) + Sum(Redeliveries(id), s.log)
      && (forall e :: e in s.log ==> !e.Recovered? && (e.Executed? ==> e.retries == 0))
      && (forall c :: c in s.copies && (c.place.Completed? || c.place == Queued(Process)) ==> c.msg.retries == 0)
  {
    UnroutedExecutions(ex, start, steps, id);
    UnroutedCopies(ex, start, steps);
    UnroutedEvents(ex, start, steps);
    UnroutedLog(ex, start, steps);
  }

  /** Not in the process queue, not being executed, and not done: where a failure sends a message. */
  predicate HasFailed(p: Place) {
    match p
    case Queued(q) => q != Process
    case Unacked(q, progress) => progress != Succeeded && (q != Process || progress != Started)
    case Completed => false
    case _ => true
  }

  predicate SplitOnlyByFailure(copies: seq<Copy>) {
    forall i, j :: 0 <= i < j < |copies| && copies[i].id == copies[j].id ==>
      HasFailed(copies[i].place) && HasFailed(copies[j].place)
  }

  lemma ActKeepsSplit(ex: Executor, s: State, i: nat, a: Action)
    requires !ex.directRoute && i < |s.copies| && SplitOnlyByFailure(s.copies) && a != Interrupt
    ensures SplitOnlyByFailure(Advance(s, i, Act(ex, s.now, s.copies[i], a)).copies)
  {
    var c, out := s.copies[i], Act(ex, s.now, s.copies[i], a);
    assert out.copy.id == c.id && (HasFailed(c.place) ==> HasFailed(out.copy.place));
    assert out.successor != [] ==>
      out.successor == [out.successor[0]] && out.successor[0].id == c.id
      && HasFailed(out.successor[0].place) && HasFailed(out.copy.place);
  }

  lemma {:induction false} CrashFreeSplit(ex: Executor, start: int, steps: seq<Step>)
    requires !ex.directRoute && CrashFree(steps)
    ensures SplitOnlyByFailure(Run(ex, start, steps).copies)
  {
    if steps != [] {
      var before, step := steps[..|steps| - 1], steps[|steps| - 1];
      CrashFreeSplit(ex, start, before);
      var s := Run(ex, start, before);
      match step
      case Accept(_, _) =>
        RunKeepsMessages(ex, start, before);
        forall i | 0 <= i < |s.copies|
          ensures s.copies[i].id < |s.accepted|
        {
          assert CopyOk(ex, s.accepted, s.copies[i]);
        }
      case Tick(_) =>
      case At(i, a) =>
        if i < |s.copies| {
          ActKeepsSplit(ex, s, i, a);
        }
    }
  }

  /** Without crashes, what has failed once on such an executor is not executed again and not completed. */
  lemma CrashFreeFailsForGood(ex: Executor, start: int, steps: seq<Step>, id: nat)
    requires !ex.directRoute && CrashFree(steps) && id < |Run(ex, start, steps).accepted|
    ensures
      var s := Run(ex, start, steps);
      && Sum(Executions(id), s.log) <= 1
      && forall c, d :: c in s.copies && d in s.copies && c.id == d.id && HasFailed(c.place) ==> HasFailed(d.place)
  {
    var s := Run(ex, start, steps);
    UnroutedExecutions(ex, start, steps, id);
    CrashFreeLog(ex, start, steps);
    SumZero(Duplications(id), s.log);
    SumZero(Redeliveries(id), s.log);
    CrashFreeSplit(ex, start, steps);
    forall c, d | c in s.copies && d in s.copies && c.id == d.id && HasFailed(c.place)
      ensures HasFailed(d.place)
    {
      var i, j :| 0 <= i < |s.copies| && s.copies[i] == c && 0 <= j < |s.copies| && s.copies[j] == d;
    }
  }

  lemma ThreeEvents(e: Event, f: Event, g: Event)
    ensures Sum(Executions(0), [e, f, g]) == Executions(0)(e) + Executions(0)(f) + Executions(0)(g)
  {
    assert [e, f, g] == [e] + ([f] + [g]);
    SumConcat(Executions(0), [e], [f] + [g]);
    SumConcat(Executions(0), [f], [g]);
    SumOne(Executions(0), e);
    SumOne(Executions(0), f);
    SumOne(Executions(0), g);
  }

  lemma DeliverOnly(ex: Executor, s: State, c: Copy) returns (t: State)
    requires s.copies == [c] && s.log == [] && c.id == 0 && c.place == Queued(Process) && c.msg.retries == 0
    ensures t == Apply(ex, s, At(0, Deliver)) && t.now == s.now && t.accepted == s.accepted
    ensures t.copies == [c.(place := Unacked(Process, Started))]
    ensures t.log == [Executed(0, 0, s.now, c.firstFailure)]
  {
    t := Apply(ex, s, At(0, Deliver));
  }

  lemma PublishRetry(ex: Executor, s: State, c: Copy, info: ErrorInfo) returns (t: State)
    requires s.copies == [c] && c.id == 0 && c.place == Unacked(Process, Started) && c.msg.retries == 0
    ensures t == Apply(ex, s, At(0, Forward(Other(info)))) && t.now == s.now && t.accepted == s.accepted
    ensures |t.copies| == 2 && t.copies[0] == c.(place := Unacked(Process, Published))
    ensures t.copies[1].id == 0 && t.copies[1].place == Queued(Retry) && t.copies[1].msg.retries == 1
    ensures t.log == s.log + [Hopped(0)]
  {
    var out := Act(ex, s.now, c, Forward(Other(info)));
    assert out.copy == c.(place := Unacked(Process, Published)) && out.events == [Hopped(0)];
    assert |out.successor| == 1;
    t := Advance(s, 0, out);
  }

  lemma InterruptPublished(ex: Executor, s: State) returns (t: State)
    requires |s.copies| == 2 && s.copies[0].id == 0 && s.copies[0].place == Unacked(Process, Published)
    ensures t == Apply(ex, s, At(0, Interrupt)) && t.accepted == s.accepted
    ensures t.copies == [s.copies[0].(place := Queued(Process)), s.copies[1]]
    ensures t.log == s.log + [Interrupted(0, true)]
  {
    t := Apply(ex, s, At(0, Interrupt));
  }

  /** A message is executed, its retry copy published, and its delivery interrupted. */
  lemma FailInterrupted(ex: Executor, s: State, c: Copy, info: ErrorInfo) returns (t: State)
    requires s.copies == [c] && s.log == [] && c.id == 0 && c.place == Queued(Process) && c.msg.retries == 0
    ensures t == RunFrom(ex, s, [At(0, Deliver), At(0, Forward(Other(info))), At(0, Interrupt)])
    ensures |t.copies| == 2 && t.copies[0] == c
    ensures t.copies[1].id == 0 && t.copies[1].place == Queued(Retry) && t.copies[1].msg.retries == 1
    ensures Sum(Executions(0), t.log) == 1 && t.accepted == s.accepted
  {
    ThreeActions(ex, s, 0, Deliver, Forward(Other(info)), Interrupt);
    var s1 := DeliverOnly(ex, s, c);
    var s2 := PublishRetry(ex, s1, s1.copies[0], info);
    t := InterruptPublished(ex, s2);
    assert t.log == [s1.log[0], Hopped(0), Interrupted(0, true)];
    ThreeEvents(s1.log[0], Hopped(0), Interrupted(0, true));
  }

  /** The first copy is executed and completed. */
  lemma SucceedOnce(ex: Executor, s: State) returns (t: State)
    requires s.copies != [] && s.copies[0].place == Queued(Process) && s.copies[0].id == 0
    ensures t == RunFrom(ex, s, [At(0, Deliver), At(0, Succeed), At(0, Settle)])
    ensures t.copies == s.copies[0 := s.copies[0].(place := Completed)]
    ensures Sum(Executions(0), t.log) == Sum(Executions(0), s.log) + 1 && t.accepted == s.accepted
  {
    ThreeActions(ex, s, 0, Deliver, Succeed, Settle);
    var e := Executed(0, s.copies[0].msg.retries, s.now, s.copies[0].firstFailure);
    t := Apply(ex, Apply(ex, Apply(ex, s, At(0, Deliver)), At(0, Succeed)), At(0, Settle));
    assert t.log == s.log + [e] + [Hopped(0)];
    SumConcat(Executions(0), s.log + [e], [Hopped(0)]);
    SumConcat(Executions(0), s.log, [e]);
    SumOne(Executions(0), e);
    SumOne(Executions(0), Hopped(0));
  }

  lemma RunInThree(ex: Executor, start: int, first: Step, a: seq<Step>, b: seq<Step>)
    ensures Run(ex, start, [first] + a + b)
         == RunFrom(ex, RunFrom(ex, Apply(ex, State(start, [], [], []), first), a), b)
  {
    var empty := State(start, [], [], []);
    RunFromOne(ex, empty, first);
    RunFromConcat(ex, empty, [first], a);
    RunFromConcat(ex, empty, [first] + a, b);
    RunIsRunFrom(ex, start, [first] + a + b);
  }

  /**
   * With a crash it can be: interrupted between publishing its retry copy and acknowledging, the message is executed
   * again and completed, and the retry copy stays behind.
   */
  lemma InterruptedFailureRunsAgain(ex: Executor, start: int, body: string, maxRetries: int, info: ErrorInfo)
    returns (steps: seq<Step>)
    ensures
      var s := Run(ex, start, steps);
      && |s.accepted| == 1 && |s.copies| == 2 && s.copies[0].id == s.copies[1].id == 0
      && s.copies[0].place == Completed && s.copies[1].place == Queued(Retry) && s.copies[1].msg.retries == 1
      && Sum(Executions(0), s.log) == 2
  {
    var accepted := Apply(ex, State(start, [], [], []), Accept(body, maxRetries));
    var back := FailInterrupted(ex, accepted, accepted.copies[0], info);
    var done := SucceedOnce(ex, back);
    var fail := [At(0, Deliver), At(0, Forward(Other(info))), At(0, Interrupt)];
    var succeed := [At(0, Deliver), At(0, Succeed), At(0, Settle)];
    RunInThree(ex, start, Accept(body, maxRetries), fail, succeed);
    steps := [Accept(body, maxRetries)] + fail + succeed;
  }

  /**
   * With the publications that createBrokerConnection builds, a message of ProcessTx or SaveTxOfInterest is
   * executed once at most in a crash-free run, although its publisher asks for 30 retries; one of SaveToken or
   * SaveWallet is executed up to 11 times for each time it enters the process queue afresh.
   */
  lemma RepositoryExecutions(
    pubs: map<string, Target>, sub: Subscription, backoff: nat -> int, start: int, steps: seq<Step>, id: nat)
    requires Written(EXCHANGE_PUBLICATIONS, Writes(DeadAndRetrySubs(SUBSCRIPTIONS)), pubs)
    requires sub in SUBSCRIPTIONS && CrashFree(steps)
    requires id < |Run(Wired(sub, backoff, pubs), start, steps).accepted|
    ensures
      var log := Run(Wired(sub, backoff, pubs), start, steps).log;
      Sum(Executions(id), log)
      <= if sub == PROCESS_TX_SUB || sub == SAVE_TX_SUB then 1 else 11 * (1 + Sum(Recoveries(id), log))
  {
    var ex := Wired(sub, backoff, pubs);
    RepositoryDirectRoutes(pubs);
    CrashFreeExecutionsBounded(ex, start, steps, id);
    if sub == PROCESS_TX_SUB || sub == SAVE_TX_SUB {
      assert |"discovered_tx_to_process"| == 24 && |"tx_processed"| == 12;
      assert |"save_token"| == 10 && |"save_wallet"| == 11;
      UnroutedLog(ex, start, steps);
      SumZero(Recoveries(id), Run(ex, start, steps).log);
    }
  }

  /** And so they are: a token or wallet message that keeps failing is executed exactly 11 times. */
  lemma RepositoryRetries(
    pubs: map<string, Target>, sub: Subscription, backoff: nat -> int, start: int, body: string, maxRetries: int,
    failure: Failure)
    returns (steps: seq<Step>)
    requires Written(EXCHANGE_PUBLICATIONS, Writes(DeadAndRetrySubs(SUBSCRIPTIONS)), pubs)
    requires (sub == SAVE_TOKEN_SUB || sub == SAVE_WALLET_SUB) && failure.Other?
    ensures CrashFree(steps)
    ensures
      var s := Run(Wired(sub, backoff, pubs), start, steps);
      && s.accepted == [body] && Sum(Executions(0), s.log) == 11
      && exists c :: c in s.copies && c.id == 0 && c.place == Queued(Dead)
  {
    RepositoryDirectRoutes(pubs);
    assert sub in SUBSCRIPTIONS;
    steps := PersistentFailure(Wired(sub, backoff, pubs), start, body, maxRetries, failure);
  }
}
