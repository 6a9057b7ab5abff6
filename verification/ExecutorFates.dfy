/** What can become of a delivery, and that no message is ever stuck. */
module ExecutorFates {
  import opened Options
  import opened Sums
  import opened ExecutorProtocol
  import opened ExecutorSafety
  import opened ExecutorBounds

  /* Every message starts, and is retried, as its publisher and the failure say. */

  lemma AcceptedMessage(ex: Executor, s: State, body: string, maxRetries: int)
    ensures
      var t := Apply(ex, s, Accept(body, maxRetries));
      && t.now == s.now && t.log == s.log && t.accepted == s.accepted + [body]
      && |t.copies| == |s.copies| + 1 && t.copies[..|s.copies|] == s.copies
      && var c := t.copies[|s.copies|];
         && c.id == |s.accepted| && c.place == Queued(Process) && c.firstFailure.None?
         && c.msg.retries == 0 && c.msg.maxRetries == maxRetries && c.msg.processAfter == s.now && c.msg.error.None?
         && c.msg.payload.body == body && c.msg.payload.error.None?
  {
  }

  /** A failed execution: the copy keeps payload and error, but the publisher's limit gives way to the default one. */
  lemma FailedMessage(ex: Executor, m: Message, info: ErrorInfo, now: int)
    ensures
      var pub := Successor(ex, Process, m, Other(info), now);
      && pub.queue == Retry && pub.msg.payload == m.payload && pub.msg.retries == m.retries + 1
      && pub.msg.maxRetries == 10 && pub.msg.processAfter == now + ex.backoff(m.retries)
      && pub.msg.error == Some(info)
    ensures
      var pub := Successor(ex, Process, m, DirectToDead(info), now);
      && pub.queue == Dead && pub.msg.payload.body == m.payload.body && pub.msg.payload.error == Some(info)
      && pub.msg.retries == 0 && pub.msg.maxRetries == 10 && pub.msg.processAfter == now && pub.msg.error.None?
  {
  }

  /* Rejections and crashes. */

  predicate WithoutAction(steps: seq<Step>, a: Action) {
    forall i :: 0 <= i < |steps| && steps[i].At? ==> steps[i].action != a
  }

  predicate NotRejected(c: Copy) {
    !c.place.Discarded? && !(c.place.Unacked? && c.place.progress == Rejected)
  }

  predicate NotSucceeded(c: Copy) {
    !c.place.Completed? && !(c.place.Unacked? && c.place.progress == Succeeded)
  }

  lemma ActOriginates(ex: Executor, now: int, c: Copy, a: Action)
    ensures
      var out := Act(ex, now, c, a);
      && out.copy.id == c.id && out.copy.msg == c.msg
      && (NotRejected(c) && a != Reject ==> NotRejected(out.copy))
      && (NotSucceeded(c) && a != Succeed ==> NotSucceeded(out.copy))
      && forall d :: d in out.successor ==> NotRejected(d) && NotSucceeded(d)
  {
  }

  /**
   * Only a rejected publish throws a message away, and only a success of `execute` completes it: over every run,
   * crashes included, nothing is discarded without a rejection and nothing completed without a success.
   */
  lemma {:induction false} FatesHaveCauses(ex: Executor, start: int, steps: seq<Step>)
    ensures WithoutAction(steps, Reject) ==> forall c :: c in Run(ex, start, steps).copies ==> NotRejected(c)
    ensures WithoutAction(steps, Succeed) ==> forall c :: c in Run(ex, start, steps).copies ==> NotSucceeded(c)
  {
    if steps != [] {
      var before, step := steps[..|steps| - 1], steps[|steps| - 1];
      FatesHaveCauses(ex, start, before);
      var s, t := Run(ex, start, before), Run(ex, start, steps);
      if step.At? && step.index < |s.copies| {
        var out := Act(ex, s.now, s.copies[step.index], step.action);
        ActOriginates(ex, s.now, s.copies[step.index], step.action);
        forall c | c in t.copies
          ensures c in s.copies || c == out.copy || c in out.successor
        {
        }
      }
    }
  }

  /** As long as no publish is rejected, every accepted payload is queued, in the hands of a handler, or completed. */
  lemma NoLossUnrejected(ex: Executor, start: int, steps: seq<Step>, id: nat) returns (i: nat)
    requires id < |Run(ex, start, steps).accepted| && WithoutAction(steps, Reject)
    ensures
      var s := Run(ex, start, steps);
      && i < |s.copies| && s.copies[i].id == id && s.copies[i].msg.payload.body == s.accepted[id]
      && match s.copies[i].place
         case Queued(_) => true
         case Unacked(_, progress) => progress == Started || progress == Succeeded
         case Completed => true
         case _ => false
  {
    i := NoLoss(ex, start, steps, id);
    FatesHaveCauses(ex, start, steps);
    assert NotRejected(Run(ex, start, steps).copies[i]);
  }

  lemma TwoActions(ex: Executor, s: State, i: nat, a: Action, b: Action)
    ensures RunFrom(ex, s, [At(i, a), At(i, b)]) == Apply(ex, Apply(ex, s, At(i, a)), At(i, b))
  {
    assert [At(i, a), At(i, b)] == [At(i, a)] + [At(i, b)];
    RunFromConcat(ex, s, [At(i, a)], [At(i, b)]);
    RunFromOne(ex, s, At(i, a));
    RunFromOne(ex, Apply(ex, s, At(i, a)), At(i, b));
  }

  /** A crash gives a delivery back to its queue with its message unchanged, however far its handler had come. */
  lemma InterruptReturns(ex: Executor, s: State, i: nat)
    requires i < |s.copies| && s.copies[i].place.Unacked?
    ensures
      var t := Apply(ex, s, At(i, Interrupt));
      && t.copies == s.copies[i := s.copies[i].(place := Queued(s.copies[i].place.queue))]
      && t.now == s.now && t.accepted == s.accepted
      && t.log == s.log + [Interrupted(s.copies[i].id, s.copies[i].place.progress == Published)]
  {
    assert Apply(ex, s, At(i, Interrupt)).copies
        == s.copies[i := s.copies[i].(place := Queued(s.copies[i].place.queue))] + [];
  }

  /** So the same message is delivered to the same handler again. */
  lemma InterruptRedelivers(ex: Executor, s: State, i: nat)
    requires i < |s.copies| && s.copies[i].place.Unacked?
    ensures RunFrom(ex, s, [At(i, Interrupt), At(i, Deliver)]).copies
         == s.copies[i := s.copies[i].(place := Unacked(s.copies[i].place.queue, Started))]
  {
    var c := s.copies[i];
    TwoActions(ex, s, i, Interrupt, Deliver);
    InterruptReturns(ex, s, i);
    var back := Apply(ex, s, At(i, Interrupt));
    assert Apply(ex, back, At(i, Deliver)).copies
        == back.copies[i := c.(place := Unacked(c.place.queue, Started))] + [];
  }

  /** A successful execution completes the message, and publishes nothing. */
  lemma SuccessCompletes(ex: Executor, s: State, i: nat)
    requires i < |s.copies| && s.copies[i].place == Queued(Process)
    ensures RunFrom(ex, s, [At(i, Deliver), At(i, Succeed), At(i, Settle)]).copies
         == s.copies[i := s.copies[i].(place := Completed)]
  {
    var c := s.copies[i];
    ThreeActions(ex, s, i, Deliver, Succeed, Settle);
    var s1 := Apply(ex, s, At(i, Deliver));
    assert s1.copies == s.copies[i := c.(place := Unacked(Process, Started))] + [];
    var s2 := Apply(ex, s1, At(i, Succeed));
    assert s2.copies == s1.copies[i := c.(place := Unacked(Process, Succeeded))] + [];
    assert Apply(ex, s2, At(i, Settle)).copies == s2.copies[i := c.(place := Completed)] + [];
  }

  /** A rejected publish discards the message of any queue, and publishes nothing. */
  lemma RejectionDiscards(ex: Executor, s: State, i: nat)
    requires i < |s.copies| && s.copies[i].place.Queued?
    ensures RunFrom(ex, s, [At(i, Deliver), At(i, Reject), At(i, Settle)]).copies
         == s.copies[i := s.copies[i].(place := Discarded)]
  {
    var c := s.copies[i];
    ThreeActions(ex, s, i, Deliver, Reject, Settle);
    var s1 := Apply(ex, s, At(i, Deliver));
    assert s1.copies == s.copies[i := c.(place := Unacked(c.place.queue, Started))] + [];
    var s2 := Apply(ex, s1, At(i, Reject));
    assert s2.copies == s1.copies[i := c.(place := Unacked(c.place.queue, Rejected))] + [];
    assert Apply(ex, s2, At(i, Settle)).copies == s2.copies[i := c.(place := Discarded)] + [];
  }

  /** What the log tells: which action writes which event. */
  lemma LogTells(ex: Executor, now: int, c: Copy, a: Action)
    ensures
      var events := Act(ex, now, c, a).events;
      && |events| <= 1
      && (Executed(c.id, c.msg.retries, now, c.firstFailure) in events <==> a == Deliver && c.place == Queued(Process))
      && (Interrupted(c.id, true) in events <==>
            a == Interrupt && c.place.Unacked? && c.place.progress == Published)
      && (Interrupted(c.id, false) in events <==>
            a == Interrupt && c.place.Unacked? && c.place.progress != Published)
      && (Recovered(c.id) in events <==> a.Forward? && ex.directRoute && c.place == Unacked(Dead, Started))
      && (Waited(c.id) in events <==>
            a.Forward? && c.place == Unacked(Retry, Started) && CanBeRetried(ex, c.msg) && ShouldWait(c.msg, now))
      && (Hopped(c.id) in events <==>
            || (a == Succeed && c.place == Unacked(Process, Started))
            || (a == Reject && c.place.Unacked? && c.place.progress == Started && c.place.queue != Dead)
            || (a.Forward? && c.place == Unacked(Process, Started))
            || (a.Forward? && c.place == Unacked(Retry, Started)
                && (!CanBeRetried(ex, c.msg) || (ex.directRoute && !ShouldWait(c.msg, now)))))
      && (forall e :: e in events ==> e.id == c.id && (e.Executed? ==> a == Deliver))
  {
  }

  /** An action acts on a copy that it is possible for, and leaves every other alone. */
  lemma ActsWhenPossible(ex: Executor, now: int, c: Copy, a: Action)
    requires
      match a
      case Deliver => !c.place.Queued?
      case Succeed => c.place != Unacked(Process, Started)
      case Forward(_) => !c.place.Unacked? || c.place.progress != Started
      case Reject => !c.place.Unacked? || c.place.progress != Started
      case Settle => !c.place.Unacked? || c.place.progress == Started
      case Interrupt => !c.place.Unacked?
    ensures Act(ex, now, c, a) == Outcome(c, [], [])
  {
  }

  ghost predicate WasExecuted(log: seq<Event>, id: nat, retries: nat) {
    exists i :: 0 <= i < |log| && log[i].Executed? && log[i].id == id && log[i].retries == retries
  }

  ghost predicate EverExecuted(log: seq<Event>, id: nat) {
    exists i :: 0 <= i < |log| && log[i].Executed? && log[i].id == id
  }

  /** A copy at the process handler, or completed, was executed itself; any other but a waiting one, in some copy. */
  ghost predicate CopyExecuted(log: seq<Event>, c: Copy) {
    && (c.place.Completed? || (c.place.Unacked? && (c.place.queue == Process || c.place.progress == Succeeded)) ==>
          WasExecuted(log, c.id, c.msg.retries))
    && (c.place != Queued(Process) ==> EverExecuted(log, c.id))
    && (c.msg.retries > 0 ==> EverExecuted(log, c.id))
  }

  ghost predicate AllExecuted(s: State) {
    forall i :: 0 <= i < |s.copies| ==> CopyExecuted(s.log, s.copies[i])
  }

  lemma ExecutedStays(log: seq<Event>, more: seq<Event>, c: Copy)
    requires CopyExecuted(log, c)
    ensures CopyExecuted(log + more, c)
  {
    var all := log + more;
    if WasExecuted(log, c.id, c.msg.retries) {
      var i :| 0 <= i < |log| && log[i].Executed? && log[i].id == c.id && log[i].retries == c.msg.retries;
      assert all[i] == log[i];
    }
    if EverExecuted(log, c.id) {
      var i :| 0 <= i < |log| && log[i].Executed? && log[i].id == c.id;
      assert all[i] == log[i];
    }
  }

  lemma ActKeepsExecuted(ex: Executor, log: seq<Event>, now: int, c: Copy, a: Action)
    requires CopyExecuted(log, c)
    ensures
      var out := Act(ex, now, c, a);
      CopyExecuted(log + out.events, out.copy)
      && forall d :: d in out.successor ==> CopyExecuted(log + out.events, d)
  {
    var out := Act(ex, now, c, a);
    ExecutedStays(log, out.events, c);
    if a == Deliver && c.place == Queued(Process) {
      assert (log + out.events)[|log|] == Executed(c.id, c.msg.retries, now, c.firstFailure);
    }
  }

  lemma AdvanceKeepsExecuted(s: State, i: nat, out: Outcome)
    requires AllExecuted(s) && i < |s.copies| && CopyExecuted(s.log + out.events, out.copy)
    requires forall d :: d in out.successor ==> CopyExecuted(s.log + out.events, d)
    ensures AllExecuted(Advance(s, i, out))
  {
    var t := Advance(s, i, out);
    forall k | 0 <= k < |t.copies|
      ensures CopyExecuted(t.log, t.copies[k])
    {
      if k < |s.copies| && k != i {
        ExecutedStays(s.log, out.events, s.copies[k]);
      } else if k >= |s.copies| {
        assert t.copies[k] in out.successor;
      }
    }
  }

  /**
   * Over every run: a message is completed only by an execution of the very copy that succeeded, and nothing leaves the
   * process queue, is retried, dies or is discarded without the message having been executed.
   */
  lemma {:induction false} NothingWithoutExecution(ex: Executor, start: int, steps: seq<Step>)
    ensures AllExecuted(Run(ex, start, steps))
  {
    if steps != [] {
      var before, step := steps[..|steps| - 1], steps[|steps| - 1];
      NothingWithoutExecution(ex, start, before);
      var s := Run(ex, start, before);
      if step.At? && step.index < |s.copies| {
        ActKeepsExecuted(ex, s.log, s.now, s.copies[step.index], step.action);
        AdvanceKeepsExecuted(s, step.index, Act(ex, s.now, s.copies[step.index], step.action));
      }
    }
  }

  /* Nothing is stuck. */

  lemma SetPlace(ex: Executor, s: State, i: nat) returns (run: seq<Step>)
    requires i < |s.copies| && s.copies[i].place.Unacked?
    ensures RunFrom(ex, s, run).copies == s.copies[i := s.copies[i].(place := Queued(s.copies[i].place.queue))]
  {
    run := [At(i, Interrupt)];
    RunFromOne(ex, s, At(i, Interrupt));
    InterruptReturns(ex, s, i);
  }

  /** Some copy of the message is completed in `t`. */
  ghost predicate Done(t: State, id: nat, body: string) {
    exists c :: c in t.copies && c.id == id && c.place == Completed && c.msg.payload.body == body
  }

  lemma ProcessCompletes(ex: Executor, s: State, i: nat) returns (run: seq<Step>)
    requires i < |s.copies| && s.copies[i].place == Queued(Process)
    ensures Done(RunFrom(ex, s, run), s.copies[i].id, s.copies[i].msg.payload.body)
  {
    run := [At(i, Deliver), At(i, Succeed), At(i, Settle)];
    SuccessCompletes(ex, s, i);
    assert RunFrom(ex, s, run).copies[i].place == Completed;
  }

  lemma DeadCompletes(ex: Executor, s: State, i: nat, any: Failure) returns (run: seq<Step>)
    requires ex.directRoute && i < |s.copies| && s.copies[i].place == Queued(Dead)
    ensures Done(RunFrom(ex, s, run), s.copies[i].id, s.copies[i].msg.payload.body)
  {
    var recover := HandlerSteps(i, any);
    var t := HandlerRun(ex, s, i, any);
    var rest := ProcessCompletes(ex, t, |s.copies|);
    RunFromConcat(ex, s, recover, rest);
    run := recover + rest;
  }

  lemma RetryCompletes(ex: Executor, s: State, i: nat, any: Failure) returns (run: seq<Step>)
    requires ex.directRoute && i < |s.copies| && s.copies[i].place == Queued(Retry)
    ensures Done(RunFrom(ex, s, run), s.copies[i].id, s.copies[i].msg.payload.body)
  {
    var m := s.copies[i].msg;
    var wait := Tick(if m.processAfter > s.now then m.processAfter - s.now else 0);
    RunFromOne(ex, s, wait);
    var due := Apply(ex, s, wait);
    var t := HandlerRun(ex, due, i, any);
    var rest: seq<Step>;
    if t.copies[|s.copies|].place == Queued(Process) {
      rest := ProcessCompletes(ex, t, |s.copies|);
    } else {
      rest := DeadCompletes(ex, t, |s.copies|, any);
    }
    RunFromConcat(ex, due, HandlerSteps(i, any), rest);
    RunFromConcat(ex, s, [wait], HandlerSteps(i, any) + rest);
    run := [wait] + (HandlerSteps(i, any) + rest);
  }

  lemma QueuedCompletes(ex: Executor, s: State, i: nat, any: Failure) returns (run: seq<Step>)
    requires ex.directRoute && i < |s.copies| && s.copies[i].place.Queued?
    ensures Done(RunFrom(ex, s, run), s.copies[i].id, s.copies[i].msg.payload.body)
  {
    match s.copies[i].place.queue
    case Process => run := ProcessCompletes(ex, s, i);
    case Retry => run := RetryCompletes(ex, s, i, any);
    case Dead => run := DeadCompletes(ex, s, i, any);
  }

  /**
   * No message is ever stuck: with a direct publication, after any run that rejected no publish, crashes included,
   * any accepted message can still be completed with its body.
   */
  lemma NeverStuck(ex: Executor, start: int, steps: seq<Step>, id: nat, any: Failure) returns (run: seq<Step>)
    requires ex.directRoute && id < |Run(ex, start, steps).accepted| && WithoutAction(steps, Reject)
    ensures Done(RunFrom(ex, Run(ex, start, steps), run), id, Run(ex, start, steps).accepted[id])
  {
    var s := Run(ex, start, steps);
    var i := NoLossUnrejected(ex, start, steps, id);
    match s.copies[i].place
    case Completed =>
      run := [];
      assert s.copies[i] in s.copies;
    case Queued(_) => run := QueuedCompletes(ex, s, i, any);
    case Unacked(_, _) =>
      var back := SetPlace(ex, s, i);
      var rest := QueuedCompletes(ex, RunFrom(ex, s, back), i, any);
      RunFromConcat(ex, s, back, rest);
      run := back + rest;
  }
}
