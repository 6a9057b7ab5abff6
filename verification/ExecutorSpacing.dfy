/**
 * The executions of one message, one after the other: without crashes and dead recovery they carry 0, 1, 2, ...
 * retries, and between two of them lies at least the backoff of the first.
 */
module ExecutorSpacing {
  import opened Options
  import opened Sums
  import opened ExecutorProtocol
  import opened ExecutorSafety
  import opened ExecutorBounds
  import opened ExecutorTiming

  /** `starts`, the executions so far, have been followed by the backoff of the last one. */
  predicate WaitedOut(ex: Executor, starts: seq<Event>, due: int) {
    starts != [] && starts[|starts| - 1].Executed? ==> starts[|starts| - 1].at + ex.backoff(|starts| - 1) <= due
  }

  predicate Spaced(ex: Executor, starts: seq<Event>) {
    && (forall j :: 0 <= j < |starts| ==> starts[j].Executed? && starts[j].retries == j)
    && (forall j, k :: 0 <= j && k == j + 1 < |starts| ==> starts[j].at + ex.backoff(j) <= starts[k].at)
  }

  /** Something is still to be done with the copy. */
  predicate Active(p: Place) {
    p.Queued? || (p.Unacked? && p.progress == Started)
  }

  /** Where a copy is in its succession of executions; `direct` allows failures that go straight to the dead queue. */
  predicate CopyOnTime(ex: Executor, now: int, starts: seq<Event>, direct: bool, c: Copy) {
    Active(c.place) ==>
      match c.place.queue
      case Process =>
        if c.place.Queued? then c.msg.retries == |starts| && WaitedOut(ex, starts, now)
        else |starts| == c.msg.retries + 1 && starts[|starts| - 1].Executed? && starts[|starts| - 1].at <= now
      case Retry => c.msg.retries == |starts| && |starts| > 0 && WaitedOut(ex, starts, c.msg.processAfter)
      case Dead => direct || !ex.retriable || |starts| == DEFAULT_MAX_RETRIES + 1
  }

  predicate OneActive(copies: seq<Copy>, id: nat) {
    forall i, j :: 0 <= i < j < |copies| && copies[i].id == copies[j].id == id ==>
      !(Active(copies[i].place) && Active(copies[j].place))
  }

  predicate CopiesOnTime(ex: Executor, now: int, starts: seq<Event>, direct: bool, copies: seq<Copy>, id: nat) {
    forall i :: 0 <= i < |copies| && copies[i].id == id ==> CopyOnTime(ex, now, starts, direct, copies[i])
  }

  predicate OnTime(ex: Executor, s: State, id: nat, direct: bool) {
    var starts := Starts(id, s.log);
    && Spaced(ex, starts) && CopiesOnTime(ex, s.now, starts, direct, s.copies, id) && OneActive(s.copies, id)
    && (id >= |s.accepted| ==> starts == [] && forall i :: 0 <= i < |s.copies| ==> s.copies[i].id != id)
  }

  lemma DeliverOnTime(ex: Executor, now: int, starts: seq<Event>, direct: bool, c: Copy)
    requires Spaced(ex, starts) && CopyOnTime(ex, now, starts, direct, c) && c.place == Queued(Process)
    ensures
      var next := starts + [Executed(c.id, c.msg.retries, now, c.firstFailure)];
      Spaced(ex, next) && CopyOnTime(ex, now, next, direct, c.(place := Unacked(Process, Started)))
  {
  }

  lemma SuccessorOnTime(
    ex: Executor, now: int, starts: seq<Event>, direct: bool, c: Copy, q: Queue, failure: Failure, d: Copy)
    requires Spaced(ex, starts) && CopyOnTime(ex, now, starts, direct, c) && c.place == Unacked(q, Started)
    requires q != Dead && MessageOk(ex, q, c.msg) && (failure.DirectToDead? ==> direct)
    requires
      var pub := Successor(ex, q, c.msg, failure, now);
      d.place == Queued(pub.queue) && d.msg == pub.msg
    ensures CopyOnTime(ex, now, starts, direct, d)
  {
  }

  /** The copy itself, after an action that starts no execution. */
  lemma QuietCopy(ex: Executor, now: int, starts: seq<Event>, direct: bool, c: Copy, a: Action)
    requires CopyOnTime(ex, now, starts, direct, c) && a != Interrupt && !(a == Deliver && c.place == Queued(Process))
    ensures CopyOnTime(ex, now, starts, direct, Act(ex, now, c, a).copy)
  {
  }

  lemma ActEvents(ex: Executor, now: int, c: Copy, a: Action)
    ensures
      var events := Act(ex, now, c, a).events;
      && |events| <= 1
      && (events != [] ==> events[0].id == c.id)
      && (events != [] && events[0].Executed? ==> a == Deliver && c.place == Queued(Process))
  {
  }

  lemma ActSuccessor(ex: Executor, now: int, c: Copy, a: Action)
    requires Act(ex, now, c, a).successor != []
    ensures a.Forward? && c.place.Unacked? && c.place.progress == Started
    ensures
      var q, d := c.place.queue, Act(ex, now, c, a).successor[0];
      var pub := Successor(ex, q, c.msg, a.failure, now);
      && Act(ex, now, c, a).successor == [d]
      && d.id == c.id && d.place == Queued(pub.queue) && d.msg == pub.msg
      && Act(ex, now, c, a).copy == c.(place := Unacked(q, Published))
      && Act(ex, now, c, a).events == [ForwardEvent(c, q, pub.queue)]
  {
  }

  /** An action that starts no execution. */
  lemma QuietOnTime(ex: Executor, accepted: seq<string>, now: int, starts: seq<Event>, direct: bool, c: Copy, a: Action)
    requires Spaced(ex, starts) && CopyOnTime(ex, now, starts, direct, c) && CopyOk(ex, accepted, c)
    requires a != Interrupt && (a.Forward? && a.failure.DirectToDead? ==> direct)
    requires Recovered(c.id) !in Act(ex, now, c, a).events && !(a == Deliver && c.place == Queued(Process))
    ensures
      var out := Act(ex, now, c, a);
      && Starts(c.id, out.events) == [] && CopyOnTime(ex, now, starts, direct, out.copy)
      && (forall d :: d in out.successor ==> CopyOnTime(ex, now, starts, direct, d))
  {
    var out := Act(ex, now, c, a);
    ActEvents(ex, now, c, a);
    ShortStarts(c.id, out.events);
    QuietCopy(ex, now, starts, direct, c, a);
    if out.successor != [] {
      ActSuccessor(ex, now, c, a);
      var q := c.place.queue;
      assert q == Dead ==> Recovered(c.id) in out.events;
      SuccessorOnTime(ex, now, starts, direct, c, q, a.failure, out.successor[0]);
    }
  }

  lemma ActOnTime(ex: Executor, accepted: seq<string>, now: int, starts: seq<Event>, direct: bool, c: Copy, a: Action)
    requires Spaced(ex, starts) && CopyOnTime(ex, now, starts, direct, c) && CopyOk(ex, accepted, c)
    requires a != Interrupt && (a.Forward? && a.failure.DirectToDead? ==> direct)
    requires Recovered(c.id) !in Act(ex, now, c, a).events
    ensures
      var out := Act(ex, now, c, a);
      var next := starts + Starts(c.id, out.events);
      && Spaced(ex, next) && CopyOnTime(ex, now, next, direct, out.copy)
      && (forall d :: d in out.successor ==> CopyOnTime(ex, now, next, direct, d))
  {
    if a == Deliver && c.place == Queued(Process) {
      ShortStarts(c.id, Act(ex, now, c, a).events);
      DeliverOnTime(ex, now, starts, direct, c);
    } else {
      QuietOnTime(ex, accepted, now, starts, direct, c, a);
      assert starts + [] == starts;
    }
  }

  lemma ActStaysActive(ex: Executor, now: int, c: Copy, a: Action)
    requires a != Interrupt
    ensures
      var out := Act(ex, now, c, a);
      && out.copy.id == c.id && |out.successor| <= 1
      && (Active(out.copy.place) || out.successor != [] ==> Active(c.place))
      && (out.successor != [] ==> out.successor[0].id == c.id && !Active(out.copy.place))
  {
    if Act(ex, now, c, a).successor != [] {
      ActSuccessor(ex, now, c, a);
    }
  }

  /** Steps of other messages' copies. */
  lemma OthersOnTime(ex: Executor, s: State, t: State, id: nat, direct: bool)
    requires OnTime(ex, s, id, direct)
    requires t.now == s.now && t.accepted == s.accepted && Starts(id, t.log) == Starts(id, s.log)
    requires forall k :: 0 <= k < |t.copies| && t.copies[k].id == id ==> k < |s.copies| && t.copies[k] == s.copies[k]
    ensures OnTime(ex, t, id, direct)
  {
    var starts := Starts(id, s.log);
    forall k | 0 <= k < |t.copies| && t.copies[k].id == id
      ensures CopyOnTime(ex, t.now, starts, direct, t.copies[k])
    {
      assert CopyOnTime(ex, s.now, starts, direct, s.copies[k]);
    }
    forall i, j | 0 <= i < j < |t.copies| && t.copies[i].id == t.copies[j].id == id
      ensures !(Active(t.copies[i].place) && Active(t.copies[j].place))
    {
      assert !(Active(s.copies[i].place) && Active(s.copies[j].place));
    }
  }

  lemma ActOthers(ex: Executor, now: int, c: Copy, a: Action, id: nat)
    requires id != c.id
    ensures
      var out := Act(ex, now, c, a);
      out.copy.id == c.id && Starts(id, out.events) == [] && forall d :: d in out.successor ==> d.id == c.id
  {
    var out := Act(ex, now, c, a);
    ActEvents(ex, now, c, a);
    ShortStarts(id, out.events);
  }

  lemma AdvanceOthers(ex: Executor, s: State, i: nat, out: Outcome, id: nat, direct: bool)
    requires OnTime(ex, s, id, direct) && i < |s.copies| && s.copies[i].id != id
    requires out.copy.id != id && Starts(id, out.events) == [] && forall d :: d in out.successor ==> d.id != id
    ensures OnTime(ex, Advance(s, i, out), id, direct)
  {
    var t := Advance(s, i, out);
    StartsConcat(id, s.log, out.events);
    assert Starts(id, s.log) + [] == Starts(id, s.log);
    OthersOnTime(ex, s, t, id, direct);
  }

  lemma AdvanceKeepsOthers(ex: Executor, s: State, i: nat, a: Action, id: nat, direct: bool)
    requires OnTime(ex, s, id, direct) && i < |s.copies| && s.copies[i].id != id
    ensures OnTime(ex, Advance(s, i, Act(ex, s.now, s.copies[i], a)), id, direct)
  {
    ActOthers(ex, s.now, s.copies[i], a, id);
    AdvanceOthers(ex, s, i, Act(ex, s.now, s.copies[i], a), id, direct);
  }

  /** What an outcome does to the one copy that something is still to be done with. */
  predicate HandsOver(c: Copy, out: Outcome) {
    && out.copy.id == c.id && |out.successor| <= 1
    && (Active(out.copy.place) || out.successor != [] || Starts(c.id, out.events) != [] ==> Active(c.place))
    && (out.successor != [] ==> out.successor[0].id == c.id && !Active(out.copy.place))
  }

  lemma ActHandsOver(ex: Executor, now: int, c: Copy, a: Action)
    requires a != Interrupt
    ensures HandsOver(c, Act(ex, now, c, a))
  {
    ActStaysActive(ex, now, c, a);
    ActEvents(ex, now, c, a);
    ShortStarts(c.id, Act(ex, now, c, a).events);
  }

  lemma AdvanceKeepsOneActive(s: State, i: nat, out: Outcome)
    requires i < |s.copies| && OneActive(s.copies, s.copies[i].id) && HandsOver(s.copies[i], out)
    ensures OneActive(Advance(s, i, out).copies, s.copies[i].id)
  {
    var c := s.copies[i];
    assert forall k :: 0 <= k < |s.copies| && k != i && s.copies[k].id == c.id && Active(c.place) ==>
      !Active(s.copies[k].place);
  }

  /** The copies, when copy `i` turns into `out` and the executions into `next`. */
  lemma CopiesStayOnTime(
    ex: Executor, s: State, i: nat, out: Outcome, starts: seq<Event>, next: seq<Event>, direct: bool, id: nat)
    requires i < |s.copies| && s.copies[i].id == id
    requires CopiesOnTime(ex, s.now, starts, direct, s.copies, id) && OneActive(s.copies, id)
    requires next == starts || Active(s.copies[i].place)
    requires CopyOnTime(ex, s.now, next, direct, out.copy)
    requires forall d :: d in out.successor ==> CopyOnTime(ex, s.now, next, direct, d)
    ensures CopiesOnTime(ex, s.now, next, direct, Advance(s, i, out).copies, id)
  {
    var copies := Advance(s, i, out).copies;
    forall k | 0 <= k < |copies| && copies[k].id == id
      ensures CopyOnTime(ex, s.now, next, direct, copies[k])
    {
      if k < |s.copies| && k != i {
        assert CopyOnTime(ex, s.now, starts, direct, s.copies[k]);
        assert Active(s.copies[i].place) ==> !Active(s.copies[k].place);
      } else if k >= |s.copies| {
        assert copies[k] in out.successor;
      }
    }
  }

  lemma AdvanceOnTime(ex: Executor, s: State, i: nat, out: Outcome, direct: bool)
    requires i < |s.copies| && OnTime(ex, s, s.copies[i].id, direct) && HandsOver(s.copies[i], out)
    requires
      var next := Starts(s.copies[i].id, s.log) + Starts(s.copies[i].id, out.events);
      && Spaced(ex, next) && CopyOnTime(ex, s.now, next, direct, out.copy)
      && (forall d :: d in out.successor ==> CopyOnTime(ex, s.now, next, direct, d))
    requires s.copies[i].id < |s.accepted|
    ensures OnTime(ex, Advance(s, i, out), s.copies[i].id, direct)
  {
    var id := s.copies[i].id;
    var starts := Starts(id, s.log);
    StartsConcat(id, s.log, out.events);
    AdvanceKeepsOneActive(s, i, out);
    assert starts + [] == starts;
    CopiesStayOnTime(ex, s, i, out, starts, starts + Starts(id, out.events), direct, id);
  }

  lemma AdvanceKeepsOnTime(ex: Executor, s: State, i: nat, a: Action, direct: bool)
    requires i < |s.copies| && OnTime(ex, s, s.copies[i].id, direct) && CopyOk(ex, s.accepted, s.copies[i])
    requires a != Interrupt && (a.Forward? && a.failure.DirectToDead? ==> direct)
    requires Recovered(s.copies[i].id) !in Act(ex, s.now, s.copies[i], a).events
    ensures OnTime(ex, Advance(s, i, Act(ex, s.now, s.copies[i], a)), s.copies[i].id, direct)
  {
    var c := s.copies[i];
    ActHandsOver(ex, s.now, c, a);
    ActOnTime(ex, s.accepted, s.now, Starts(c.id, s.log), direct, c, a);
    AdvanceOnTime(ex, s, i, Act(ex, s.now, c, a), direct);
  }

  predicate NoDirect(steps: seq<Step>) {
    forall i :: 0 <= i < |steps| && steps[i].At? && steps[i].action.Forward? ==> steps[i].action.failure.Other?
  }

  lemma AcceptKeepsOnTime(ex: Executor, s: State, step: Step, id: nat, direct: bool)
    requires OnTime(ex, s, id, direct) && step.Accept?
    ensures OnTime(ex, Apply(ex, s, step), id, direct)
  {
  }

  lemma TickKeepsOnTime(ex: Executor, s: State, elapsed: nat, id: nat, direct: bool)
    requires OnTime(ex, s, id, direct)
    ensures OnTime(ex, Apply(ex, s, Tick(elapsed)), id, direct)
  {
  }

  /** Over every crash-free run, as long as the message has not been recovered from the dead queue. */
  lemma {:induction false} RunOnTime(ex: Executor, start: int, steps: seq<Step>, id: nat, direct: bool)
    requires CrashFree(steps) && (direct || NoDirect(steps)) && Recovered(id) !in Run(ex, start, steps).log
    ensures OnTime(ex, Run(ex, start, steps), id, direct)
  {
    if steps != [] {
      var before, step := steps[..|steps| - 1], steps[|steps| - 1];
      var s := Run(ex, start, before);
      assert forall e :: e in s.log ==> e in Run(ex, start, steps).log;
      RunOnTime(ex, start, before, id, direct);
      match step
      case Accept(_, _) => AcceptKeepsOnTime(ex, s, step, id, direct);
      case Tick(elapsed) => TickKeepsOnTime(ex, s, elapsed, id, direct);
      case At(i, a) =>
        if i < |s.copies| {
          if s.copies[i].id == id {
            RunKeepsMessages(ex, start, before);
            assert CopyOk(ex, s.accepted, s.copies[i]);
            AdvanceKeepsOnTime(ex, s, i, a, direct);
          } else {
            AdvanceKeepsOthers(ex, s, i, a, id, direct);
          }
        }
    }
  }

  /** The k-th execution carries k retries, and the next one waits at least for its backoff. */
  lemma ExecutionsSpaced(ex: Executor, start: int, steps: seq<Step>, id: nat)
    requires CrashFree(steps) && Recovered(id) !in Run(ex, start, steps).log
    ensures Spaced(ex, Starts(id, Run(ex, start, steps).log))
  {
    RunOnTime(ex, start, steps, id, true);
  }

  /**
   * A message dies of eleven executions and no fewer: unless one of them fails with a DirectToDead, it is in the dead
   * queue only after exactly eleven.
   */
  lemma DeadAfterEleven(ex: Executor, start: int, steps: seq<Step>, c: Copy)
    requires ex.retriable && CrashFree(steps) && NoDirect(steps)
    requires Recovered(c.id) !in Run(ex, start, steps).log
    requires c in Run(ex, start, steps).copies && c.place == Queued(Dead)
    ensures Sum(Executions(c.id), Run(ex, start, steps).log) == 11
  {
    RunOnTime(ex, start, steps, c.id, false);
    StartsCounted(c.id, Run(ex, start, steps).log);
  }
}
