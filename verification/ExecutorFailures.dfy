/**
 * The time of the first failure that copies carry along is that of a real one: so the bounds on retries are bounds
 * between executions.
 */
module ExecutorFailures {
  import opened Options
  import opened ExecutorProtocol
  import opened ExecutorTiming

  /** The first execution of message `id` had begun by then: the one that carries no retries. */
  ghost predicate Begun(log: seq<Event>, id: nat, due: int) {
    exists i :: 0 <= i < |log| && log[i].Executed? && log[i].id == id && log[i].retries == 0 && log[i].at <= due
  }

  ghost predicate CopyKnown(log: seq<Event>, now: int, c: Copy) {
    && (c.firstFailure.Some? ==> Begun(log, c.id, c.firstFailure.value) && c.firstFailure.value <= now)
    && (c.place == Unacked(Process, Started) && c.firstFailure.None? ==> Begun(log, c.id, now))
  }

  ghost predicate EventKnown(log: seq<Event>, e: Event) {
    e.Executed? && e.firstFailure.Some? ==> Begun(log, e.id, e.firstFailure.value)
  }

  ghost predicate AllKnown(s: State) {
    && (forall i :: 0 <= i < |s.copies| ==> CopyKnown(s.log, s.now, s.copies[i]))
    && (forall i :: 0 <= i < |s.log| ==> EventKnown(s.log, s.log[i]))
  }

  lemma BegunStays(log: seq<Event>, more: seq<Event>, id: nat, due: int, later: int)
    requires Begun(log, id, due) && due <= later
    ensures Begun(log + more, id, later)
  {
    var i :| 0 <= i < |log| && log[i].Executed? && log[i].id == id && log[i].retries == 0 && log[i].at <= due;
    assert (log + more)[i] == log[i];
  }

  lemma CopyStaysKnown(log: seq<Event>, more: seq<Event>, now: int, later: int, c: Copy)
    requires CopyKnown(log, now, c) && now <= later
    ensures CopyKnown(log + more, later, c)
  {
    if c.firstFailure.Some? {
      BegunStays(log, more, c.id, c.firstFailure.value, c.firstFailure.value);
    } else if c.place == Unacked(Process, Started) {
      BegunStays(log, more, c.id, now, later);
    }
  }

  lemma ActKeepsKnown(ex: Executor, log: seq<Event>, now: int, c: Copy, a: Action)
    requires CopyKnown(log, now, c) && CopyTimed(ex, now, c)
    ensures
      var out := Act(ex, now, c, a);
      && CopyKnown(log + out.events, now, out.copy)
      && (forall d :: d in out.successor ==> CopyKnown(log + out.events, now, d))
      && (forall e :: e in out.events ==> EventKnown(log, e))
  {
    var out := Act(ex, now, c, a);
    CopyStaysKnown(log, out.events, now, now, c);
    if a == Deliver && c.place == Queued(Process) && c.firstFailure.None? {
      assert c.msg.retries == 0;
      assert (log + out.events)[|log|] == Executed(c.id, 0, now, None);
    }
  }

  lemma AdvanceKeepsKnown(s: State, i: nat, out: Outcome)
    requires AllKnown(s) && i < |s.copies|
    requires CopyKnown(s.log + out.events, s.now, out.copy)
    requires forall d :: d in out.successor ==> CopyKnown(s.log + out.events, s.now, d)
    requires forall e :: e in out.events ==> EventKnown(s.log, e)
    ensures AllKnown(Advance(s, i, out))
  {
    var t := Advance(s, i, out);
    forall k | 0 <= k < |t.copies|
      ensures CopyKnown(t.log, t.now, t.copies[k])
    {
      if k < |s.copies| && k != i {
        CopyStaysKnown(s.log, out.events, s.now, s.now, s.copies[k]);
      } else if k >= |s.copies| {
        assert t.copies[k] in out.successor;
      }
    }
    forall k | 0 <= k < |t.log|
      ensures EventKnown(t.log, t.log[k])
    {
      var e := t.log[k];
      assert EventKnown(s.log, e) by {
        if k >= |s.log| {
          assert e in out.events;
        }
      }
      if e.Executed? && e.firstFailure.Some? {
        BegunStays(s.log, out.events, e.id, e.firstFailure.value, e.firstFailure.value);
      }
    }
  }

  lemma {:induction false} RunKnown(ex: Executor, start: int, steps: seq<Step>)
    ensures AllKnown(Run(ex, start, steps))
  {
    if steps != [] {
      var before, step := steps[..|steps| - 1], steps[|steps| - 1];
      RunKnown(ex, start, before);
      RunTimed(ex, start, before);
      var s := Run(ex, start, before);
      assert s.log + [] == s.log;
      match step
      case Accept(_, _) =>
      case Tick(elapsed) =>
        forall i | 0 <= i < |s.copies|
          ensures CopyKnown(s.log, s.now + elapsed, s.copies[i])
        {
          CopyStaysKnown(s.log, [], s.now, s.now + elapsed, s.copies[i]);
        }
      case At(i, a) =>
        if i < |s.copies| {
          assert CopyTimed(ex, s.now, s.copies[i]);
          ActKeepsKnown(ex, s.log, s.now, s.copies[i], a);
          AdvanceKeepsKnown(s, i, Act(ex, s.now, s.copies[i], a));
        }
    }
  }

  /**
   * Over every run, crashes and dead recovery included: before an execution that carries retries, and at least all
   * delays so far before it, lies an execution of the same message that carried none.
   */
  lemma RetryAfterFirst(ex: Executor, start: int, steps: seq<Step>, e: Event) returns (first: Event)
    requires e in Run(ex, start, steps).log && e.Executed? && e.retries > 0
    ensures first in Run(ex, start, steps).log && first.Executed? && first.id == e.id && first.retries == 0
    ensures first.at + TotalDelay(ex, e.retries) <= e.at
  {
    var log := Run(ex, start, steps).log;
    RunTimed(ex, start, steps);
    RunKnown(ex, start, steps);
    var k :| 0 <= k < |log| && log[k] == e;
    assert EventTimed(ex, log[k]) && EventKnown(log, log[k]);
    var i :| 0 <= i < |log| && log[i].Executed? && log[i].id == e.id && log[i].retries == 0
          && log[i].at <= e.firstFailure.value;
    first := log[i];
  }
}
