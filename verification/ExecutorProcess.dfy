/**
 * The executor's handlers as they run on the broker: publish a successor, then settle the delivery. Each handler
 * run, taken without interruption, is shown to be exactly two protocol steps. Protocol runs put anything between the
 * two: deliveries, steps of other handler runs, crashes and the passing of time.
 */
module ExecutorProcess {
  import opened Options
  import opened ExecutorProtocol

  /** How the promise of `execute` settles. */
  datatype Execution = Resolves | Rejects(failure: Failure)

  /** A handler run on copy `i` whose publish step is `action`. */
  function Handled(ex: Executor, s: State, i: nat, action: Action): State {
    Apply(ex, Apply(ex, s, At(i, action)), At(i, Settle))
  }

  class Broker {
    var st: State

    predicate Delivered(i: nat)
      reads this
    {
      i < |st.copies| && st.copies[i].place.Unacked? && st.copies[i].place.progress == Started
    }

    /** Ready to be settled: the one ack or nack of a delivery needs it and ends it. */
    predicate Pending(i: nat)
      reads this
    {
      i < |st.copies| && st.copies[i].place.Unacked? && st.copies[i].place.progress != Started
    }

    predicate Settled(i: nat)
      reads this
    {
      i < |st.copies| && var place := st.copies[i].place; place.Completed? || place.Forwarded? || place.Discarded?
    }

    method Mark(i: nat, progress: Progress, events: seq<Event>)
      requires Delivered(i) && progress != Started
      modifies this
      ensures Pending(i)
      ensures st == old(Advance(st, i, Outcome(
        st.copies[i].(place := Unacked(st.copies[i].place.queue, progress)), [], events)))
    {
      var c := st.copies[i];
      st := st.(copies := st.copies[i := c.(place := Unacked(c.place.queue, progress))], log := st.log + events);
      assert st.copies == old(st.copies)[i := c.(place := Unacked(c.place.queue, progress))] + [];
    }

    /** Publishing the successor of copy `i`; the broker may be down and may not know the publication. */
    method Publish(ex: Executor, i: nat, pub: Publication, up: bool) returns (ok: bool)
      requires Delivered(i)
      modifies this
      ensures ok == (up && Routed(ex, pub.queue)) && Pending(i)
      ensures
        var c, q := old(st.copies[i]), old(st.copies[i].place.queue);
        st == Advance(old(st), i,
          if ok
          then Outcome(c.(place := Unacked(q, Published)),
                       [Copy(c.id, pub.msg, Queued(pub.queue), NextFirstFailure(c, q, pub.queue, old(st.now)))],
                       [ForwardEvent(c, q, pub.queue)])
          else Outcome(c.(place := Unacked(q, Rejected)), [], if q == Dead then [] else [Hopped(c.id)]))
    {
      var c := st.copies[i];
      var q := c.place.queue;
      ok := up && Routed(ex, pub.queue);
      if ok {
        var successor := Copy(c.id, pub.msg, Queued(pub.queue), NextFirstFailure(c, q, pub.queue, st.now));
        Mark(i, Published, [ForwardEvent(c, q, pub.queue)]);
        st := st.(copies := st.copies + [successor]);
        assert old(st.copies)[i := c.(place := Unacked(q, Published))] + [] + [successor] == st.copies;
      } else {
        Mark(i, Rejected, if q == Dead then [] else [Hopped(c.id)]);
      }
    }

    method Ack(i: nat)
      requires Pending(i) && st.copies[i].place.progress != Rejected
      modifies this
      ensures Settled(i) && !st.copies[i].place.Discarded?
      ensures forall ex :: st == Apply(ex, old(st), At(i, Settle))
    {
      var c := st.copies[i];
      var place := if c.place.progress == Succeeded then Completed else Forwarded;
      st := st.(copies := st.copies[i := c.(place := place)]);
      assert st.copies == old(st.copies)[i := c.(place := place)] + [] && st.log == old(st.log) + [];
    }

    method Nack(i: nat)
      requires Pending(i) && st.copies[i].place.progress == Rejected
      modifies this
      ensures Settled(i) && st.copies[i].place.Discarded?
      ensures forall ex :: st == Apply(ex, old(st), At(i, Settle))
    {
      var c := st.copies[i];
      st := st.(copies := st.copies[i := c.(place := Discarded)]);
      assert st.copies == old(st.copies)[i := c.(place := Discarded)] + [] && st.log == old(st.log) + [];
    }
  }

  class Handlers {
    const ex: Executor
    const broker: Broker
    var msgCount: nat

    constructor (ex: Executor, broker: Broker)
      ensures this.ex == ex && this.broker == broker && msgCount == 0
    {
      this.ex, this.broker, msgCount := ex, broker, 0;
    }

    /** executionWrapper: a delivery from the process queue. */
    method ExecutionWrapper(i: nat, execution: Execution, up: bool)
      requires broker.Delivered(i) && broker.st.copies[i].place.queue == Process
      modifies broker
      ensures broker.Settled(i)
      ensures broker.st == Handled(ex, old(broker.st), i,
        match execution
        case Resolves => Succeed
        case Rejects(failure) => if up then Forward(failure) else Reject)
    {
      match execution
      case Resolves =>
        broker.Mark(i, Succeeded, [Hopped(broker.st.copies[i].id)]);
        broker.Ack(i);
      case Rejects(failure) =>
        var ok := RetryHandler(i, failure, up);
        if ok {
          broker.Ack(i);
        } else {
          broker.Nack(i);
        }
    }

    method RetryHandler(i: nat, failure: Failure, up: bool) returns (ok: bool)
      requires broker.Delivered(i) && broker.st.copies[i].place.queue == Process
      modifies broker
      ensures ok == up && broker.Pending(i)
      ensures broker.st.copies[i].place.progress == if ok then Published else Rejected
      ensures broker.st == Apply(ex, old(broker.st), At(i, if up then Forward(failure) else Reject))
    {
      var message := broker.st.copies[i].msg;
      if failure.DirectToDead? {
        var payload := message.payload.(error := Some(failure.info));
        ok := broker.Publish(ex, i, Publication(Dead, NewMessage(payload, NO_OPTIONS, broker.st.now)), up);
        return;
      }
      var delay := ex.backoff(message.retries);
      var opts := MessageOptions(Some(message.retries + 1), None, Some(broker.st.now + delay), Some(failure.info));
      ok := broker.Publish(ex, i, Publication(Retry, NewMessage(message.payload, opts, broker.st.now)), up);
    }

    /** retryManager: a delivery from the retry queue. `any` stands for the failure that plays no part. */
    method RetryManager(i: nat, up: bool, any: Failure) returns (ok: bool)
      requires broker.Delivered(i) && broker.st.copies[i].place.queue == Retry
      modifies broker
      ensures broker.Settled(i)
      ensures broker.st == Handled(ex, old(broker.st), i, if ok then Forward(any) else Reject)
      ensures
        var pub := ExecutorProtocol.RetryManager(ex, old(broker.st.copies[i].msg), old(broker.st.now));
        ok == (up && Routed(ex, pub.queue))
    {
      var message, now := broker.st.copies[i].msg, broker.st.now;
      if !CanBeRetried(ex, message) {
        ok := broker.Publish(ex, i, Publication(Dead, NewMessage(message.payload, NO_OPTIONS, now)), up);
      } else if ShouldWait(message, now) {
        ok := broker.Publish(ex, i, Publication(Retry, NewMessage(message.payload, OptionsOf(message), now)), up);
      } else {
        ok := broker.Publish(ex, i, Publication(Process, NewMessage(message.payload, OptionsOf(message), now)), up);
      }
      if ok {
        broker.Ack(i);
      } else {
        broker.Nack(i);
      }
    }

    /**
     * The dead queue's subscriber. `amount` (0 when absent) only stops the counter: the message is handled alike
     * whether or not the limit has been reached.
     */
    method RecoverDead(i: nat, amount: nat, up: bool, any: Failure) returns (ok: bool)
      requires broker.Delivered(i) && broker.st.copies[i].place.queue == Dead
      modifies broker, this
      ensures broker.Settled(i)
      ensures broker.st == Handled(ex, old(broker.st), i, if ok then Forward(any) else Reject)
      ensures ok == (up && ex.directRoute)
      ensures msgCount == old(msgCount) + if amount > 0 && old(msgCount) == amount then 0 else 1
    {
      var message := broker.st.copies[i].msg;
      ok := broker.Publish(ex, i, Publication(Process, NewMessage(message.payload, NO_OPTIONS, broker.st.now)), up);
      if ok {
        broker.Ack(i);
      } else {
        broker.Nack(i);
      }
      if amount > 0 && msgCount == amount {
        return;
      }
      msgCount := msgCount + 1;
    }
  }
}
