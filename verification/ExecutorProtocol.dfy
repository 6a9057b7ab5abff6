/**
 * The retry and dead-letter protocol of src/Infrastructure/Broker/Executor.ts.
 *
 * An executor owns three queues: process, retry and dead. A handler that is given a message publishes a
 * successor and only then acknowledges the message it was given, so a crash between the two leaves two copies.
 * The broker is modelled as a list of message copies, each with the place it is at; every step but accepting a
 * new message and letting time pass acts on one copy.
 */
module ExecutorProtocol {
  import opened Options

  datatype Queue = Process | Retry | Dead

  datatype ErrorInfo = ErrorInfo(name: string, message: string, stack: string)

  /** What a handler's `execute` can be rejected with. */
  datatype Failure = DirectToDead(info: ErrorInfo) | Other(info: ErrorInfo)

  /** A payload; `error` is the field that a DirectToDead failure adds to it. */
  datatype Payload = Payload(body: string, error: Option<ErrorInfo>)

  datatype Message = Message(
    retries: nat, maxRetries: int, payload: Payload, processAfter: int, error: Option<ErrorInfo>)

  datatype MessageOptions = MessageOptions(
    retries: Option<nat>, maxRetries: Option<int>, processAfter: Option<int>, error: Option<ErrorInfo>)

  const NO_OPTIONS := MessageOptions(None, None, None, None)
  const DEFAULT_MAX_RETRIES := 10

  /** The ExecutorMessage constructor: defaults, overridden by the given options. */
  function NewMessage(payload: Payload, opts: MessageOptions, now: int): Message {
    Message(
      opts.retries.GetOr(0), opts.maxRetries.GetOr(DEFAULT_MAX_RETRIES), payload,
      opts.processAfter.GetOr(now), opts.error)
  }

  /** The options a whole message passes on when it is handed to the constructor as `opts`. */
  function OptionsOf(m: Message): MessageOptions {
    MessageOptions(Some(m.retries), Some(m.maxRetries), Some(m.processAfter), m.error)
  }

  /**
   * An executor: whether it retries, its backoff in milliseconds, and whether the broker knows the publication
   * that `processChannel` names. Publishing to an unknown publication is rejected.
   */
  datatype Executor = Executor(retriable: bool, backoff: nat -> int, directRoute: bool)

  predicate CanBeRetried(ex: Executor, m: Message) {
    ex.retriable && m.retries <= m.maxRetries
  }

  predicate ShouldWait(m: Message, now: int) {
    m.processAfter > now
  }

  datatype Publication = Publication(queue: Queue, msg: Message)

  function RetryHandler(ex: Executor, m: Message, failure: Failure, now: int): Publication {
    match failure
    case DirectToDead(info) =>
      Publication(Dead, NewMessage(m.payload.(error := Some(info)), NO_OPTIONS, now))
    case Other(info) =>
      var opts := MessageOptions(Some(m.retries + 1), None, Some(now + ex.backoff(m.retries)), Some(info));
      Publication(Retry, NewMessage(m.payload, opts, now))
  }

  function RetryManager(ex: Executor, m: Message, now: int): Publication {
    if !CanBeRetried(ex, m) then Publication(Dead, NewMessage(m.payload, NO_OPTIONS, now))
    else if ShouldWait(m, now) then Publication(Retry, NewMessage(m.payload, OptionsOf(m), now))
    else Publication(Process, NewMessage(m.payload, OptionsOf(m), now))
  }

  function DeadRecovery(m: Message, now: int): Publication {
    Publication(Process, NewMessage(m.payload, NO_OPTIONS, now))
  }

  /** What the handler of `queue` publishes for `m`; `failure` matters for the process queue only. */
  function Successor(ex: Executor, queue: Queue, m: Message, failure: Failure, now: int): Publication {
    match queue
    case Process => RetryHandler(ex, m, failure, now)
    case Retry => RetryManager(ex, m, now)
    case Dead => DeadRecovery(m, now)
  }

  predicate Routed(ex: Executor, queue: Queue) {
    queue != Process || ex.directRoute
  }

  /* The broker's view of the copies. */

  datatype Progress = Started | Succeeded | Published | Rejected

  datatype Place =
    | Queued(queue: Queue)                      // waiting in a queue
    | Unacked(queue: Queue, progress: Progress) // delivered to the handler of that queue
    | Completed                                 // acknowledged after `execute` succeeded
    | Forwarded                                 // acknowledged after its successor was published
    | Discarded                                 // nacked after its successor could not be published

  /**
   * A copy of an accepted message. `id` (the accepted message it descends from) and `firstFailure` (when the
   * first execution since acceptance or since dead recovery failed) are history: no step depends on them.
   */
  datatype Copy = Copy(id: nat, msg: Message, place: Place, firstFailure: Option<int>)

  /** The history of a run. */
  datatype Event =
    | Executed(id: nat, retries: nat, at: int, firstFailure: Option<int>)
    | Hopped(id: nat)                        // a handler ran without deferring its message
    | Waited(id: nat)                        // the retry manager put its message back
    | Recovered(id: nat)                     // dead recovery published its message
    | Interrupted(id: nat, published: bool)  // the delivery was returned to its queue

  datatype State = State(now: int, accepted: seq<string>, copies: seq<Copy>, log: seq<Event>)

  datatype Action =
    | Deliver
    | Succeed                   // `execute` resolves
    | Forward(failure: Failure) // the successor is published
    | Reject                    // publishing the successor is rejected
    | Settle                    // ack or nack
    | Interrupt                 // a crash returns the delivery to its queue

  datatype Step =
    | Accept(body: string, maxRetries: int)
    | Tick(elapsed: nat)
    | At(index: nat, action: Action)

  datatype Outcome = Outcome(copy: Copy, successor: seq<Copy>, events: seq<Event>)

  function NextFirstFailure(c: Copy, from: Queue, to: Queue, now: int): Option<int> {
    match (from, to)
    case (Process, Retry) => if c.firstFailure.Some? then c.firstFailure else Some(now)
    case (Retry, Dead) => None
    case (Retry, _) => c.firstFailure
    case _ => None
  }

  function ForwardEvent(c: Copy, from: Queue, to: Queue): Event {
    match (from, to)
    case (Retry, Retry) => Waited(c.id)
    case (Dead, _) => Recovered(c.id)
    case _ => Hopped(c.id)
  }

  /** The effect of an action on one copy; an action that is not possible leaves it alone. */
  function Act(ex: Executor, now: int, c: Copy, a: Action): Outcome {
    match (a, c.place)
    case (Deliver, Queued(q)) =>
      Outcome(c.(place := Unacked(q, Started)), [],
              if q == Process then [Executed(c.id, c.msg.retries, now, c.firstFailure)] else [])
    case (Succeed, Unacked(Process, Started)) =>
      Outcome(c.(place := Unacked(Process, Succeeded)), [], [Hopped(c.id)])
    case (Forward(failure), Unacked(q, Started)) =>
      var pub := Successor(ex, q, c.msg, failure, now);
      if Routed(ex, pub.queue) then
        Outcome(c.(place := Unacked(q, Published)),
                [Copy(c.id, pub.msg, Queued(pub.queue), NextFirstFailure(c, q, pub.queue, now))],
                [ForwardEvent(c, q, pub.queue)])
      else
        Outcome(c, [], [])
    case (Reject, Unacked(q, Started)) =>
      Outcome(c.(place := Unacked(q, Rejected)), [], if q == Dead then [] else [Hopped(c.id)])
    case (Settle, Unacked(_, Succeeded)) => Outcome(c.(place := Completed), [], [])
    case (Settle, Unacked(_, Published)) => Outcome(c.(place := Forwarded), [], [])
    case (Settle, Unacked(_, Rejected)) => Outcome(c.(place := Discarded), [], [])
    case (Interrupt, Unacked(q, progress)) =>
      Outcome(c.(place := Queued(q)), [], [Interrupted(c.id, progress == Published)])
    case _ => Outcome(c, [], [])
  }

  /** The broker after one copy has acted. */
  function Advance(s: State, i: nat, out: Outcome): State
    requires i < |s.copies|
  {
    s.(copies := s.copies[i := out.copy] + out.successor, log := s.log + out.events)
  }

  function Apply(ex: Executor, s: State, step: Step): State {
    match step
    case Accept(body, maxRetries) =>
      var opts := NO_OPTIONS.(maxRetries := Some(maxRetries));
      var msg := NewMessage(Payload(body, None), opts, s.now);
      s.(accepted := s.accepted + [body],
         copies := s.copies + [Copy(|s.accepted|, msg, Queued(Process), None)])
    case Tick(elapsed) => s.(now := s.now + elapsed)
    case At(i, action) =>
      if i < |s.copies| then Advance(s, i, Act(ex, s.now, s.copies[i], action)) else s
  }

  /** The state after a run that starts with empty queues at time `start`. */
  function Run(ex: Executor, start: int, steps: seq<Step>): State {
    if steps == [] then State(start, [], [], [])
    else Apply(ex, Run(ex, start, steps[..|steps| - 1]), steps[|steps| - 1])
  }

  /** Continuing from any state. */
  function RunFrom(ex: Executor, s: State, steps: seq<Step>): State {
    if steps == [] then s
    else Apply(ex, RunFrom(ex, s, steps[..|steps| - 1]), steps[|steps| - 1])
  }
}
