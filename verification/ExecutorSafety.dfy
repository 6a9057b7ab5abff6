/**
 * What every run of the protocol keeps: the shape of the messages in each queue, and the number of live copies
 * of every accepted message.
 */
module ExecutorSafety {
  import opened Options
  import opened Sums
  import opened ExecutorProtocol

  /** How often one generation of a message can be executed: the default limit, whatever its publisher asked. */
  function Generation(ex: Executor): nat {
    if ex.retriable && ex.directRoute then DEFAULT_MAX_RETRIES + 1 else 1
  }

  predicate MessageOk(ex: Executor, queue: Queue, m: Message) {
    match queue
    case Process =>
      m.retries < Generation(ex) && (m.retries > 0 ==> m.maxRetries == DEFAULT_MAX_RETRIES && m.error.Some?)
    case Retry =>
      1 <= m.retries <= Generation(ex) && m.maxRetries == DEFAULT_MAX_RETRIES && m.error.Some?
    case Dead =>
      m.retries == 0 && m.maxRetries == DEFAULT_MAX_RETRIES && m.error.None?
  }

  predicate CopyOk(ex: Executor, accepted: seq<string>, c: Copy) {
    && c.id < |accepted|
    && c.msg.payload.body == accepted[c.id]
    && (c.place.Queued? || c.place.Unacked? ==> MessageOk(ex, c.place.queue, c.msg))
    && (c.place.Unacked? && c.place.progress == Succeeded ==> c.place.queue == Process)
    && (c.place.Completed? ==> MessageOk(ex, Process, c.msg))
  }

  predicate AllCopiesOk(ex: Executor, s: State) {
    forall i :: 0 <= i < |s.copies| ==> CopyOk(ex, s.accepted, s.copies[i])
  }

  lemma SuccessorOk(ex: Executor, queue: Queue, m: Message, failure: Failure, now: int)
    requires MessageOk(ex, queue, m)
    ensures
      var pub := Successor(ex, queue, m, failure, now);
      && pub.msg.payload.body == m.payload.body
      && (Routed(ex, pub.queue) ==> MessageOk(ex, pub.queue, pub.msg))
  {
  }

  lemma ActKeepsCopyOk(ex: Executor, accepted: seq<string>, now: int, c: Copy, a: Action)
    requires CopyOk(ex, accepted, c)
    ensures CopyOk(ex, accepted, Act(ex, now, c, a).copy)
    ensures forall d :: d in Act(ex, now, c, a).successor ==> CopyOk(ex, accepted, d)
  {
    if a.Forward? && c.place.Unacked? {
      SuccessorOk(ex, c.place.queue, c.msg, a.failure, now);
    }
  }

  lemma AdvanceKeepsCopiesOk(ex: Executor, s: State, i: nat, out: Outcome)
    requires AllCopiesOk(ex, s) && i < |s.copies|
    requires CopyOk(ex, s.accepted, out.copy)
    requires forall d :: d in out.successor ==> CopyOk(ex, s.accepted, d)
    ensures AllCopiesOk(ex, Advance(s, i, out))
  {
  }

  lemma ApplyKeepsCopiesOk(ex: Executor, s: State, step: Step)
    requires AllCopiesOk(ex, s)
    ensures AllCopiesOk(ex, Apply(ex, s, step))
  {
    match step
    case Accept(_, _) =>
      forall i | 0 <= i < |s.copies|
        ensures CopyOk(ex, Apply(ex, s, step).accepted, s.copies[i])
      {
        assert CopyOk(ex, s.accepted, s.copies[i]);
      }
    case Tick(_) =>
    case At(i, a) =>
      if i < |s.copies| {
        ActKeepsCopyOk(ex, s.accepted, s.now, s.copies[i], a);
        AdvanceKeepsCopiesOk(ex, s, i, Act(ex, s.now, s.copies[i], a));
      }
  }

  /** The reachable-queue invariant, over every run, crashes and dead recovery included. */
  lemma {:induction false} RunKeepsMessages(ex: Executor, start: int, steps: seq<Step>)
    ensures AllCopiesOk(ex, Run(ex, start, steps))
  {
    if steps != [] {
      var before := steps[..|steps| - 1];
      RunKeepsMessages(ex, start, before);
      ApplyKeepsCopiesOk(ex, Run(ex, start, before), steps[|steps| - 1]);
    }
  }

  /** A copy is live while nothing has taken its place. */
  predicate Live(p: Place) {
    !p.Forwarded? && !(p.Unacked? && p.progress == Published)
  }

  function LiveCopies(id: nat): Copy -> int {
    (c: Copy) => if c.id == id && Live(c.place) then 1 else 0
  }

  /** Deliveries interrupted between publishing the successor and acknowledging. */
  function Duplications(id: nat): Event -> int {
    (e: Event) => if e == Interrupted(id, true) then 1 else 0
  }

  lemma SumShort<T>(f: T -> int, s: seq<T>)
    requires |s| <= 1
    ensures Sum(f, s) == if s == [] then 0 else f(s[0])
  {
    if s != [] {
      assert s == [s[0]];
      SumOne(f, s[0]);
    }
  }

  /** How an outcome moves the weights of copies and events. */
  lemma AdvanceSums(s: State, i: nat, out: Outcome, f: Copy -> int, g: Event -> int)
    requires i < |s.copies|
    ensures
      var t := Advance(s, i, out);
      && Sum(f, t.copies) == Sum(f, s.copies) - f(s.copies[i]) + f(out.copy) + Sum(f, out.successor)
      && Sum(g, t.log) == Sum(g, s.log) + Sum(g, out.events)
  {
    SumUpdate(f, s.copies, i, out.copy);
    SumConcat(f, s.copies[i := out.copy], out.successor);
    SumConcat(g, s.log, out.events);
  }

  lemma AcceptSum(s: State, added: Copy, f: Copy -> int)
    ensures Sum(f, s.copies + [added]) == Sum(f, s.copies) + f(added)
  {
    SumConcat(f, s.copies, [added]);
    SumOne(f, added);
  }

  lemma ActConservesCopies(ex: Executor, now: int, c: Copy, a: Action, id: nat)
    ensures
      var out := Act(ex, now, c, a);
      LiveCopies(id)(out.copy) + Sum(LiveCopies(id), out.successor)
      == LiveCopies(id)(c) + Sum(Duplications(id), out.events)
  {
    var out := Act(ex, now, c, a);
    SumShort(LiveCopies(id), out.successor);
    SumShort(Duplications(id), out.events);
  }

  /** 1 for an accepted message. */
  function Accepted(s: State, id: nat): nat {
    if id < |s.accepted| then 1 else 0
  }

  lemma ActConservesSums(ex: Executor, s: State, i: nat, a: Action, id: nat)
    requires i < |s.copies|
    ensures
      var t := Advance(s, i, Act(ex, s.now, s.copies[i], a));
      Sum(LiveCopies(id), t.copies) - Sum(Duplications(id), t.log)
      == Sum(LiveCopies(id), s.copies) - Sum(Duplications(id), s.log)
  {
    ActConservesCopies(ex, s.now, s.copies[i], a, id);
    AdvanceSums(s, i, Act(ex, s.now, s.copies[i], a), LiveCopies(id), Duplications(id));
  }

  lemma ApplyConservesCopies(ex: Executor, s: State, step: Step, id: nat)
    ensures
      var t := Apply(ex, s, step);
      Sum(LiveCopies(id), t.copies) - Accepted(t, id) - Sum(Duplications(id), t.log)
      == Sum(LiveCopies(id), s.copies) - Accepted(s, id) - Sum(Duplications(id), s.log)
  {
    match step
    case Accept(_, _) => AcceptSum(s, Apply(ex, s, step).copies[|s.copies|], LiveCopies(id));
    case Tick(_) =>
    case At(i, a) =>
      if i < |s.copies| {
        ActConservesSums(ex, s, i, a, id);
      }
  }

  /**
   * No loss and no invention: at every moment of every run, the live copies of an accepted message number
   * one, plus one for each delivery that was interrupted between publish and acknowledgement.
   */
  lemma {:induction false} CopiesConserved(ex: Executor, start: int, steps: seq<Step>, id: nat)
    ensures
      var s := Run(ex, start, steps);
      Sum(LiveCopies(id), s.copies) == Accepted(s, id) + Sum(Duplications(id), s.log)
  {
    if steps != [] {
      var before := steps[..|steps| - 1];
      CopiesConserved(ex, start, before, id);
      ApplyConservesCopies(ex, Run(ex, start, before), steps[|steps| - 1], id);
    }
  }

  /** Every accepted payload has a live copy, with its body unchanged. */
  lemma NoLoss(ex: Executor, start: int, steps: seq<Step>, id: nat) returns (i: nat)
    requires id < |Run(ex, start, steps).accepted|
    ensures
      var s := Run(ex, start, steps);
      && i < |s.copies| && s.copies[i].id == id && Live(s.copies[i].place)
      && s.copies[i].msg.payload.body == s.accepted[id]
  {
    var s := Run(ex, start, steps);
    CopiesConserved(ex, start, steps, id);
    RunKeepsMessages(ex, start, steps);
    SumNonNegative(Duplications(id), s.log);
    i := SumPositive(LiveCopies(id), s.copies);
    assert CopyOk(ex, s.accepted, s.copies[i]);
  }

  predicate CrashFree(steps: seq<Step>) {
    forall i :: 0 <= i < |steps| ==> steps[i].At? ==> steps[i].action != Interrupt
  }

  lemma {:induction false} CrashFreeLog(ex: Executor, start: int, steps: seq<Step>)
    requires CrashFree(steps)
    ensures forall e :: e in Run(ex, start, steps).log ==> !e.Interrupted?
  {
    if steps != [] {
      CrashFreeLog(ex, start, steps[..|steps| - 1]);
      assert steps[|steps| - 1].At? ==> steps[|steps| - 1].action != Interrupt;
    }
  }

  lemma {:induction false} SumZero<T>(f: T -> int, s: seq<T>)
    requires forall x :: x in s ==> f(x) == 0
    ensures Sum(f, s) == 0
  {
    if s != [] {
      SumZero(f, s[..|s| - 1]);
    }
  }

  /** Without crashes there is exactly one live copy of every accepted message. */
  lemma ExactlyOneCopy(ex: Executor, start: int, steps: seq<Step>, id: nat)
    requires CrashFree(steps)
    requires id < |Run(ex, start, steps).accepted|
    ensures Sum(LiveCopies(id), Run(ex, start, steps).copies) == 1
  {
    CopiesConserved(ex, start, steps, id);
    CrashFreeLog(ex, start, steps);
    SumZero(Duplications(id), Run(ex, start, steps).log);
  }
}
