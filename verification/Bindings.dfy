/**
 * Where messages go: the bindings, queues and exchange publications of
 * src/Infrastructure/Broker/Rabbitmq/Utils/ConfigCreation.ts. An exchange passes a message on to the queues that are
 * bound to it by the message's own routing key.
 */
module Bindings {
  import opened Options
  import opened Topology

  datatype Binding = Binding(exchange: string, routingKey: string, queue: string)

  const BINDINGS: seq<Binding> := [
    Binding("tx", "tx.evt.discovered", "process_tx"),
    Binding("tx", "tx.evt.processed", "save_tx_of_interest"),
    Binding("token", "token.evt.discovered", "save_token"),
    Binding("wallet", "wallet.evt.wallet_discovered", "save_wallet")
  ]

  const QUEUE_NAMES: seq<string> :=
    ["find_direct_tx", "find_internal_tx", "save_wallet", "save_tx_of_interest", "process_tx", "save_token"]

  /** Every queue is declared with its retry and its dead queue. */
  function Queues(names: seq<string>): seq<string> {
    if names == [] then []
    else
      var name := names[|names| - 1];
      Queues(names[..|names| - 1]) + [name, AddRetryPrefix(name), AddDeadPrefix(name)]
  }

  function Reached(t: Target): set<string> {
    match t
    case ToQueue(q) => {q}
    case ToExchange(exchange, routingKey) =>
      set i | 0 <= i < |BINDINGS| && BINDINGS[i].exchange == exchange && BINDINGS[i].routingKey == routingKey
        :: BINDINGS[i].queue
  }

  lemma RoutingKeysDiffer()
    ensures forall i, j :: 0 <= i < j < |BINDINGS| ==> BINDINGS[i].routingKey != BINDINGS[j].routingKey
    ensures forall i :: 0 <= i < |BINDINGS| ==>
      BINDINGS[i].routingKey != "tx.evt.saved" && BINDINGS[i].routingKey != "wallet.evt.wallet_saved"
      && BINDINGS[i].routingKey != "wallet.evt.wallet_updated"
  {
    assert |"tx.evt.discovered"| == 17 && |"tx.evt.processed"| == 16 && |"token.evt.discovered"| == 20;
    assert |"wallet.evt.wallet_discovered"| == 28 && |"tx.evt.saved"| == 12;
    assert |"wallet.evt.wallet_saved"| == 23 && |"wallet.evt.wallet_updated"| == 25;
  }

  lemma ReachedByBinding(i: nat)
    requires i < |BINDINGS|
    ensures Reached(ToExchange(BINDINGS[i].exchange, BINDINGS[i].routingKey)) == {BINDINGS[i].queue}
  {
    RoutingKeysDiffer();
  }

  lemma WritesUnderscored(subs: seq<Subscription>, i: nat)
    requires i < |Writes(DeadAndRetrySubs(subs))|
    ensures StartsWith(Writes(DeadAndRetrySubs(subs))[i].0, "_")
  {
    var entries := DeadAndRetrySubs(subs);
    WriteSource(entries, i);
    var e :| e in entries && Writes(entries)[i] in WritesOf(e);
    EntriesOf(subs, e);
    assert DirectName(e)[..1] == "_" && e.0[..1] == "_";
  }

  /** The publications to exchanges stay what they were. */
  lemma ExchangeKept(pubs: map<string, Target>, name: string)
    requires Written(EXCHANGE_PUBLICATIONS, Writes(DeadAndRetrySubs(SUBSCRIPTIONS)), pubs)
    requires name in EXCHANGE_PUBLICATIONS
    ensures name in pubs && pubs[name] == EXCHANGE_PUBLICATIONS[name]
  {
    ExchangeKeysPlain();
    var writes := Writes(DeadAndRetrySubs(SUBSCRIPTIONS));
    if i :| 0 <= i < |writes| && writes[i].0 == name {
      WritesUnderscored(SUBSCRIPTIONS, i);
    }
  }

  /** The queues that a publication reaches; none if it does not exist. */
  function ReachedBy(pubs: map<string, Target>, name: string): set<string> {
    if name in pubs then Reached(pubs[name]) else {}
  }

  lemma NamesApart()
    ensures EXCHANGE_PUBLICATIONS["tx_dicovered"] == ToExchange("tx", "tx.evt.discovered")
    ensures EXCHANGE_PUBLICATIONS["tx_processed"] == ToExchange("tx", "tx.evt.processed")
    ensures EXCHANGE_PUBLICATIONS["tx_saved"] == ToExchange("tx", "tx.evt.saved")
    ensures EXCHANGE_PUBLICATIONS["token_discovered"] == ToExchange("token", "token.evt.discovered")
    ensures EXCHANGE_PUBLICATIONS["wallet_discovered"] == ToExchange("wallet", "wallet.evt.wallet_discovered")
    ensures EXCHANGE_PUBLICATIONS["wallet_saved"] == ToExchange("wallet", "wallet.evt.wallet_saved")
    ensures EXCHANGE_PUBLICATIONS["wallet_updated"] == ToExchange("wallet", "wallet.evt.wallet_updated")
  {
    assert |"tx_dicovered"| == 12 && |"tx_processed"| == 12 && |"tx_saved"| == 8 && |"token_discovered"| == 16;
    assert |"wallet_discovered"| == 17 && |"wallet_saved"| == 12 && |"wallet_updated"| == 14;
    assert "tx_dicovered"[3] == 'd' && "tx_processed"[3] == 'p' && "wallet_saved"[3] == 'l';
  }

  lemma ReachesBound(pubs: map<string, Target>, name: string, i: nat)
    requires Written(EXCHANGE_PUBLICATIONS, Writes(DeadAndRetrySubs(SUBSCRIPTIONS)), pubs) && i < |BINDINGS|
    requires name in EXCHANGE_PUBLICATIONS
    requires EXCHANGE_PUBLICATIONS[name] == ToExchange(BINDINGS[i].exchange, BINDINGS[i].routingKey)
    ensures ReachedBy(pubs, name) == {BINDINGS[i].queue}
  {
    ExchangeKept(pubs, name);
    ReachedByBinding(i);
  }

  lemma ReachesNothing(pubs: map<string, Target>, name: string)
    requires Written(EXCHANGE_PUBLICATIONS, Writes(DeadAndRetrySubs(SUBSCRIPTIONS)), pubs)
    requires name in EXCHANGE_PUBLICATIONS && EXCHANGE_PUBLICATIONS[name].ToExchange?
    requires forall i :: 0 <= i < |BINDINGS| ==> BINDINGS[i].routingKey != EXCHANGE_PUBLICATIONS[name].routingKey
    ensures ReachedBy(pubs, name) == {}
  {
    ExchangeKept(pubs, name);
  }

  /**
   * Each message that an executor handles reaches exactly that executor's queue, and the messages about what was saved
   * or updated reach none. The names are those of the publications as the messages give them.
   */
  lemma MessagesReachExecutors(pubs: map<string, Target>)
    requires Written(EXCHANGE_PUBLICATIONS, Writes(DeadAndRetrySubs(SUBSCRIPTIONS)), pubs)
    ensures ReachedBy(pubs, "tx_dicovered") == {PROCESS_TX_SUB.queue.value}
    ensures ReachedBy(pubs, "tx_processed") == {SAVE_TX_SUB.queue.value}
    ensures ReachedBy(pubs, "token_discovered") == {SAVE_TOKEN_SUB.queue.value}
    ensures ReachedBy(pubs, "wallet_discovered") == {SAVE_WALLET_SUB.queue.value}
    ensures ReachedBy(pubs, "tx_saved") == ReachedBy(pubs, "wallet_saved") == ReachedBy(pubs, "wallet_updated") == {}
  {
    NamesApart();
    RoutingKeysDiffer();
    ReachesBound(pubs, "tx_dicovered", 0);
    ReachesBound(pubs, "tx_processed", 1);
    ReachesBound(pubs, "token_discovered", 2);
    ReachesBound(pubs, "wallet_discovered", 3);
    ReachesNothing(pubs, "tx_saved");
    ReachesNothing(pubs, "wallet_saved");
    ReachesNothing(pubs, "wallet_updated");
  }

  lemma {:induction false} QueuesHave(names: seq<string>, name: string)
    requires name in names
    ensures name in Queues(names) && AddRetryPrefix(name) in Queues(names) && AddDeadPrefix(name) in Queues(names)
  {
    if name != names[|names| - 1] {
      QueuesHave(names[..|names| - 1], name);
    }
  }

  lemma SubscribedQueuesNamed()
    ensures forall s :: s in SUBSCRIPTIONS ==> s.queue.Some? && s.queue.value in QUEUE_NAMES
    ensures forall i :: 0 <= i < |BINDINGS| ==> BINDINGS[i].queue in QUEUE_NAMES
  {
    assert QUEUE_NAMES[2] == "save_wallet" && QUEUE_NAMES[3] == "save_tx_of_interest";
    assert QUEUE_NAMES[4] == "process_tx" && QUEUE_NAMES[5] == "save_token";
  }

  /** A retry or dead queue of a subscription, and the process queue that it is taken to belong to. */
  lemma EntryDeclared(e: (string, string))
    requires e in DeadAndRetrySubs(SUBSCRIPTIONS)
    ensures e.1 in Queues(QUEUE_NAMES) && ProcessQueueOf(e.1) in Queues(QUEUE_NAMES)
  {
    EntriesOf(SUBSCRIPTIONS, e);
    var s :| s in SUBSCRIPTIONS && EntryOf(s, e);
    SubscribedQueuesNamed();
    QueuesClean();
    RetryNameStripped(s.queue.value);
    DeadNameStripped(s.queue.value);
    QueuesHave(QUEUE_NAMES, s.queue.value);
  }

  lemma WriteDeclared(entries: seq<(string, string)>, i: nat)
    requires entries == DeadAndRetrySubs(SUBSCRIPTIONS) && i < |Writes(entries)|
    ensures Writes(entries)[i].1.ToQueue? && Writes(entries)[i].1.queue in Queues(QUEUE_NAMES)
  {
    WriteSource(entries, i);
    var e :| e in entries && Writes(entries)[i] in WritesOf(e);
    EntryDeclared(e);
  }

  lemma BindingDeclared(t: Target, queue: string)
    requires t.ToExchange? && queue in Reached(t)
    ensures queue in Queues(QUEUE_NAMES)
  {
    var i :| 0 <= i < |BINDINGS| && BINDINGS[i].queue == queue;
    SubscribedQueuesNamed();
    QueuesHave(QUEUE_NAMES, queue);
  }

  lemma ExchangeTargets(name: string)
    requires name in EXCHANGE_PUBLICATIONS
    ensures EXCHANGE_PUBLICATIONS[name].ToExchange?
  {
  }

  /** No message is published into, and no subscription reads from, a queue that is not declared. */
  lemma ReachedAreDeclared(pubs: map<string, Target>, name: string, queue: string)
    requires Written(EXCHANGE_PUBLICATIONS, Writes(DeadAndRetrySubs(SUBSCRIPTIONS)), pubs)
    requires queue in ReachedBy(pubs, name)
    ensures queue in Queues(QUEUE_NAMES)
  {
    var entries := DeadAndRetrySubs(SUBSCRIPTIONS);
    var writes := Writes(entries);
    if i :| 0 <= i < |writes| && writes[i].0 == name {
      assert pubs[name] == writes[i].1;
      WriteDeclared(entries, i);
    } else {
      ExchangeTargets(name);
      BindingDeclared(pubs[name], queue);
    }
  }

  lemma SubscriptionsAreDeclared(sub: Subscription)
    requires sub in SUBSCRIPTIONS
    ensures sub.queue.Some?
    ensures forall q :: q in [sub.queue.value, AddRetryPrefix(sub.queue.value), AddDeadPrefix(sub.queue.value)] ==>
      q in Queues(QUEUE_NAMES)
  {
    SubscribedQueuesNamed();
    QueuesHave(QUEUE_NAMES, sub.queue.value);
  }
}
