/**
 * The queue topology of src/Infrastructure/Broker/Rabbitmq/Utils/ConfigCreation.ts: which publications exist and
 * which queue each reaches, all of it derived from names by adding and stripping prefixes.
 */
module Topology {
  import opened Options

  const RETRY_PREFIX := "_retry_"
  const DEAD_PREFIX := "_dead_"
  const DIRECT_PUB_PREFIX := "_direct_"

  function AddRetryPrefix(name: string): string { RETRY_PREFIX + name }
  function AddDeadPrefix(name: string): string { DEAD_PREFIX + name }
  function AddDirectPubPrefix(name: string): string { DIRECT_PUB_PREFIX + name }

  predicate StartsWith(s: string, p: string) {
    |p| <= |s| && s[..|p|] == p
  }

  predicate Contains(s: string, p: string) {
    exists i :: 0 <= i <= |s| && StartsWith(s[i..], p)
  }

  /** JavaScript's `s.replace(p, "")`: the first occurrence of `p` is removed. */
  function RemoveFirst(s: string, p: string): string {
    if StartsWith(s, p) then s[|p|..]
    else if s == "" then ""
    else [s[0]] + RemoveFirst(s[1..], p)
  }

  /** The process queue that a retry or dead queue is taken to belong to. */
  function ProcessQueueOf(queue: string): string {
    RemoveFirst(RemoveFirst(queue, DEAD_PREFIX), RETRY_PREFIX)
  }

  lemma PrefixChars(s: string, i: nat, p: string)
    requires i <= |s| && StartsWith(s[i..], p)
    ensures i + |p| <= |s| && forall j :: 0 <= j < |p| ==> s[i + j] == p[j]
  {
    forall j | 0 <= j < |p|
      ensures s[i + j] == p[j]
    {
      assert s[i + j] == s[i..][..|p|][j];
    }
  }

  lemma OtherStart(s: string, p: string)
    requires p != "" && (s == "" || s[0] != p[0])
    ensures !StartsWith(s, p)
  {
    assert |p| <= |s| ==> s[..|p|][0] == s[0];
  }

  lemma {:induction false} RemoveAbsent(s: string, p: string)
    requires p != ""
    ensures |RemoveFirst(s, p)| == if Contains(s, p) then |s| - |p| else |s|
    ensures !Contains(s, p) ==> RemoveFirst(s, p) == s
  {
    assert s[0..] == s;
    if StartsWith(s, p) {
    } else if s != "" {
      RemoveAbsent(s[1..], p);
      if Contains(s, p) {
        var i :| 0 <= i <= |s| && StartsWith(s[i..], p);
        assert s[1..][i - 1..] == s[i..];
      }
      if Contains(s[1..], p) {
        var i :| 0 <= i <= |s[1..]| && StartsWith(s[1..][i..], p);
        assert s[1..][i..] == s[i + 1..];
      }
    }
  }

  lemma RemovePrefix(p: string, s: string)
    ensures RemoveFirst(p + s, p) == s
  {
    assert (p + s)[..|p|] == p;
  }

  lemma DeadFoundInRetryName(q: string, i: nat)
    requires i <= |AddRetryPrefix(q)| && StartsWith(AddRetryPrefix(q)[i..], DEAD_PREFIX)
    ensures Contains(q, DEAD_PREFIX) || StartsWith(q, "dead_")
  {
    var r := AddRetryPrefix(q);
    PrefixChars(r, i, DEAD_PREFIX);
    assert DEAD_PREFIX[0] == '_' && DEAD_PREFIX[1] == 'd';
    assert r[i + 0] == '_' && r[i + 1] == 'd';
    if i == 6 {
      assert forall k :: 0 <= k < 5 ==> q[k] == r[6 + (k + 1)] == DEAD_PREFIX[k + 1];
      assert DEAD_PREFIX[1..] == "dead_";
      assert q[..5] == DEAD_PREFIX[1..];
    } else {
      assert i >= 7;
      assert r[i..] == q[i - 7..];
    }
  }

  /** The dead prefix can only straddle the retry prefix at its closing underscore. */
  lemma DeadInRetryName(q: string)
    ensures Contains(AddRetryPrefix(q), DEAD_PREFIX) <==> Contains(q, DEAD_PREFIX) || StartsWith(q, "dead_")
  {
    var r := AddRetryPrefix(q);
    if Contains(r, DEAD_PREFIX) {
      var i :| 0 <= i <= |r| && StartsWith(r[i..], DEAD_PREFIX);
      DeadFoundInRetryName(q, i);
    }
    if Contains(q, DEAD_PREFIX) {
      var i :| 0 <= i <= |q| && StartsWith(q[i..], DEAD_PREFIX);
      assert r[i + 7..] == q[i..];
    } else if StartsWith(q, "dead_") {
      assert r[6..][..6] == "_" + q[..5];
      assert StartsWith(r[6..], DEAD_PREFIX);
    }
  }

  /** Stripping undoes the retry prefix exactly for names with no "_dead_" inside and no "dead_" in front. */
  lemma RetryNameStripped(q: string)
    ensures ProcessQueueOf(AddRetryPrefix(q)) == q
       <==> !Contains(q, DEAD_PREFIX) && !StartsWith(q, "dead_")
  {
    var r := AddRetryPrefix(q);
    DeadInRetryName(q);
    RemoveAbsent(r, DEAD_PREFIX);
    RemoveAbsent(RemoveFirst(r, DEAD_PREFIX), RETRY_PREFIX);
    RemovePrefix(RETRY_PREFIX, q);
  }

  /** Stripping undoes the dead prefix exactly for names with no "_retry_" inside. */
  lemma DeadNameStripped(q: string)
    ensures ProcessQueueOf(AddDeadPrefix(q)) == q <==> !Contains(q, RETRY_PREFIX)
  {
    RemovePrefix(DEAD_PREFIX, q);
    RemoveAbsent(q, RETRY_PREFIX);
  }

  predicate CleanName(q: string) {
    !Contains(q, DEAD_PREFIX) && !Contains(q, RETRY_PREFIX) && !StartsWith(q, "dead_")
  }

  /** The channels of an executor, by the name of its subscription; they never coincide with it or with each other. */
  lemma ChannelNames(sub: string)
    ensures AddRetryPrefix(sub) == "_retry_" + sub && AddDeadPrefix(sub) == "_dead_" + sub
    ensures AddDirectPubPrefix(sub) == "_direct_" + sub
    ensures
      var names := [sub, AddRetryPrefix(sub), AddDeadPrefix(sub), AddDirectPubPrefix(sub)];
      forall i, j :: 0 <= i < j < 4 ==> names[i] != names[j]
  {
    assert |AddRetryPrefix(sub)| == |sub| + 7 && |AddDeadPrefix(sub)| == |sub| + 6;
    assert |AddDirectPubPrefix(sub)| == |sub| + 8;
  }

  /* Subscriptions and publications. */

  datatype Subscription = Subscription(name: string, queue: Option<string>)

  datatype Target = ToExchange(exchange: string, routingKey: string) | ToQueue(queue: string)

  /** The retry and dead subscriptions added for every subscription that has a queue. */
  function DeadAndRetrySubs(subs: seq<Subscription>): seq<(string, string)> {
    if subs == [] then []
    else
      (match subs[0].queue
       case Some(q) =>
         [(AddRetryPrefix(subs[0].name), AddRetryPrefix(q)), (AddDeadPrefix(subs[0].name), AddDeadPrefix(q))]
       case None => [])
      + DeadAndRetrySubs(subs[1..])
  }

  predicate DistinctNames(subs: seq<Subscription>) {
    forall i, j :: 0 <= i < j < |subs| ==> subs[i].name != subs[j].name
  }

  function DirectName(e: (string, string)): string {
    AddDirectPubPrefix(ProcessQueueOf(e.1))
  }

  /** `table` is `base` overwritten by all of `writes`, which agree where they meet. */
  ghost predicate Written<K, V>(base: map<K, V>, writes: seq<(K, V)>, table: map<K, V>) {
    && (forall i :: 0 <= i < |writes| ==> writes[i].0 in table && table[writes[i].0] == writes[i].1)
    && (forall k :: k in base ==> k in table)
    && (forall k :: k in table ==>
        (exists i :: 0 <= i < |writes| && writes[i].0 == k) || (k in base && table[k] == base[k]))
  }

  lemma WriteOne<K, V>(base: map<K, V>, writes: seq<(K, V)>, table: map<K, V>, k: K, v: V)
    requires Written(base, writes, table)
    requires forall i :: 0 <= i < |writes| && writes[i].0 == k ==> writes[i].1 == v
    ensures Written(base, writes + [(k, v)], table[k := v])
  {
    var all, next := writes + [(k, v)], table[k := v];
    forall j | j in next
      ensures (exists i :: 0 <= i < |all| && all[i].0 == j) || (j in base && next[j] == base[j])
    {
      if j == k {
        assert all[|writes|].0 == j;
      } else if i :| 0 <= i < |writes| && writes[i].0 == j {
        assert all[i].0 == j;
      }
    }
  }

  lemma WriteTwo<K, V>(base: map<K, V>, writes: seq<(K, V)>, table: map<K, V>, v: (K, V), w: (K, V))
    requires Written(base, writes, table) && v.0 != w.0
    requires forall i :: 0 <= i < |writes| && writes[i].0 == v.0 ==> writes[i].1 == v.1
    requires forall i :: 0 <= i < |writes| && writes[i].0 == w.0 ==> writes[i].1 == w.1
    ensures Written(base, writes + [v, w], table[v.0 := v.1][w.0 := w.1])
  {
    WriteOne(base, writes, table, v.0, v.1);
    WriteOne(base, writes + [v], table[v.0 := v.1], w.0, w.1);
    assert writes + [v, w] == writes + [v] + [w];
  }

  /** The writes made for an entry: its own publication, then a direct one for its process queue. */
  function WritesOf(e: (string, string)): seq<(string, Target)> {
    [(e.0, ToQueue(e.1)), (DirectName(e), ToQueue(ProcessQueueOf(e.1)))]
  }

  function Writes(entries: seq<(string, string)>): seq<(string, Target)> {
    if entries == [] then [] else Writes(entries[..|entries| - 1]) + WritesOf(entries[|entries| - 1])
  }

  /** `e` is the retry or the dead entry of subscription `s`. */
  predicate EntryOf(s: Subscription, e: (string, string)) {
    s.queue.Some?
    && (e == (AddRetryPrefix(s.name), AddRetryPrefix(s.queue.value))
        || e == (AddDeadPrefix(s.name), AddDeadPrefix(s.queue.value)))
  }

  lemma {:induction false} EntriesOf(subs: seq<Subscription>, e: (string, string))
    ensures e in DeadAndRetrySubs(subs)
       <==> exists s :: s in subs && EntryOf(s, e)
  {
    if subs != [] {
      EntriesOf(subs[1..], e);
      if s :| s in subs && EntryOf(s, e) {
        assert s == subs[0] || s in subs[1..];
      }
      if e in DeadAndRetrySubs(subs) && e !in DeadAndRetrySubs(subs[1..]) {
        assert EntryOf(subs[0], e);
      }
    }
  }

  /** Retry, dead and direct names never meet. */
  lemma PrefixesApart(a: string, b: string)
    ensures AddRetryPrefix(a) != AddDeadPrefix(b)
    ensures AddRetryPrefix(a) != AddDirectPubPrefix(b)
    ensures AddDeadPrefix(a) != AddDirectPubPrefix(b)
    ensures AddRetryPrefix(a) == AddRetryPrefix(b) ==> a == b
    ensures AddDeadPrefix(a) == AddDeadPrefix(b) ==> a == b
    ensures AddDirectPubPrefix(a) == AddDirectPubPrefix(b) ==> a == b
  {
    assert AddRetryPrefix(a)[1] == 'r' && AddDeadPrefix(b)[1] == 'd' && AddDirectPubPrefix(b)[1] == 'd';
    assert AddDeadPrefix(a)[2] == 'e' && AddDirectPubPrefix(b)[2] == 'i';
    assert AddRetryPrefix(a)[7..] == a && AddRetryPrefix(b)[7..] == b;
    assert AddDeadPrefix(a)[6..] == a && AddDeadPrefix(b)[6..] == b;
    assert AddDirectPubPrefix(a)[8..] == a && AddDirectPubPrefix(b)[8..] == b;
  }

  lemma EntryName(subs: seq<Subscription>, e: (string, string), q: string)
    requires e in DeadAndRetrySubs(subs)
    ensures StartsWith(e.0, "_") && e.0 != AddDirectPubPrefix(q)
  {
    EntriesOf(subs, e);
    var s :| s in subs && EntryOf(s, e);
    PrefixesApart(s.name, q);
  }

  lemma EntryNamesUnique(subs: seq<Subscription>, d: (string, string), e: (string, string))
    requires DistinctNames(subs) && d in DeadAndRetrySubs(subs) && e in DeadAndRetrySubs(subs)
    requires d.0 == e.0
    ensures d == e
  {
    EntriesOf(subs, d);
    EntriesOf(subs, e);
    var s :| s in subs && EntryOf(s, d);
    var t :| t in subs && EntryOf(t, e);
    PrefixesApart(s.name, t.name);
    PrefixesApart(t.name, s.name);
  }

  lemma WritesMore(entries: seq<(string, string)>, e: (string, string))
    ensures Writes(entries + [e]) == Writes(entries) + WritesOf(e)
  {
    assert (entries + [e])[..|entries + [e]| - 1] == entries;
  }

  lemma {:induction false} WriteSource(entries: seq<(string, string)>, i: nat)
    requires i < |Writes(entries)|
    ensures exists e :: e in entries && Writes(entries)[i] in WritesOf(e)
  {
    var last := entries[|entries| - 1];
    var init := entries[..|entries| - 1];
    if i < |Writes(init)| {
      WriteSource(init, i);
    } else {
      assert Writes(entries)[i] == WritesOf(last)[i - |Writes(init)|];
    }
  }

  lemma {:induction false} EntryWritten(entries: seq<(string, string)>, e: (string, string))
    requires e in entries
    ensures forall w :: w in WritesOf(e) ==> w in Writes(entries)
  {
    if e != entries[|entries| - 1] {
      EntryWritten(entries[..|entries| - 1], e);
    }
  }

  lemma WritesAgree(
    subs: seq<Subscription>, d: (string, string), e: (string, string), v: (string, Target), w: (string, Target))
    requires DistinctNames(subs) && d in DeadAndRetrySubs(subs) && e in DeadAndRetrySubs(subs)
    requires v in WritesOf(d) && w in WritesOf(e) && v.0 == w.0
    ensures v.1 == w.1
  {
    EntryName(subs, d, ProcessQueueOf(e.1));
    EntryName(subs, e, ProcessQueueOf(d.1));
    PrefixesApart(ProcessQueueOf(d.1), ProcessQueueOf(e.1));
    if d.0 == e.0 {
      EntryNamesUnique(subs, d, e);
    }
  }

  lemma WriteAgrees(subs: seq<Subscription>, done: seq<(string, string)>, e: (string, string), w: (string, Target))
    requires DistinctNames(subs) && e in DeadAndRetrySubs(subs) && w in WritesOf(e)
    requires forall d :: d in done ==> d in DeadAndRetrySubs(subs)
    ensures forall i :: 0 <= i < |Writes(done)| && Writes(done)[i].0 == w.0 ==> Writes(done)[i].1 == w.1
  {
    forall i | 0 <= i < |Writes(done)| && Writes(done)[i].0 == w.0
      ensures Writes(done)[i].1 == w.1
    {
      WriteSource(done, i);
      var d :| d in done && Writes(done)[i] in WritesOf(d);
      WritesAgree(subs, d, e, Writes(done)[i], w);
    }
  }

  /** The two publications of one subscription, written into the table. */
  function Wired(pubs: map<string, Target>, e: (string, string)): map<string, Target> {
    pubs[e.0 := ToQueue(e.1)][DirectName(e) := ToQueue(ProcessQueueOf(e.1))]
  }

  function AllWired(base: map<string, Target>, entries: seq<(string, string)>): map<string, Target> {
    if entries == [] then base
    else Wired(AllWired(base, entries[..|entries| - 1]), entries[|entries| - 1])
  }

  lemma AllWiredMore(base: map<string, Target>, entries: seq<(string, string)>, i: nat)
    requires i < |entries|
    ensures AllWired(base, entries[..i + 1]) == Wired(AllWired(base, entries[..i]), entries[i])
  {
    assert entries[..i + 1][..i] == entries[..i];
  }

  /** Written one subscription at a time, the table has exactly the promised writes over the exchange publications. */
  lemma {:induction false} AllWiredWritten(
    base: map<string, Target>, subs: seq<Subscription>, entries: seq<(string, string)>)
    requires DistinctNames(subs) && forall d :: d in entries ==> d in DeadAndRetrySubs(subs)
    ensures Written(base, Writes(entries), AllWired(base, entries))
  {
    if entries != [] {
      var init, last := entries[..|entries| - 1], entries[|entries| - 1];
      AllWiredWritten(base, subs, init);
      WireOne(base, subs, init, last, AllWired(base, init));
      assert entries == init + [last];
    }
  }

  lemma WireOne(
    base: map<string, Target>, subs: seq<Subscription>, done: seq<(string, string)>, e: (string, string),
    pubs: map<string, Target>)
    requires DistinctNames(subs) && Written(base, Writes(done), pubs)
    requires e in DeadAndRetrySubs(subs) && forall d :: d in done ==> d in DeadAndRetrySubs(subs)
    ensures Written(base, Writes(done + [e]), Wired(pubs, e))
  {
    var v, w := WritesOf(e)[0], WritesOf(e)[1];
    WriteAgrees(subs, done, e, v);
    WriteAgrees(subs, done, e, w);
    EntryName(subs, e, ProcessQueueOf(e.1));
    WriteTwo(base, Writes(done), pubs, v, w);
    WritesMore(done, e);
  }

  /**
   * The queue publications of createBrokerConnection, written into the table one subscription at a time: the
   * table ends up with exactly the promised writes over the exchange publications.
   */
  method AddQueuePublications(exchangePubs: map<string, Target>, subs: seq<Subscription>)
    returns (pubs: map<string, Target>)
    requires DistinctNames(subs)
    ensures Written(exchangePubs, Writes(DeadAndRetrySubs(subs)), pubs)
  {
    var entries := DeadAndRetrySubs(subs);
    pubs := exchangePubs;
    for i := 0 to |entries|
      invariant pubs == AllWired(exchangePubs, entries[..i])
    {
      AllWiredMore(exchangePubs, entries, i);
      var (sub, queue) := entries[i];
      pubs := pubs[sub := ToQueue(queue)];
      var processQueue := ProcessQueueOf(queue);
      pubs := pubs[AddDirectPubPrefix(processQueue) := ToQueue(processQueue)];
    }
    assert entries[..|entries|] == entries;
    AllWiredWritten(exchangePubs, subs, entries);
  }

  predicate CleanQueues(subs: seq<Subscription>) {
    forall s :: s in subs && s.queue.Some? ==> CleanName(s.queue.value)
  }

  lemma EntriesStrip(subs: seq<Subscription>, e: (string, string))
    requires CleanQueues(subs) && e in DeadAndRetrySubs(subs)
    ensures exists s :: s in subs && s.queue == Some(ProcessQueueOf(e.1))
  {
    EntriesOf(subs, e);
    var s :| s in subs && EntryOf(s, e);
    RetryNameStripped(s.queue.value);
    DeadNameStripped(s.queue.value);
  }

  lemma EntryPublished(
    exchangePubs: map<string, Target>, subs: seq<Subscription>, pubs: map<string, Target>, e: (string, string))
    requires Written(exchangePubs, Writes(DeadAndRetrySubs(subs)), pubs)
    requires exists s :: s in subs && EntryOf(s, e)
    ensures e.0 in pubs && pubs[e.0] == ToQueue(e.1)
    ensures DirectName(e) in pubs && pubs[DirectName(e)] == ToQueue(ProcessQueueOf(e.1))
  {
    EntriesOf(subs, e);
    EntryWritten(DeadAndRetrySubs(subs), e);
    assert WritesOf(e)[0] in WritesOf(e) && WritesOf(e)[1] in WritesOf(e);
  }

  /** A direct publication exists exactly for the names of consumed queues, and leads to that queue. */
  lemma DirectPublication(
    exchangePubs: map<string, Target>, subs: seq<Subscription>, pubs: map<string, Target>, name: string)
    requires Written(exchangePubs, Writes(DeadAndRetrySubs(subs)), pubs)
    requires CleanQueues(subs) && forall k :: k in exchangePubs ==> !StartsWith(k, "_")
    ensures AddDirectPubPrefix(name) in pubs <==> exists s :: s in subs && s.queue == Some(name)
    ensures AddDirectPubPrefix(name) in pubs ==> pubs[AddDirectPubPrefix(name)] == ToQueue(name)
  {
    var entries := DeadAndRetrySubs(subs);
    var direct := AddDirectPubPrefix(name);
    if direct in pubs {
      assert StartsWith(direct, "_");
      var i :| 0 <= i < |Writes(entries)| && Writes(entries)[i].0 == direct;
      WriteSource(entries, i);
      var e :| e in entries && Writes(entries)[i] in WritesOf(e);
      EntryName(subs, e, name);
      PrefixesApart(name, ProcessQueueOf(e.1));
      EntriesStrip(subs, e);
    }
    if s :| s in subs && s.queue == Some(name) {
      var e := (AddDeadPrefix(s.name), AddDeadPrefix(name));
      EntryPublished(exchangePubs, subs, pubs, e);
      DeadNameStripped(name);
    }
  }

  /**
   * Where an executor's three channels lead when queue names are clean. Its retry and dead publications reach the
   * queues that its retry and dead subscriptions consume. Its process channel is a publication exactly when the
   * subscription's name is the name of some consumed queue, and leads back to the executor exactly when it is
   * the name of its own queue: direct publications are keyed by queue, process channels by subscription.
   */
  lemma ExecutorChannels(
    exchangePubs: map<string, Target>, subs: seq<Subscription>, pubs: map<string, Target>, sub: Subscription)
    requires Written(exchangePubs, Writes(DeadAndRetrySubs(subs)), pubs)
    requires CleanQueues(subs) && sub in subs && sub.queue.Some?
    requires forall k :: k in exchangePubs ==> !StartsWith(k, "_")
    ensures
      var q := sub.queue.value;
      && AddRetryPrefix(sub.name) in pubs && pubs[AddRetryPrefix(sub.name)] == ToQueue(AddRetryPrefix(q))
      && AddDeadPrefix(sub.name) in pubs && pubs[AddDeadPrefix(sub.name)] == ToQueue(AddDeadPrefix(q))
      && AddDirectPubPrefix(q) in pubs && pubs[AddDirectPubPrefix(q)] == ToQueue(q)
    ensures AddDirectPubPrefix(sub.name) in pubs <==> exists s :: s in subs && s.queue == Some(sub.name)
    ensures AddDirectPubPrefix(sub.name) in pubs && pubs[AddDirectPubPrefix(sub.name)] == ToQueue(sub.queue.value)
       <==> sub.queue == Some(sub.name)
  {
    var q := sub.queue.value;
    var entries := DeadAndRetrySubs(subs);
    var retry := (AddRetryPrefix(sub.name), AddRetryPrefix(q));
    var dead := (AddDeadPrefix(sub.name), AddDeadPrefix(q));
    EntryPublished(exchangePubs, subs, pubs, retry);
    EntryPublished(exchangePubs, subs, pubs, dead);
    DeadNameStripped(q);
    DirectPublication(exchangePubs, subs, pubs, sub.name);
  }

  /* The repository's own tables. */

  const EXCHANGE_PUBLICATIONS: map<string, Target> := map[
    "tx_dicovered" := ToExchange("tx", "tx.evt.discovered"),
    "tx_processed" := ToExchange("tx", "tx.evt.processed"),
    "tx_saved" := ToExchange("tx", "tx.evt.saved"),
    "token_discovered" := ToExchange("token", "token.evt.discovered"),
    "wallet_discovered" := ToExchange("wallet", "wallet.evt.wallet_discovered"),
    "wallet_saved" := ToExchange("wallet", "wallet.evt.wallet_saved"),
    "wallet_updated" := ToExchange("wallet", "wallet.evt.wallet_updated")
  ]

  const PROCESS_TX_SUB := Subscription("discovered_tx_to_process", Some("process_tx"))
  const SAVE_TX_SUB := Subscription("tx_processed", Some("save_tx_of_interest"))
  const SAVE_TOKEN_SUB := Subscription("save_token", Some("save_token"))
  const SAVE_WALLET_SUB := Subscription("save_wallet", Some("save_wallet"))

  const SUBSCRIPTIONS: seq<Subscription> := [PROCESS_TX_SUB, SAVE_TX_SUB, SAVE_TOKEN_SUB, SAVE_WALLET_SUB]

  lemma NoPrefixInside(q: string)
    requires forall i :: 0 <= i < |q| - 1 && q[i] == '_' ==> q[i + 1] != 'd' && q[i + 1] != 'r'
    requires q == "" || q[0] != 'd'
    ensures CleanName(q)
  {
    assert DEAD_PREFIX[0] == '_' && DEAD_PREFIX[1] == 'd' && RETRY_PREFIX[0] == '_' && RETRY_PREFIX[1] == 'r';
    assert "dead_"[0] == 'd';
    if i :| 0 <= i <= |q| && StartsWith(q[i..], DEAD_PREFIX) {
      PrefixChars(q, i, DEAD_PREFIX);
    }
    if i :| 0 <= i <= |q| && StartsWith(q[i..], RETRY_PREFIX) {
      PrefixChars(q, i, RETRY_PREFIX);
    }
    OtherStart(q, "dead_");
  }

  lemma QueuesClean()
    ensures CleanQueues(SUBSCRIPTIONS)
  {
    NoPrefixInside("process_tx");
    NoPrefixInside("save_tx_of_interest");
    NoPrefixInside("save_token");
    NoPrefixInside("save_wallet");
  }

  lemma NamesDistinct()
    ensures DistinctNames(SUBSCRIPTIONS)
  {
    assert |PROCESS_TX_SUB.name| == 24 && |SAVE_TX_SUB.name| == 12;
    assert |SAVE_TOKEN_SUB.name| == 10 && |SAVE_WALLET_SUB.name| == 11;
  }

  lemma ExchangeKeysPlain()
    ensures forall k :: k in EXCHANGE_PUBLICATIONS ==> !StartsWith(k, "_")
  {
    forall k | k in EXCHANGE_PUBLICATIONS
      ensures !StartsWith(k, "_")
    {
      assert k[0] == 't' || k[0] == 'w';
      OtherStart(k, "_");
    }
  }

  lemma TxNamesAreNoQueues(sub: Subscription)
    requires sub in SUBSCRIPTIONS
    ensures sub.queue != Some(PROCESS_TX_SUB.name) && sub.queue != Some(SAVE_TX_SUB.name)
  {
    assert |PROCESS_TX_SUB.name| == 24 && |SAVE_TX_SUB.name| == 12;
    assert |"process_tx"| == 10 && |"save_tx_of_interest"| == 19 && |"save_token"| == 10 && |"save_wallet"| == 11;
  }

  /** Only the token and wallet subscriptions are named like a queue: like their own. */
  lemma NamedLikeQueue(sub: Subscription)
    requires sub in SUBSCRIPTIONS
    ensures (exists s :: s in SUBSCRIPTIONS && s.queue == Some(sub.name))
       <==> sub == SAVE_TOKEN_SUB || sub == SAVE_WALLET_SUB
    ensures sub == SAVE_TOKEN_SUB || sub == SAVE_WALLET_SUB ==> sub.queue == Some(sub.name)
  {
    NamesDistinct();
    if sub == PROCESS_TX_SUB || sub == SAVE_TX_SUB {
      forall s | s in SUBSCRIPTIONS
        ensures s.queue != Some(sub.name)
      {
        TxNamesAreNoQueues(s);
      }
      assert SUBSCRIPTIONS[0] != SUBSCRIPTIONS[2];
    } else {
      assert sub == SAVE_TOKEN_SUB || sub == SAVE_WALLET_SUB;
      assert sub in SUBSCRIPTIONS && sub.queue == Some(sub.name);
    }
  }

  /** The publications of createBrokerConnection for the repository's own tables. */
  method RepositoryPublications() returns (pubs: map<string, Target>)
    ensures Written(EXCHANGE_PUBLICATIONS, Writes(DeadAndRetrySubs(SUBSCRIPTIONS)), pubs)
  {
    NamesDistinct();
    pubs := AddQueuePublications(EXCHANGE_PUBLICATIONS, SUBSCRIPTIONS);
  }

  /**
   * In the repository's own topology the token and wallet executors reach their queues directly, but the process
   * channels of the two transaction executors name publications that do not exist.
   */
  lemma RepositoryDirectRoutes(pubs: map<string, Target>)
    requires Written(EXCHANGE_PUBLICATIONS, Writes(DeadAndRetrySubs(SUBSCRIPTIONS)), pubs)
    ensures forall sub :: sub in SUBSCRIPTIONS ==>
      (AddDirectPubPrefix(sub.name) in pubs <==> sub == SAVE_TOKEN_SUB || sub == SAVE_WALLET_SUB)
    ensures forall sub :: sub in SUBSCRIPTIONS && AddDirectPubPrefix(sub.name) in pubs ==>
      pubs[AddDirectPubPrefix(sub.name)] == ToQueue(sub.queue.value)
  {
    QueuesClean();
    ExchangeKeysPlain();
    forall sub | sub in SUBSCRIPTIONS
      ensures AddDirectPubPrefix(sub.name) in pubs <==> sub == SAVE_TOKEN_SUB || sub == SAVE_WALLET_SUB
      ensures AddDirectPubPrefix(sub.name) in pubs
          ==> pubs[AddDirectPubPrefix(sub.name)] == ToQueue(sub.queue.value)
    {
      DirectPublication(EXCHANGE_PUBLICATIONS, SUBSCRIPTIONS, pubs, sub.name);
      NamedLikeQueue(sub);
    }
  }
}
