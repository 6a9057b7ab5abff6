/**
 * Wallet messages handled at the same time: the subscription of SaveWallet takes up to 20 messages at once
 * (src/Infrastructure/Broker/Rabbitmq/Utils/ConfigCreation.ts:61-64), so that other handlers run between the lookup
 * of a wallet and its save. Which merges survive is decided by how many saves each lookup came after.
 */
module WalletOverlap {
  import opened Options
  import opened Ids
  import opened Wallets
  import opened CachedRepository
  import opened CachedWallets

  /** A handler between its lookup and its save. `seen`, the number of saves before its lookup, is history. */
  datatype Handler = Handler(msg: Message, id: Id, found: Option<Props>, cached: bool, seen: nat)

  /** A save that the database took. */
  datatype Landed = Landed(msg: Message, id: Id, now: int, seen: nat)

  datatype Pool = Pool(repo: State<Props>, handlers: seq<Handler>, saves: seq<Landed>)

  datatype Move =
    | Look(msg: Message, cacheUp: bool)
    | Store(k: nat, values: Printed, keyAccepted: bool)
    | Fail(k: nat)           // the handler ends without saving
    | Around(step: Reading)  // fills land, time passes, others look wallets up

  function Without(handlers: seq<Handler>, k: nat): seq<Handler>
    requires k < |handlers|
  {
    handlers[..k] + handlers[k + 1..]
  }

  function ItemOf(h: Handler, now: int): Doc<Props> {
    Doc(h.id, MergedProps(h.found, h.msg, now))
  }

  function Next(resolve: Resolver, r: Repository, p: Pool, m: Move): Pool {
    match m
    case Look(msg, cacheUp) =>
      (match Target(resolve, msg)
       case None => p
       case Some(id) =>
         var cached := CachedDoc(r, p.repo, LookupOf(id), cacheUp);
         var found := if cached.Some? then cached else StoredDoc(p.repo, id);
         p.(repo := Apply(r, p.repo, Find(LookupOf(id), cacheUp)),
            handlers := p.handlers + [Handler(msg, id, ContentOf(found), cached.Some?, |p.saves|)]))
    case Store(k, values, keyAccepted) =>
      if k < |p.handlers| then
        var h := p.handlers[k];
        var origin := if h.cached then FromCache else if h.found.Some? then FromCollection else Created;
        Pool(Apply(r, p.repo, Save(ItemOf(h, p.repo.now), origin, values, keyAccepted)),
             Without(p.handlers, k),
             if h.cached then p.saves else p.saves + [Landed(h.msg, h.id, p.repo.now, h.seen)])
      else p
    case Fail(k) => if k < |p.handlers| then p.(handlers := Without(p.handlers, k)) else p
    case Around(step) => p.(repo := Apply(r, p.repo, step))
  }

  function RunPool(resolve: Resolver, r: Repository, moves: seq<Move>): Pool {
    if moves == [] then Pool(Empty(), [], [])
    else Next(resolve, r, RunPool(resolve, r, moves[..|moves| - 1]), moves[|moves| - 1])
  }

  /* What the saves leave. */

  /** Every lookup came before its own save. */
  predicate SeenBefore(saves: seq<Landed>) {
    forall i :: 0 <= i < |saves| ==> saves[i].seen <= i
  }

  /** The collection after the first `n` saves: each puts its merge into what its lookup saw. */
  function DocsAfter(saves: seq<Landed>, n: nat): Docs
    requires n <= |saves| && SeenBefore(saves)
  {
    if n == 0 then map[]
    else
      var l := saves[n - 1];
      DocsAfter(saves, n - 1)[l.id := MergedProps(Stored(DocsAfter(saves, l.seen), l.id), l.msg, l.now)]
  }

  lemma {:induction false} DocsAfterPrefix(saves: seq<Landed>, last: Landed, n: nat)
    requires n <= |saves| && SeenBefore(saves + [last]) && SeenBefore(saves)
    ensures DocsAfter(saves + [last], n) == DocsAfter(saves, n)
  {
    if n > 0 {
      assert (saves + [last])[n - 1] == saves[n - 1];
      DocsAfterPrefix(saves, last, n - 1);
      DocsAfterPrefix(saves, last, saves[n - 1].seen);
    }
  }

  /** What a handler found is what the collection held after the saves it saw. */
  ghost predicate HandlerOk(saves: seq<Landed>, h: Handler)
    requires SeenBefore(saves)
  {
    h.seen <= |saves| && (!h.cached ==> h.found == Stored(DocsAfter(saves, h.seen), h.id))
  }

  ghost predicate PoolOk(p: Pool) {
    && SeenBefore(p.saves) && Contents(p.repo) == DocsAfter(p.saves, |p.saves|)
    && forall i :: 0 <= i < |p.handlers| ==> HandlerOk(p.saves, p.handlers[i])
  }

  lemma LookKeeps(resolve: Resolver, r: Repository, p: Pool, msg: Message, cacheUp: bool)
    requires PoolOk(p)
    ensures PoolOk(Next(resolve, r, p, Look(msg, cacheUp)))
  {
    var q := Next(resolve, r, p, Look(msg, cacheUp));
    assert q.repo.docs == p.repo.docs && q.saves == p.saves;
    assert Contents(q.repo) == Contents(p.repo);
    forall i | 0 <= i < |q.handlers|
      ensures HandlerOk(q.saves, q.handlers[i])
    {
      if i < |p.handlers| {
        assert HandlerOk(p.saves, p.handlers[i]) && q.handlers[i] == p.handlers[i];
      } else {
        var id := q.handlers[i].id;
        assert ContentOf(StoredDoc(p.repo, id)) == Stored(Contents(p.repo), id);
      }
    }
  }

  lemma SavedContents(
    r: Repository, s: State<Props>, item: Doc<Props>, origin: Origin, values: Printed, keyAccepted: bool)
    requires origin != FromCache
    ensures Contents(Apply(r, s, Save(item, origin, values, keyAccepted))) == Contents(s)[item.id := item.content]
  {
    var t := Apply(r, s, Save(item, origin, values, keyAccepted));
    assert t.docs == s.docs[item.id := item];
  }

  lemma DocsAfterNext(saves: seq<Landed>, n: nat)
    requires n < |saves| && SeenBefore(saves)
    ensures
      var l := saves[n];
      DocsAfter(saves, n + 1)
      == DocsAfter(saves, n)[l.id := MergedProps(Stored(DocsAfter(saves, l.seen), l.id), l.msg, l.now)]
  {
  }

  lemma DocsAfterSave(saves: seq<Landed>, last: Landed)
    requires SeenBefore(saves) && last.seen <= |saves|
    ensures SeenBefore(saves + [last])
    ensures DocsAfter(saves + [last], |saves + [last]|)
         == DocsAfter(saves, |saves|)[last.id :=
              MergedProps(Stored(DocsAfter(saves, last.seen), last.id), last.msg, last.now)]
  {
    var all := saves + [last];
    assert SeenBefore(all) && all[|saves|] == last;
    DocsAfterPrefix(saves, last, |saves|);
    DocsAfterPrefix(saves, last, last.seen);
    DocsAfterNext(all, |saves|);
  }

  lemma SaveLands(r: Repository, p: Pool, h: Handler, origin: Origin, values: Printed, keyAccepted: bool)
    requires PoolOk(p) && HandlerOk(p.saves, h) && !h.cached && origin != FromCache
    ensures
      var saves := p.saves + [Landed(h.msg, h.id, p.repo.now, h.seen)];
      && SeenBefore(saves)
      && Contents(Apply(r, p.repo, Save(ItemOf(h, p.repo.now), origin, values, keyAccepted)))
         == DocsAfter(saves, |saves|)
  {
    SavedContents(r, p.repo, ItemOf(h, p.repo.now), origin, values, keyAccepted);
    DocsAfterSave(p.saves, Landed(h.msg, h.id, p.repo.now, h.seen));
  }

  lemma HandlerStays(saves: seq<Landed>, last: Landed, h: Handler)
    requires SeenBefore(saves) && SeenBefore(saves + [last]) && HandlerOk(saves, h)
    ensures HandlerOk(saves + [last], h)
  {
    DocsAfterPrefix(saves, last, h.seen);
  }

  /** The handlers that are left, when the saves stay or grow by one. */
  lemma OthersStay(saves: seq<Landed>, after: seq<Landed>, handlers: seq<Handler>, k: nat)
    requires SeenBefore(saves) && SeenBefore(after) && k < |handlers|
    requires after == saves || (after != [] && after == saves + [after[|after| - 1]])
    requires forall i :: 0 <= i < |handlers| ==> HandlerOk(saves, handlers[i])
    ensures forall i :: 0 <= i < |handlers| - 1 ==> HandlerOk(after, Without(handlers, k)[i])
  {
    forall i | 0 <= i < |handlers| - 1
      ensures HandlerOk(after, Without(handlers, k)[i])
    {
      var g := handlers[if i < k then i else i + 1];
      assert Without(handlers, k)[i] == g && HandlerOk(saves, g);
      if after != saves {
        HandlerStays(saves, after[|after| - 1], g);
      }
    }
  }

  lemma StoreKeeps(resolve: Resolver, r: Repository, p: Pool, k: nat, values: Printed, keyAccepted: bool)
    requires PoolOk(p) && k < |p.handlers|
    ensures PoolOk(Next(resolve, r, p, Store(k, values, keyAccepted)))
  {
    var q, h := Next(resolve, r, p, Store(k, values, keyAccepted)), p.handlers[k];
    assert HandlerOk(p.saves, h);
    if h.cached {
      assert q.repo == p.repo;
    } else {
      SaveLands(r, p, h, if h.found.Some? then FromCollection else Created, values, keyAccepted);
    }
    OthersStay(p.saves, q.saves, p.handlers, k);
  }

  lemma AroundKeeps(resolve: Resolver, r: Repository, p: Pool, m: Move)
    requires PoolOk(p) && (m.Fail? || m.Around?)
    ensures PoolOk(Next(resolve, r, p, m))
  {
    var q := Next(resolve, r, p, m);
    assert q.repo.docs == p.repo.docs;
    assert Contents(q.repo) == Contents(p.repo);
    forall i | 0 <= i < |q.handlers|
      ensures HandlerOk(q.saves, q.handlers[i])
    {
      var g := p.handlers[if m.Fail? && m.k < |p.handlers| && i >= m.k then i + 1 else i];
      assert q.handlers[i] == g && HandlerOk(p.saves, g);
    }
  }

  /**
   * Over every interleaving of handlers, lookups by others, late or lost fills and cache outages, the collection is
   * decided by the saves alone: by their messages, and by how many saves each lookup came after.
   */
  lemma {:induction false} SavesDecide(resolve: Resolver, r: Repository, moves: seq<Move>)
    ensures
      var p := RunPool(resolve, r, moves);
      SeenBefore(p.saves) && Contents(p.repo) == DocsAfter(p.saves, |p.saves|)
    ensures PoolOk(RunPool(resolve, r, moves))
  {
    if moves != [] {
      var before, m := moves[..|moves| - 1], moves[|moves| - 1];
      SavesDecide(resolve, r, before);
      var p := RunPool(resolve, r, before);
      match m
      case Look(msg, cacheUp) => LookKeeps(resolve, r, p, msg, cacheUp);
      case Store(k, values, keyAccepted) =>
        if k < |p.handlers| {
          StoreKeeps(resolve, r, p, k, values, keyAccepted);
        }
      case _ => AroundKeeps(resolve, r, p, m);
    }
  }

  /* Which merges survive. */

  /** The saves whose merges are in the wallet: the last one, and what was in the wallet that it looked up. */
  function Kept(saves: seq<Landed>, n: nat, id: Id): set<nat>
    requires n <= |saves| && SeenBefore(saves)
  {
    if n == 0 then {}
    else if saves[n - 1].id != id then Kept(saves, n - 1, id)
    else Kept(saves, saves[n - 1].seen, id) + {n - 1}
  }

  function SavesOf(saves: seq<Landed>, n: nat, id: Id): set<nat>
    requires n <= |saves|
  {
    set i: nat | i < n && saves[i].id == id
  }

  function MessagesOf(saves: seq<Landed>, kept: set<nat>): set<Message>
    requires forall i :: i in kept ==> i < |saves|
  {
    set i | i in kept :: saves[i].msg
  }

  lemma {:induction false} KeptAreSaves(saves: seq<Landed>, n: nat, id: Id)
    requires n <= |saves| && SeenBefore(saves)
    ensures Kept(saves, n, id) <= SavesOf(saves, n, id)
  {
    if n > 0 {
      KeptAreSaves(saves, if saves[n - 1].id != id then n - 1 else saves[n - 1].seen, id);
    }
  }

  lemma MergeOne(docs: Docs, id: Id, msg: Message, now: int)
    ensures Extended(docs, docs[id := MergedProps(Stored(docs, id), msg, now)], id, {msg})
  {
    TagsMerged(TagsOf(docs, id), msg.tags, now);
    RelationsMerged(RelationsOf(docs, id), msg.relations, now);
    assert AllNames({msg}) == Names(msg.tags);
    assert AllKeys({msg}) == NewKeys(msg.relations);
  }

  /** Extending is about one wallet. */
  lemma ExtendedElsewhere(before: Docs, after: Docs, other: Docs, id: Id, saved: set<Message>)
    requires Extended(before, after, id, saved) && Stored(other, id) == Stored(after, id)
    ensures Extended(before, other, id, saved)
  {
    assert id in other <==> id in after;
    assert TagsOf(other, id) == TagsOf(after, id) && RelationsOf(other, id) == RelationsOf(after, id);
  }

  /** A wallet holds exactly the tags and relations of the messages whose saves are kept. */
  lemma {:induction false} WalletHoldsKept(saves: seq<Landed>, n: nat, id: Id)
    requires n <= |saves| && SeenBefore(saves)
    ensures forall i :: i in Kept(saves, n, id) ==> i < n
    ensures Extended(map[], DocsAfter(saves, n), id, MessagesOf(saves, Kept(saves, n, id)))
  {
    KeptAreSaves(saves, n, id);
    if n == 0 {
      assert MessagesOf(saves, {}) == {} && AllNames({}) == {} && AllKeys({}) == {};
    } else if saves[n - 1].id != id {
      WalletHoldsKept(saves, n - 1, id);
      ExtendedElsewhere(map[], DocsAfter(saves, n - 1), DocsAfter(saves, n), id,
                        MessagesOf(saves, Kept(saves, n - 1, id)));
    } else {
      var l := saves[n - 1];
      WalletHoldsKept(saves, l.seen, id);
      var seen := DocsAfter(saves, l.seen);
      MergeOne(seen, id, l.msg, l.now);
      var merged := seen[id := MergedProps(Stored(seen, id), l.msg, l.now)];
      ExtendedTwice(map[], seen, merged, id, MessagesOf(saves, Kept(saves, l.seen, id)), {l.msg});
      assert MessagesOf(saves, Kept(saves, n, id)) == MessagesOf(saves, Kept(saves, l.seen, id)) + {l.msg};
      ExtendedElsewhere(map[], merged, DocsAfter(saves, n), id, MessagesOf(saves, Kept(saves, n, id)));
    }
  }

  /** The type is that of the last save. */
  lemma {:induction false} LastSaveDecidesType(saves: seq<Landed>, n: nat, id: Id, i: nat)
    requires i < n <= |saves| && SeenBefore(saves) && saves[i].id == id
    requires forall j :: i < j < n ==> saves[j].id != id
    ensures TypeOf(DocsAfter(saves, n), id) == Some(saves[i].msg.kind.GetOr(UnknownWallet))
  {
    if i < n - 1 {
      LastSaveDecidesType(saves, n - 1, id, i);
    }
  }

  /** The alias of a wallet, found by going back through the kept saves. */
  function KeptAlias(saves: seq<Landed>, kept: set<nat>, n: nat): Option<string>
    requires n <= |saves|
  {
    if n == 0 then None
    else if n - 1 in kept && saves[n - 1].msg.alias.Some? then saves[n - 1].msg.alias
    else KeptAlias(saves, kept, n - 1)
  }

  lemma {:induction false} KeptAliasBelow(saves: seq<Landed>, kept: set<nat>, more: set<nat>, m: nat, n: nat)
    requires m <= n <= |saves| && forall i :: m <= i < n ==> i !in more
    requires forall i :: 0 <= i < m ==> (i in kept <==> i in more)
    ensures KeptAlias(saves, more, n) == KeptAlias(saves, kept, m)
  {
    if n > 0 {
      KeptAliasBelow(saves, kept, more, if m == n then m - 1 else m, n - 1);
    }
  }

  /** The alias is that of the last kept save that has one. */
  lemma {:induction false} KeptDecideAlias(saves: seq<Landed>, n: nat, id: Id)
    requires n <= |saves| && SeenBefore(saves)
    ensures AliasOf(DocsAfter(saves, n), id) == KeptAlias(saves, Kept(saves, n, id), n)
  {
    if n > 0 {
      var l := saves[n - 1];
      var m := if l.id != id then n - 1 else l.seen;
      KeptAreSaves(saves, m, id);
      KeptDecideAlias(saves, m, id);
      KeptAliasBelow(saves, Kept(saves, m, id), Kept(saves, n, id), m, n - 1);
    }
  }

  /** A handler that fails has changed nothing. */
  lemma FailedHandlerLeavesNothing(resolve: Resolver, r: Repository, p: Pool, k: nat)
    requires k < |p.handlers|
    ensures
      var q := Next(resolve, r, p, Fail(k));
      && q.repo == p.repo && q.saves == p.saves && |q.handlers| == |p.handlers| - 1
      && multiset(q.handlers) == multiset(p.handlers) - multiset{p.handlers[k]}
  {
    assert p.handlers == p.handlers[..k] + [p.handlers[k]] + p.handlers[k + 1..];
  }

  /**
   * The wallet at the end of any run: it holds exactly the tags and relations of the messages whose saves are kept,
   * under unique keys.
   */
  lemma OverlappingRunHolds(resolve: Resolver, r: Repository, moves: seq<Move>, id: Id)
    ensures
      var p := RunPool(resolve, r, moves);
      && SeenBefore(p.saves)
      && (forall i :: i in Kept(p.saves, |p.saves|, id) ==> i < |p.saves|)
      && Extended(map[], Contents(p.repo), id, MessagesOf(p.saves, Kept(p.saves, |p.saves|, id)))
  {
    SavesDecide(resolve, r, moves);
    var p := RunPool(resolve, r, moves);
    WalletHoldsKept(p.saves, |p.saves|, id);
  }

  /** Each save of the wallet came after a lookup that saw all saves of the wallet before it. */
  predicate NoOverlap(saves: seq<Landed>, n: nat, id: Id)
    requires n <= |saves|
  {
    forall i, j :: 0 <= i < j < n && saves[i].id == id && saves[j].id == id ==> i < saves[j].seen
  }

  /**
   * All merges into a wallet survive exactly when no two handlings of it overlap: every one looked the wallet up after
   * all saves of it that landed before its own.
   */
  lemma {:induction false} AllKeptIff(saves: seq<Landed>, n: nat, id: Id)
    requires n <= |saves| && SeenBefore(saves)
    ensures Kept(saves, n, id) == SavesOf(saves, n, id) <==> NoOverlap(saves, n, id)
  {
    if n > 0 {
      var l := saves[n - 1];
      if l.id != id {
        AllKeptIff(saves, n - 1, id);
        assert SavesOf(saves, n, id) == SavesOf(saves, n - 1, id);
      } else {
        AllKeptIff(saves, l.seen, id);
        KeptAreSaves(saves, l.seen, id);
        assert SavesOf(saves, n, id) == SavesOf(saves, n - 1, id) + {n - 1};
        if NoOverlap(saves, n, id) {
          assert SavesOf(saves, n - 1, id) == SavesOf(saves, l.seen, id);
        }
        if Kept(saves, n, id) == SavesOf(saves, n, id) {
          forall i: nat | i < n - 1 && saves[i].id == id
            ensures i < l.seen && i in Kept(saves, l.seen, id)
          {
            assert i in SavesOf(saves, n, id);
          }
          assert Kept(saves, l.seen, id) == SavesOf(saves, l.seen, id);
        }
      }
    }
  }

  /**
   * What a single save takes away: a tag that was in the wallet is gone after it exactly when neither its message nor
   * the wallet it had looked up has the tag. And likewise for relations.
   */
  lemma SaveDropsIff(saves: seq<Landed>, n: nat, name: string, key: (string, RelationType))
    requires n < |saves| && SeenBefore(saves)
    ensures
      var l := saves[n];
      var before, seen, after := DocsAfter(saves, n), DocsAfter(saves, l.seen), DocsAfter(saves, n + 1);
      && (name in TagNames(TagsOf(before, l.id)) && name !in TagNames(TagsOf(after, l.id))
          <==> && name in TagNames(TagsOf(before, l.id))
               && name !in Names(l.msg.tags) && name !in TagNames(TagsOf(seen, l.id)))
      && (key in RelationKeys(RelationsOf(before, l.id)) && key !in RelationKeys(RelationsOf(after, l.id))
          <==> && key in RelationKeys(RelationsOf(before, l.id))
               && key !in NewKeys(l.msg.relations) && key !in RelationKeys(RelationsOf(seen, l.id)))
  {
    var l := saves[n];
    var seen := DocsAfter(saves, l.seen);
    TagsMerged(TagsOf(seen, l.id), l.msg.tags, l.now);
    RelationsMerged(RelationsOf(seen, l.id), l.msg.relations, l.now);
  }

  /** A message handled without interruption, as in CachedWallets, is a lookup, its fill, and a save. */
  lemma UninterruptedIsHandle(resolve: Resolver, r: Repository, p: Pool, v: Visit)
    requires p.handlers == [] && v.fault != BeforeSave && Target(resolve, v.msg).Some?
    ensures
      var looked := Next(resolve, r, p, Look(v.msg, v.cacheUp));
      var filled := if |looked.repo.fills| > |p.repo.fills|
                    then Next(resolve, r, looked, Around(LandFill(|p.repo.fills|, v.fillAccepted))) else looked;
      Next(resolve, r, filled, Store(0, v.values, v.keyAccepted)).repo == Handle(resolve, r, p.repo, v)
  {
  }

  lemma LookFresh(resolve: Resolver, r: Repository, p: Pool, msg: Message, id: Id)
    requires Target(resolve, msg) == Some(id) && p.repo.docs == map[] && p.repo.cache == map[]
    ensures
      var q := Next(resolve, r, p, Look(msg, true));
      && q.handlers == p.handlers + [Handler(msg, id, None, false, |p.saves|)] && q.saves == p.saves
      && q.repo.docs == map[] && q.repo.cache == map[] && q.repo.now == p.repo.now
  {
  }

  lemma RunPoolMore(resolve: Resolver, r: Repository, moves: seq<Move>, m: Move)
    ensures RunPool(resolve, r, moves + [m]) == Next(resolve, r, RunPool(resolve, r, moves), m)
  {
    assert (moves + [m])[..|moves + [m]| - 1] == moves;
  }

  /** Both handlers have looked up before either saves. */
  lemma BothLooked(resolve: Resolver, r: Repository, a: Message, b: Message, id: Id) returns (p: Pool)
    requires Target(resolve, a) == Target(resolve, b) == Some(id)
    ensures p == RunPool(resolve, r, [] + [Look(a, true)] + [Look(b, true)])
    ensures p.handlers == [Handler(a, id, None, false, 0), Handler(b, id, None, false, 0)] && p.saves == []
  {
    var none: seq<Move> := [];
    RunPoolMore(resolve, r, none, Look(a, true));
    RunPoolMore(resolve, r, none + [Look(a, true)], Look(b, true));
    var p0 := RunPool(resolve, r, none);
    LookFresh(resolve, r, p0, a, id);
    var p1 := Next(resolve, r, p0, Look(a, true));
    LookFresh(resolve, r, p1, b, id);
    p := Next(resolve, r, p1, Look(b, true));
  }

  /** The failing input: two messages for a new wallet, both looked up before either is saved. */
  lemma OverlapLosesTags(resolve: Resolver, r: Repository, a: Message, b: Message, id: Id, v: Printed, w: Printed)
    requires Target(resolve, a) == Target(resolve, b) == Some(id)
    ensures
      var p := RunPool(resolve, r, [Look(a, true), Look(b, true), Store(0, v, true), Store(0, w, true)]);
      id in Contents(p.repo) && TagNames(Contents(p.repo)[id].tags) == Names(b.tags)
  {
    var looks := [] + [Look(a, true)] + [Look(b, true)];
    var first := looks + [Store(0, v, true)];
    var moves := first + [Store(0, w, true)];
    assert moves == [Look(a, true), Look(b, true), Store(0, v, true), Store(0, w, true)];
    var p := BothLooked(resolve, r, a, b, id);
    RunPoolMore(resolve, r, looks, Store(0, v, true));
    RunPoolMore(resolve, r, first, Store(0, w, true));
    var p1 := Next(resolve, r, p, Store(0, v, true));
    assert p1.handlers == [Handler(b, id, None, false, 0)];
    SavedContents(r, p1.repo, ItemOf(p1.handlers[0], p1.repo.now), Created, w, true);
    TagsMerged([], b.tags, p1.repo.now);
  }
}
