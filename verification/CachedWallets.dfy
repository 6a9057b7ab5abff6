/**
 * SaveWallet on the repository it is given, which reads through a cache: src/App/UseCases/Wallets/SaveWallet.ts over
 * src/Infrastructure/Repository/CachedMongoBaseRepository.ts. Messages are handled one at a time, between lookups of
 * wallets by anyone else. A wallet read from the cache cannot be saved, so nothing stale is ever merged into.
 */
module CachedWallets {
  import opened Options
  import opened Ids
  import opened Wallets
  import opened CachedRepository

  /**
   * A message being handled, and how cache and services fare: `values` is what the saved wallet prints as, and
   * `keyAccepted` whether the cache takes the entry that `save` makes of it.
   */
  datatype Visit = Visit(
    msg: Message, fault: Fault, cacheUp: bool, fillAccepted: bool, values: Printed, keyAccepted: bool)

  /** What others do with the repository, and the passing of time: wallets are saved by SaveWallet only. */
  type Reading = step: Step<Props> | !step.Save? witness Tick(0)

  datatype Event = Handling(visit: Visit) | Other(step: Reading)

  function LookupOf(id: Id): Lookup {
    Lookup(id, true)
  }

  function Contents(s: State<Props>): Docs {
    map id | id in s.docs :: s.docs[id].content
  }

  /** The message finds its wallet in the cache. */
  predicate Hit(resolve: Resolver, r: Repository, s: State<Props>, v: Visit) {
    var target := Target(resolve, v.msg);
    target.Some? && CachedDoc(r, s, LookupOf(target.value), v.cacheUp).Some?
  }

  function ContentOf(found: Option<Doc<Props>>): Option<Props> {
    match found
    case Some(d) => Some(d.content)
    case None => None
  }

  function OriginOf(found: Option<Doc<Props>>, cached: bool): Origin {
    if cached then FromCache else if found.Some? then FromCollection else Created
  }

  /** The repository after a message has been handled: a lookup, a merge into what it found, and a save. */
  function Handle(resolve: Resolver, r: Repository, s: State<Props>, v: Visit): State<Props> {
    match Target(resolve, v.msg)
    case None => s
    case Some(id) =>
      var cached := CachedDoc(r, s, LookupOf(id), v.cacheUp);
      var found := if cached.Some? then cached else StoredDoc(s, id);
      var read := FindAndFill(r, s, LookupOf(id), v.cacheUp, v.fillAccepted);
      if v.fault == BeforeSave then read
      else
        var merged := Doc(id, MergedProps(ContentOf(found), v.msg, s.now));
        Apply(r, read, Save(merged, OriginOf(found, cached.Some?), v.values, v.keyAccepted))
  }

  function RunEvents(resolve: Resolver, r: Repository, events: seq<Event>): State<Props> {
    if events == [] then Empty()
    else
      var before := RunEvents(resolve, r, events[..|events| - 1]);
      match events[|events| - 1]
      case Handling(v) => Handle(resolve, r, before, v)
      case Other(step) => Apply(r, before, step)
  }

  class SaveWallet {
    const resolve: Resolver
    const walletRepository: Client<Props>

    constructor (resolve: Resolver, walletRepository: Client<Props>)
      ensures this.resolve == resolve && this.walletRepository == walletRepository
    {
      this.resolve, this.walletRepository := resolve, walletRepository;
    }

    /** `done` is whether the handler resolves; otherwise the message is tried again. */
    method Execute(v: Visit) returns (done: bool)
      modifies walletRepository
      ensures walletRepository.st == Handle(resolve, walletRepository.r, old(walletRepository.st), v)
      ensures done == (Target(resolve, v.msg).Some? && v.fault == NoFault
                       && !Hit(resolve, walletRepository.r, old(walletRepository.st), v))
    {
      var resolved := resolve(v.msg.blockchain, v.msg.address);
      if resolved.None? {
        return false;
      }
      var id := Id(v.msg.blockchain, resolved.value);
      var now := walletRepository.st.now;
      var existing, cached := walletRepository.FindOne(LookupOf(id), v.cacheUp, v.fillAccepted);
      var wallet: Wallet;
      if existing.Some? {
        wallet := UpdateWallet(id, existing.value.content, v.msg, now);
      } else {
        wallet := CreateWallet(id, v.msg, now);
      }
      var origin := if cached then FromCache else if existing.Some? then FromCollection else Created;
      var saved := walletRepository.SaveOne(
        Doc(id, wallet.Raw()), origin, v.values, v.fault != BeforeSave, v.keyAccepted);
      done := saved && v.fault == NoFault;
    }

    method CreateWallet(id: Id, msg: Message, now: int) returns (wallet: Wallet)
      ensures fresh(wallet) && wallet.Raw() == MergedProps(None, msg, now)
    {
      wallet := new Wallet(id, Props(msg.alias, msg.kind.GetOr(UnknownWallet), [], []));
      wallet.AddTags(msg.tags, now);
      wallet.AddRelations(msg.relations, now);
    }

    method UpdateWallet(id: Id, existing: Props, msg: Message, now: int) returns (wallet: Wallet)
      ensures fresh(wallet) && wallet.Raw() == MergedProps(Some(existing), msg, now)
    {
      wallet := new Wallet(id, existing);
      wallet.SetType(msg.kind.GetOr(UnknownWallet));
      if msg.alias.Some? {
        wallet.SetAlias(msg.alias.value);
      }
      wallet.AddRelations(msg.relations, now);
      wallet.AddTags(msg.tags, now);
    }
  }

  /* Without the cache. */

  /** The same handling on the plain collection: one that hit the cache failed before its save. */
  function AttemptOf(resolve: Resolver, r: Repository, s: State<Props>, v: Visit): Attempt {
    Attempt(v.msg, s.now, if Hit(resolve, r, s, v) then BeforeSave else v.fault)
  }

  function Attempts(resolve: Resolver, r: Repository, events: seq<Event>): seq<Attempt> {
    if events == [] then []
    else
      var init, last := events[..|events| - 1], events[|events| - 1];
      Attempts(resolve, r, init)
      + if last.Handling? then [AttemptOf(resolve, r, RunEvents(resolve, r, init), last.visit)] else []
  }

  lemma HandleHit(resolve: Resolver, r: Repository, s: State<Props>, v: Visit)
    requires Hit(resolve, r, s, v)
    ensures Handle(resolve, r, s, v).docs == s.docs
  {
    FindOnlyReads(r, s, LookupOf(Target(resolve, v.msg).value), v.cacheUp, v.fillAccepted);
  }

  lemma HandleMiss(resolve: Resolver, r: Repository, s: State<Props>, v: Visit, id: Id)
    requires Target(resolve, v.msg) == Some(id) && !Hit(resolve, r, s, v)
    ensures
      Handle(resolve, r, s, v).docs
      == if v.fault == BeforeSave then s.docs
         else s.docs[id := Doc(id, MergedProps(Stored(Contents(s), id), v.msg, s.now))]
  {
    FindOnlyReads(r, s, LookupOf(id), v.cacheUp, v.fillAccepted);
    assert ContentOf(StoredDoc(s, id)) == Stored(Contents(s), id);
  }

  lemma {:induction false} HandleMerges(resolve: Resolver, r: Repository, s: State<Props>, v: Visit)
    ensures Contents(Handle(resolve, r, s, v)) == Merge(resolve, Contents(s), AttemptOf(resolve, r, s, v))
  {
    if Hit(resolve, r, s, v) {
      HandleHit(resolve, r, s, v);
    } else if Target(resolve, v.msg).Some? {
      HandleMiss(resolve, r, s, v, Target(resolve, v.msg).value);
    }
  }

  lemma ReadingKeepsDocs(r: Repository, s: State<Props>, step: Reading)
    ensures Apply(r, s, step).docs == s.docs
  {
  }

  /**
   * The cache never makes a merge go wrong. Whatever lookups, lost or late fills and cache outages surround the
   * messages, and however close together these are, the collection is the one that a repository without a cache
   * would hold after the same attempts, those that hit the cache having failed before their save.
   */
  lemma {:induction false} CachedIsUncached(resolve: Resolver, r: Repository, events: seq<Event>)
    ensures Contents(RunEvents(resolve, r, events)) == MergeAll(resolve, map[], Attempts(resolve, r, events))
  {
    if events != [] {
      var init, last := events[..|events| - 1], events[|events| - 1];
      CachedIsUncached(resolve, r, init);
      var before, attempts := RunEvents(resolve, r, init), Attempts(resolve, r, events);
      match last
      case Handling(v) =>
        HandleMerges(resolve, r, before, v);
        assert attempts[..|attempts| - 1] == Attempts(resolve, r, init);
      case Other(step) =>
        assert attempts == Attempts(resolve, r, init);
        ReadingKeepsDocs(r, before, step);
    }
  }

  /** Nothing that was saved is lost: a wallet holds exactly the tags and relations of the messages saved for it. */
  lemma {:induction false} CachedKeepsSaved(resolve: Resolver, r: Repository, events: seq<Event>, id: Id)
    ensures
      Extended(map[], Contents(RunEvents(resolve, r, events)), id, Saved(resolve, Attempts(resolve, r, events), id))
  {
    CachedIsUncached(resolve, r, events);
    AttemptsExtend(resolve, map[], Attempts(resolve, r, events), id);
  }

  /** Convergence through the cache: the same messages saved give the same tags and relations. */
  lemma {:induction false} CachedConvergence(
    resolve: Resolver, r: Repository, some: seq<Event>, other: seq<Event>, id: Id)
    requires Saved(resolve, Attempts(resolve, r, some), id) == Saved(resolve, Attempts(resolve, r, other), id)
    ensures
      var a, b := Contents(RunEvents(resolve, r, some)), Contents(RunEvents(resolve, r, other));
      && (id in a <==> id in b)
      && TagNames(TagsOf(a, id)) == TagNames(TagsOf(b, id))
      && RelationKeys(RelationsOf(a, id)) == RelationKeys(RelationsOf(b, id))
  {
    CachedIsUncached(resolve, r, some);
    CachedIsUncached(resolve, r, other);
    Convergence(resolve, map[], Attempts(resolve, r, some), Attempts(resolve, r, other), id);
  }

  /** A message that missed the cache leaves there the wallet as it was before. */
  lemma LeavesOldEntry(resolve: Resolver, r: Repository, s: State<Props>, v: Visit, id: Id)
    requires Target(resolve, v.msg) == Some(id) && IdOk(id)
    requires id in s.docs && !Hit(resolve, r, s, v) && v.fillAccepted
    ensures
      var after := Handle(resolve, r, s, v);
      var key := LookupKey(r, LookupOf(id));
      && after.now == s.now && after.fills == s.fills
      && key in after.cache && after.cache[key] == Entry(s.docs[id], s.now, s.now + DEFAULT_TTL_SECS)
  {
    FindFills(r, s, LookupOf(id), v.cacheUp);
    SaveKeyApart(r.collection, v.values, LookupOf(id));
    var key := LookupKey(r, LookupOf(id));
    var read := FindAndFill(r, s, LookupOf(id), v.cacheUp, v.fillAccepted);
    assert key in read.cache && read.cache[key] == Entry(s.docs[id], s.now, s.now + DEFAULT_TTL_SECS);
    var merged := Doc(id, MergedProps(ContentOf(StoredDoc(s, id)), v.msg, s.now));
    assert CacheKey(r.collection, v.values) != key;
    var saved := Apply(r, read, Save(merged, FromCollection, v.values, v.keyAccepted));
    assert key in saved.cache && saved.cache[key] == read.cache[key];
    assert Handle(resolve, r, s, v) == if v.fault == BeforeSave then read else saved;
  }

  lemma HitWhileLive(resolve: Resolver, r: Repository, s: State<Props>, v: Visit, id: Id, elapsed: nat)
    requires Target(resolve, v.msg) == Some(id) && v.cacheUp && LookupKey(r, LookupOf(id)) in s.cache
    requires MayPass(r, s, elapsed)
    ensures
      var later := Apply(r, s, Tick(elapsed));
      && later.now == s.now + elapsed
      && (Hit(resolve, r, later, v) <==> s.now + elapsed < s.cache[LookupKey(r, LookupOf(id))].expiresAt)
  {
  }

  /** Alias and type through the cache: those of the last saved message that has one, or else is the last. */
  lemma CachedAliasAndType(resolve: Resolver, r: Repository, events: seq<Event>, id: Id, named: nat, last: nat)
    ensures
      var attempts := Attempts(resolve, r, events);
      LastNamed(resolve, attempts, id, named) ==>
        AliasOf(Contents(RunEvents(resolve, r, events)), id) == attempts[named].msg.alias
    ensures
      var attempts := Attempts(resolve, r, events);
      (forall i :: 0 <= i < |attempts| && Applies(resolve, attempts[i], id) ==> attempts[i].msg.alias.None?) ==>
        AliasOf(Contents(RunEvents(resolve, r, events)), id) == None
    ensures
      var attempts := Attempts(resolve, r, events);
      LastSaved(resolve, attempts, id, last) ==>
        TypeOf(Contents(RunEvents(resolve, r, events)), id) == Some(TypeAsked(attempts[last]))
  {
    var attempts := Attempts(resolve, r, events);
    CachedIsUncached(resolve, r, events);
    if LastNamed(resolve, attempts, id, named) {
      LastAliasWins(resolve, map[], attempts, id, named);
    }
    if forall i :: 0 <= i < |attempts| && Applies(resolve, attempts[i], id) ==> attempts[i].msg.alias.None? {
      AliasStays(resolve, map[], attempts, id);
    }
    if LastSaved(resolve, attempts, id, last) {
      LastTypeWins(resolve, map[], attempts, id, last);
    }
  }

  /** Lookups that name the chain first, as SaveTxOfInterest makes them, never have a message refused. */
  lemma OtherOrderFillsApart(r: Repository, s: State<Props>, id: Id, cacheUp: bool, fillAccepted: bool, asked: Id)
    requires IdOk(id) && IdOk(asked)
    ensures
      var t := FindAndFill(r, s, Lookup(asked, false), cacheUp, fillAccepted);
      forall up :: CachedDoc(r, t, LookupOf(id), up) == CachedDoc(r, s, LookupOf(id), up)
  {
    if LookupKey(r, Lookup(asked, false)) == LookupKey(r, LookupOf(id)) {
      LookupKeysIdentify(r.collection, Lookup(asked, false), LookupOf(id));
      OrdersApart(r.collection, id);
    }
  }

  /**
   * The price is delay. A message that has read a stored wallet past the cache, whether or not its own save then
   * succeeds, leaves it in the cache: `elapsed` seconds later the next message for that wallet is merged exactly
   * when that is a TTL or more, and refused before.
   */
  lemma {:induction false} RefusedUntilExpiry(
    resolve: Resolver, r: Repository, s: State<Props>, first: Visit, next: Visit, id: Id, elapsed: nat)
    requires Target(resolve, first.msg) == Target(resolve, next.msg) == Some(id) && IdOk(id)
    requires id in s.docs && !Hit(resolve, r, s, first) && first.fillAccepted
    requires next.cacheUp && MayPass(r, s, elapsed)
    ensures
      var before := Apply(r, Handle(resolve, r, s, first), Tick(elapsed));
      && before.now == s.now + elapsed
      && (Hit(resolve, r, before, next) <==> elapsed < DEFAULT_TTL_SECS)
      && Contents(Handle(resolve, r, before, next))
         == Merge(resolve, Contents(before),
                  Attempt(next.msg, before.now, if elapsed < DEFAULT_TTL_SECS then BeforeSave else next.fault))
  {
    LeavesOldEntry(resolve, r, s, first, id);
    var after := Handle(resolve, r, s, first);
    HitWhileLive(resolve, r, after, next, id, elapsed);
    HandleMerges(resolve, r, Apply(r, after, Tick(elapsed)), next);
  }
}
