/**
 * Wallet merging: src/App/Entities/Wallet.ts and the merge of src/App/UseCases/Wallets/SaveWallet.ts, over a
 * repository that is read and written by one message at a time and always answers with what it holds. Messages
 * arrive at least once and in any order.
 */
module Wallets {
  import opened Options
  import opened Ids

  datatype WalletType = ExchangeWallet | UnknownWallet | Whale
  datatype RelationType = TransferSent | TransferReceived

  datatype Tag = Tag(name: string, createdAt: int)
  datatype Relation = Relation(address: string, kind: RelationType, txHash: Option<string>, createdAt: int)

  datatype NewTag = NewTag(name: string, createdAt: Option<int>)
  datatype NewRelation =
    NewRelation(address: string, kind: RelationType, txHash: Option<string>, createdAt: Option<int>)

  datatype Props = Props(alias: Option<string>, kind: WalletType, tags: seq<Tag>, relations: seq<Relation>)

  predicate HasTag(tags: seq<Tag>, name: string) {
    exists i :: 0 <= i < |tags| && tags[i].name == name
  }

  predicate HasRelation(relations: seq<Relation>, address: string, kind: RelationType) {
    exists i :: 0 <= i < |relations| && relations[i].address == address && relations[i].kind == kind
  }

  function WithTag(tags: seq<Tag>, t: NewTag, now: int): seq<Tag> {
    if HasTag(tags, t.name) then tags else tags + [Tag(t.name, t.createdAt.GetOr(now))]
  }

  function WithRelation(relations: seq<Relation>, r: NewRelation, now: int): seq<Relation> {
    if HasRelation(relations, r.address, r.kind) then relations
    else relations + [Relation(r.address, r.kind, r.txHash, r.createdAt.GetOr(now))]
  }

  function WithTags(tags: seq<Tag>, names: seq<string>, now: int): seq<Tag> {
    if names == [] then tags
    else WithTag(WithTags(tags, names[..|names| - 1], now), NewTag(names[|names| - 1], None), now)
  }

  function WithRelations(relations: seq<Relation>, rs: seq<NewRelation>, now: int): seq<Relation> {
    if rs == [] then relations
    else WithRelation(WithRelations(relations, rs[..|rs| - 1], now), rs[|rs| - 1], now)
  }

  /** A WalletDiscovered message; a missing type or alias is None. */
  datatype Message = Message(
    blockchain: string, address: string, kind: Option<WalletType>, alias: Option<string>,
    tags: seq<string>, relations: seq<NewRelation>)

  /** What goes wrong while a message is handled, if anything does. */
  datatype Fault = NoFault | BeforeSave | AfterSave

  datatype Attempt = Attempt(msg: Message, now: int, fault: Fault)

  /** The canonical address of a name or address, None if it does not resolve. */
  type Resolver = (string, string) -> Option<string>

  type Docs = map<Id, Props>

  function Target(resolve: Resolver, m: Message): Option<Id> {
    match resolve(m.blockchain, m.address)
    case Some(address) => Some(Id(m.blockchain, address))
    case None => None
  }

  function MergedProps(existing: Option<Props>, m: Message, now: int): Props {
    var before := existing.GetOr(Props(None, UnknownWallet, [], []));
    Props(
      if m.alias.Some? then m.alias else before.alias,
      m.kind.GetOr(UnknownWallet),
      WithTags(before.tags, m.tags, now),
      WithRelations(before.relations, m.relations, now))
  }

  function Stored(docs: Docs, id: Id): Option<Props> {
    if id in docs then Some(docs[id]) else None
  }

  /** The collection after one attempt at a message. */
  function Merge(resolve: Resolver, docs: Docs, a: Attempt): Docs {
    match Target(resolve, a.msg)
    case None => docs
    case Some(id) =>
      if a.fault == BeforeSave then docs else docs[id := MergedProps(Stored(docs, id), a.msg, a.now)]
  }

  function MergeAll(resolve: Resolver, docs: Docs, attempts: seq<Attempt>): Docs {
    if attempts == [] then docs
    else Merge(resolve, MergeAll(resolve, docs, attempts[..|attempts| - 1]), attempts[|attempts| - 1])
  }

  /* The classes. */

  class Wallet {
    const id: Id
    var alias: Option<string>
    var kind: WalletType
    var tags: seq<Tag>
    var relations: seq<Relation>

    constructor (id: Id, props: Props)
      ensures this.id == id && Raw() == props
    {
      this.id := id;
      alias, kind, tags, relations := props.alias, props.kind, props.tags, props.relations;
    }

    function Raw(): Props
      reads this
    {
      Props(alias, kind, tags, relations)
    }

    method AddRelation(newRel: NewRelation, now: int)
      modifies this`relations
      ensures relations == WithRelation(old(relations), newRel, now)
      ensures
        var had := old(relations);
        if (exists i :: 0 <= i < |had| && had[i].address == newRel.address && had[i].kind == newRel.kind)
        then relations == had
        else
          var created := match newRel.createdAt case Some(t) => t case None => now;
          relations == old(relations) + [Relation(newRel.address, newRel.kind, newRel.txHash, created)]
    {
      if HasRelation(relations, newRel.address, newRel.kind) {
        return;
      }
      relations := relations + [Relation(newRel.address, newRel.kind, newRel.txHash, newRel.createdAt.GetOr(now))];
    }

    method SetType(kind: WalletType)
      modifies this`kind
      ensures this.kind == kind
    {
      this.kind := kind;
    }

    method SetAlias(alias: string)
      modifies this`alias
      ensures this.alias == Some(alias)
    {
      this.alias := Some(alias);
    }

    method AddTag(newTag: NewTag, now: int)
      modifies this`tags
      ensures tags == WithTag(old(tags), newTag, now)
      ensures
        if (exists i :: 0 <= i < |old(tags)| && old(tags)[i].name == newTag.name) then tags == old(tags)
        else
          var created := match newTag.createdAt case Some(t) => t case None => now;
          tags == old(tags) + [Tag(newTag.name, created)]
    {
      if HasTag(tags, newTag.name) {
        return;
      }
      tags := tags + [Tag(newTag.name, newTag.createdAt.GetOr(now))];
    }

    method AddTags(names: seq<string>, now: int)
      modifies this`tags
      ensures tags == WithTags(old(tags), names, now)
    {
      for i := 0 to |names|
        invariant tags == WithTags(old(tags), names[..i], now)
      {
        assert names[..i + 1][..i] == names[..i];
        AddTag(NewTag(names[i], None), now);
      }
      assert names[..|names|] == names;
    }

    method AddRelations(rs: seq<NewRelation>, now: int)
      modifies this`relations
      ensures relations == WithRelations(old(relations), rs, now)
    {
      for i := 0 to |rs|
        invariant relations == WithRelations(old(relations), rs[..i], now)
      {
        assert rs[..i + 1][..i] == rs[..i];
        AddRelation(rs[i], now);
      }
      assert rs[..|rs|] == rs;
    }
  }

  /* Convergence. */

  function TagNames(tags: seq<Tag>): set<string> {
    set i | 0 <= i < |tags| :: tags[i].name
  }

  function RelationKeys(relations: seq<Relation>): set<(string, RelationType)> {
    set i | 0 <= i < |relations| :: (relations[i].address, relations[i].kind)
  }

  function NewKeys(rs: seq<NewRelation>): set<(string, RelationType)> {
    set i | 0 <= i < |rs| :: (rs[i].address, rs[i].kind)
  }

  function Names(names: seq<string>): set<string> {
    set i | 0 <= i < |names| :: names[i]
  }

  predicate UniqueTags(tags: seq<Tag>) {
    forall i, j :: 0 <= i < j < |tags| ==> tags[i].name != tags[j].name
  }

  predicate UniqueRelations(relations: seq<Relation>) {
    forall i, j :: 0 <= i < j < |relations| ==>
      (relations[i].address, relations[i].kind) != (relations[j].address, relations[j].kind)
  }

  lemma {:induction false} TagsMerged(tags: seq<Tag>, names: seq<string>, now: int)
    ensures TagNames(WithTags(tags, names, now)) == TagNames(tags) + Names(names)
    ensures tags <= WithTags(tags, names, now)
    ensures UniqueTags(tags) ==> UniqueTags(WithTags(tags, names, now))
  {
    if names != [] {
      var init, last := names[..|names| - 1], names[|names| - 1];
      TagsMerged(tags, init, now);
      var before, after := WithTags(tags, init, now), WithTags(tags, names, now);
      assert Names(names) == Names(init) + {last};
      assert TagNames(after) == TagNames(before) + {last} by {
        if HasTag(before, last) {
          assert last in TagNames(before);
        } else {
          assert after[..|before|] == before && after[|before|].name == last;
          forall n | n in TagNames(before)
            ensures n in TagNames(after)
          {
            var i :| 0 <= i < |before| && before[i].name == n;
            assert after[i].name == n;
          }
        }
      }
    }
  }

  lemma {:induction false} RelationsMerged(relations: seq<Relation>, rs: seq<NewRelation>, now: int)
    ensures RelationKeys(WithRelations(relations, rs, now)) == RelationKeys(relations) + NewKeys(rs)
    ensures relations <= WithRelations(relations, rs, now)
    ensures UniqueRelations(relations) ==> UniqueRelations(WithRelations(relations, rs, now))
  {
    if rs != [] {
      var init, last := rs[..|rs| - 1], rs[|rs| - 1];
      var key := (last.address, last.kind);
      RelationsMerged(relations, init, now);
      var before, after := WithRelations(relations, init, now), WithRelations(relations, rs, now);
      assert NewKeys(rs) == NewKeys(init) + {key};
      assert RelationKeys(after) == RelationKeys(before) + {key} by {
        if HasRelation(before, last.address, last.kind) {
          assert key in RelationKeys(before);
        } else {
          assert after[..|before|] == before && after[|before|].address == last.address;
          forall k | k in RelationKeys(before)
            ensures k in RelationKeys(after)
          {
            var i :| 0 <= i < |before| && (before[i].address, before[i].kind) == k;
            assert (after[i].address, after[i].kind) == k;
          }
        }
      }
    }
  }

  /** The attempt saved its message's merge into wallet `id`. */
  predicate Applies(resolve: Resolver, a: Attempt, id: Id) {
    Target(resolve, a.msg) == Some(id) && a.fault != BeforeSave
  }

  /** The messages whose merge into wallet `id` was saved, however often and in whatever order. */
  function Saved(resolve: Resolver, attempts: seq<Attempt>, id: Id): set<Message> {
    set i | 0 <= i < |attempts| && Applies(resolve, attempts[i], id) :: attempts[i].msg
  }

  function AllNames(ms: set<Message>): set<string> {
    set m, n | m in ms && n in Names(m.tags) :: n
  }

  function AllKeys(ms: set<Message>): set<(string, RelationType)> {
    set m, k | m in ms && k in NewKeys(m.relations) :: k
  }

  function TagsOf(docs: Docs, id: Id): seq<Tag> {
    if id in docs then docs[id].tags else []
  }

  function RelationsOf(docs: Docs, id: Id): seq<Relation> {
    if id in docs then docs[id].relations else []
  }

  /** `after` is `before` with wallet `id` extended by the tags and relations of `saved` and no others. */
  ghost predicate Extended(before: Docs, after: Docs, id: Id, saved: set<Message>) {
    && (id in after <==> id in before || saved != {})
    && TagNames(TagsOf(after, id)) == TagNames(TagsOf(before, id)) + AllNames(saved)
    && RelationKeys(RelationsOf(after, id)) == RelationKeys(RelationsOf(before, id)) + AllKeys(saved)
    && TagsOf(before, id) <= TagsOf(after, id) && RelationsOf(before, id) <= RelationsOf(after, id)
    && (UniqueTags(TagsOf(before, id)) ==> UniqueTags(TagsOf(after, id)))
    && (UniqueRelations(RelationsOf(before, id)) ==> UniqueRelations(RelationsOf(after, id)))
  }

  lemma MergeExtends(resolve: Resolver, docs: Docs, a: Attempt, id: Id)
    ensures Extended(docs, Merge(resolve, docs, a), id, if Applies(resolve, a, id) then {a.msg} else {})
  {
    if Applies(resolve, a, id) {
      TagsMerged(TagsOf(docs, id), a.msg.tags, a.now);
      RelationsMerged(RelationsOf(docs, id), a.msg.relations, a.now);
      assert AllNames({a.msg}) == Names(a.msg.tags);
      assert AllKeys({a.msg}) == NewKeys(a.msg.relations);
    } else {
      assert AllNames({}) == {} && AllKeys({}) == {};
    }
  }

  lemma AllOfUnion(s: set<Message>, t: set<Message>)
    ensures AllNames(s + t) == AllNames(s) + AllNames(t)
    ensures AllKeys(s + t) == AllKeys(s) + AllKeys(t)
  {
  }

  lemma ExtendedTwice(a: Docs, b: Docs, c: Docs, id: Id, s: set<Message>, t: set<Message>)
    requires Extended(a, b, id, s) && Extended(b, c, id, t)
    ensures Extended(a, c, id, s + t)
  {
    AllOfUnion(s, t);
  }

  lemma {:induction false} SavedGrows(resolve: Resolver, attempts: seq<Attempt>, id: Id)
    requires attempts != []
    ensures
      var last := attempts[|attempts| - 1];
      Saved(resolve, attempts, id)
      == Saved(resolve, attempts[..|attempts| - 1], id) + if Applies(resolve, last, id) then {last.msg} else {}
  {
  }

  /**
   * What a wallet holds after any attempts: it exists if it did or if a message for it was saved, its tag names
   * and relation keys are those it had together with those of all saved messages, keys stay unique, and what it
   * had stays in front.
   */
  lemma {:induction false} AttemptsExtend(resolve: Resolver, docs: Docs, attempts: seq<Attempt>, id: Id)
    ensures Extended(docs, MergeAll(resolve, docs, attempts), id, Saved(resolve, attempts, id))
  {
    if attempts == [] {
      assert Saved(resolve, attempts, id) == {} && AllNames({}) == {} && AllKeys({}) == {};
    } else {
      var init, last := attempts[..|attempts| - 1], attempts[|attempts| - 1];
      var before := MergeAll(resolve, docs, init);
      AttemptsExtend(resolve, docs, init, id);
      MergeExtends(resolve, before, last, id);
      SavedGrows(resolve, attempts, id);
      ExtendedTwice(docs, before, Merge(resolve, before, last), id, Saved(resolve, init, id),
                    if Applies(resolve, last, id) then {last.msg} else {});
    }
  }

  /**
   * Convergence: two histories that saved the same messages for a wallet, in any order, with any duplication and
   * any failed attempts in between, leave it with the same tags and the same relations.
   */
  lemma {:induction false} Convergence(resolve: Resolver, docs: Docs, some: seq<Attempt>, other: seq<Attempt>, id: Id)
    requires Saved(resolve, some, id) == Saved(resolve, other, id)
    ensures
      var a, b := MergeAll(resolve, docs, some), MergeAll(resolve, docs, other);
      && (id in a <==> id in b)
      && TagNames(TagsOf(a, id)) == TagNames(TagsOf(b, id))
      && RelationKeys(RelationsOf(a, id)) == RelationKeys(RelationsOf(b, id))
  {
    AttemptsExtend(resolve, docs, some, id);
    AttemptsExtend(resolve, docs, other, id);
  }

  function AliasOf(docs: Docs, id: Id): Option<string> {
    if id in docs then docs[id].alias else None
  }

  /** The last attempt that saved a message with an alias for the wallet. */
  ghost predicate LastNamed(resolve: Resolver, attempts: seq<Attempt>, id: Id, i: nat) {
    && i < |attempts| && Applies(resolve, attempts[i], id) && attempts[i].msg.alias.Some?
    && forall j :: i < j < |attempts| && Applies(resolve, attempts[j], id) ==> attempts[j].msg.alias.None?
  }

  /** The alias is that of the last saved message that has one. */
  lemma {:induction false} LastAliasWins(
    resolve: Resolver, docs: Docs, attempts: seq<Attempt>, id: Id, i: nat)
    requires LastNamed(resolve, attempts, id, i)
    ensures AliasOf(MergeAll(resolve, docs, attempts), id) == attempts[i].msg.alias
  {
    var init, last := attempts[..|attempts| - 1], attempts[|attempts| - 1];
    if i < |init| {
      forall j | i < j < |init| && Applies(resolve, init[j], id)
        ensures init[j].msg.alias.None?
      {
        assert init[j] == attempts[j];
      }
      LastAliasWins(resolve, docs, init, id, i);
    }
  }

  /** Without such a message it is the alias that the wallet had. */
  lemma {:induction false} AliasStays(resolve: Resolver, docs: Docs, attempts: seq<Attempt>, id: Id)
    requires forall i :: 0 <= i < |attempts| && Applies(resolve, attempts[i], id) ==> attempts[i].msg.alias.None?
    ensures AliasOf(MergeAll(resolve, docs, attempts), id) == AliasOf(docs, id)
  {
    if attempts != [] {
      var init := attempts[..|attempts| - 1];
      forall i | 0 <= i < |init| && Applies(resolve, init[i], id)
        ensures init[i].msg.alias.None?
      {
        assert init[i] == attempts[i];
      }
      AliasStays(resolve, docs, init, id);
    }
  }

  /** What is added for a name is that name, with the time of the merge. */
  lemma {:induction false} NewTagsAre(tags: seq<Tag>, names: seq<string>, now: int, k: nat)
    requires |tags| <= k < |WithTags(tags, names, now)|
    ensures
      var t := WithTags(tags, names, now)[k];
      t.name in names && t.createdAt == now && !HasTag(tags, t.name)
  {
    var init, last := names[..|names| - 1], names[|names| - 1];
    TagsMerged(tags, init, now);
    var before := WithTags(tags, init, now);
    if k < |before| {
      NewTagsAre(tags, init, now, k);
    } else {
      forall i | 0 <= i < |tags|
        ensures tags[i].name != last
      {
        assert before[i] == tags[i];
      }
    }
  }

  /** The relation that a message gives for a key: the first of its kind, with its own time if it has one. */
  predicate GivenBy(rs: seq<NewRelation>, now: int, r: Relation, i: nat) {
    && i < |rs| && rs[i].address == r.address && rs[i].kind == r.kind && rs[i].txHash == r.txHash
    && (match rs[i].createdAt
        case Some(t) => r.createdAt == t
        case None => r.createdAt == now)
    && forall j :: 0 <= j < i ==> (rs[j].address, rs[j].kind) != (r.address, r.kind)
  }

  lemma {:induction false} NewRelationsAre(relations: seq<Relation>, rs: seq<NewRelation>, now: int, k: nat)
    returns (i: nat)
    requires |relations| <= k < |WithRelations(relations, rs, now)|
    ensures GivenBy(rs, now, WithRelations(relations, rs, now)[k], i)
    ensures
      var r := WithRelations(relations, rs, now)[k];
      !HasRelation(relations, r.address, r.kind)
  {
    var init, last := rs[..|rs| - 1], rs[|rs| - 1];
    RelationsMerged(relations, init, now);
    var before := WithRelations(relations, init, now);
    if k < |before| {
      i := NewRelationsAre(relations, init, now, k);
    } else {
      i := |rs| - 1;
      forall j | 0 <= j < i
        ensures (rs[j].address, rs[j].kind) != (last.address, last.kind)
      {
        assert (init[j].address, init[j].kind) in NewKeys(init);
        assert (init[j].address, init[j].kind) in RelationKeys(before);
      }
      forall j | 0 <= j < |relations|
        ensures (relations[j].address, relations[j].kind) != (last.address, last.kind)
      {
        assert before[j] == relations[j];
      }
    }
  }

  /** Messages are about one wallet exactly if they are for one chain and their names resolve alike. */
  lemma SameWalletIff(resolve: Resolver, a: Message, b: Message)
    requires Target(resolve, a).Some?
    ensures Target(resolve, a) == Target(resolve, b)
       <==> a.blockchain == b.blockchain && resolve(a.blockchain, a.address) == resolve(b.blockchain, b.address)
    ensures Target(resolve, a).value.blockchain == a.blockchain
    ensures resolve(a.blockchain, a.address) == Some(Target(resolve, a).value.address)
  {
  }

  /** The type that an attempt sets. */
  function TypeAsked(a: Attempt): WalletType {
    a.msg.kind.GetOr(UnknownWallet)
  }

  /** The last attempt that saved a message for the wallet. */
  ghost predicate LastSaved(resolve: Resolver, attempts: seq<Attempt>, id: Id, i: nat) {
    && i < |attempts| && Applies(resolve, attempts[i], id)
    && forall j :: i < j < |attempts| ==> !Applies(resolve, attempts[j], id)
  }

  /** The type is not merged: the last saved message decides it, and one without a type resets it. */
  lemma {:induction false} LastTypeWins(
    resolve: Resolver, docs: Docs, attempts: seq<Attempt>, id: Id, i: nat)
    requires LastSaved(resolve, attempts, id, i)
    ensures id in MergeAll(resolve, docs, attempts)
    ensures MergeAll(resolve, docs, attempts)[id].kind == TypeAsked(attempts[i])
  {
    var init, last := attempts[..|attempts| - 1], attempts[|attempts| - 1];
    if i < |init| {
      assert !Applies(resolve, last, id);
      forall j | i < j < |init|
        ensures !Applies(resolve, init[j], id)
      {
        assert init[j] == attempts[j];
      }
      LastTypeWins(resolve, docs, init, id, i);
    }
  }

  function TypeOf(docs: Docs, id: Id): Option<WalletType> {
    if id in docs then Some(docs[id].kind) else None
  }

  lemma {:induction false} LastSavedExists(resolve: Resolver, attempts: seq<Attempt>, id: Id)
    returns (i: nat)
    requires Saved(resolve, attempts, id) != {}
    ensures LastSaved(resolve, attempts, id, i)
  {
    if Applies(resolve, attempts[|attempts| - 1], id) {
      i := |attempts| - 1;
    } else {
      SavedGrows(resolve, attempts, id);
      i := LastSavedExists(resolve, attempts[..|attempts| - 1], id);
    }
  }

  lemma {:induction false} RedeliveryDecides(
    resolve: Resolver, docs: Docs, attempts: seq<Attempt>, again: Attempt, id: Id)
    requires Applies(resolve, again, id)
    ensures TypeOf(MergeAll(resolve, docs, attempts + [again]), id) == Some(TypeAsked(again))
  {
    assert LastSaved(resolve, attempts + [again], id, |attempts|);
    LastTypeWins(resolve, docs, attempts + [again], id, |attempts|);
  }

  /**
   * So the type is stable under redelivery exactly when all saved messages agree on it: any of them becomes the
   * last one by being delivered again.
   */
  lemma {:induction false} TypeStableIff(resolve: Resolver, docs: Docs, attempts: seq<Attempt>, id: Id)
    requires Saved(resolve, attempts, id) != {}
    ensures
      (forall i, j ::
        0 <= i < j < |attempts| && Applies(resolve, attempts[i], id) && Applies(resolve, attempts[j], id) ==>
        TypeAsked(attempts[i]) == TypeAsked(attempts[j]))
      <==>
      (forall i :: 0 <= i < |attempts| && Applies(resolve, attempts[i], id) ==>
        TypeOf(MergeAll(resolve, docs, attempts + [attempts[i]]), id) == TypeOf(MergeAll(resolve, docs, attempts), id))
  {
    var l := LastSavedExists(resolve, attempts, id);
    LastTypeWins(resolve, docs, attempts, id, l);
    forall i | 0 <= i < |attempts| && Applies(resolve, attempts[i], id)
      ensures TypeOf(MergeAll(resolve, docs, attempts + [attempts[i]]), id) == Some(TypeAsked(attempts[i]))
    {
      RedeliveryDecides(resolve, docs, attempts, attempts[i], id);
    }
  }

  /** The failing input: a message with one type, then one with another, then the first one again. */
  lemma RedeliveryResetsType(resolve: Resolver, docs: Docs, first: Attempt, second: Attempt, id: Id)
    requires Applies(resolve, first, id) && Applies(resolve, second, id) && TypeAsked(first) != TypeAsked(second)
    ensures TypeOf(MergeAll(resolve, docs, [first, second]), id) == Some(TypeAsked(second))
    ensures TypeOf(MergeAll(resolve, docs, [first, second, first]), id) == Some(TypeAsked(first))
  {
    assert [first, second] == [first] + [second] && [first, second, first] == [first, second] + [first];
    RedeliveryDecides(resolve, docs, [first], second, id);
    RedeliveryDecides(resolve, docs, [first, second], first, id);
  }
}
