/**
 * The read-through cache of src/Infrastructure/Repository/CachedMongoBaseRepository.ts.
 *
 * `findOne` looks up a key built from the id and, on a miss, reads the collection and fills the cache; the fill
 * lands some time after the read. `save` writes the collection and a cache key built from all properties.
 */
module CachedRepository {
  import opened Options
  import opened Ids

  /** An id as a caller writes it: the order of its fields is the order of Object.values. */
  datatype Lookup = Lookup(id: Id, addressFirst: bool)

  /** A document; the database's own `_id` is left out of its content. */
  datatype Doc<P> = Doc(id: Id, content: P)

  /** The values of all properties of a saved item as they print: the two of its id, and its `_id`, at least. */
  type Printed = values: seq<string> | |values| >= 3 witness ["", "", ""]

  function Join(parts: seq<string>): string {
    if parts == [] then ""
    else if |parts| == 1 then parts[0]
    else parts[0] + "_" + Join(parts[1..])
  }

  function IdValues(l: Lookup): seq<string> {
    if l.addressFirst then [l.id.address, l.id.blockchain] else [l.id.blockchain, l.id.address]
  }

  function CacheKey(collection: string, values: seq<string>): string {
    "repo.cache." + collection + "." + Join(values)
  }

  predicate Plain(s: string) {
    forall i :: 0 <= i < |s| ==> s[i] != '_'
  }

  /** Chain names and hexadecimal addresses or hashes: no underscores, and a leading 0 only in the latter. */
  predicate IdOk(id: Id) {
    && Plain(id.blockchain) && Plain(id.address)
    && id.address != "" && id.address[0] == '0' && (id.blockchain == "" || id.blockchain[0] != '0')
  }

  function Underscores(s: string): nat {
    if s == "" then 0 else (if s[0] == '_' then 1 else 0) + Underscores(s[1..])
  }

  lemma {:induction false} UnderscoresConcat(a: string, b: string)
    ensures Underscores(a + b) == Underscores(a) + Underscores(b)
  {
    if a == "" {
      assert a + b == b;
    } else {
      assert (a + b)[1..] == a[1..] + b;
      UnderscoresConcat(a[1..], b);
    }
  }

  lemma {:induction false} PlainUnderscores(s: string)
    requires Plain(s)
    ensures Underscores(s) == 0
  {
    if s != "" {
      PlainUnderscores(s[1..]);
    }
  }

  lemma {:induction false} JoinUnderscores(parts: seq<string>)
    ensures Underscores(Join(parts)) >= |parts| - 1
    ensures (forall i :: 0 <= i < |parts| ==> Plain(parts[i])) && parts != []
        ==> Underscores(Join(parts)) == |parts| - 1
  {
    if |parts| == 1 {
      if Plain(parts[0]) {
        PlainUnderscores(parts[0]);
      }
    } else if parts != [] {
      JoinUnderscores(parts[1..]);
      UnderscoresConcat(parts[0] + "_", Join(parts[1..]));
      UnderscoresConcat(parts[0], "_");
      assert "_"[1..] == "";
      assert Underscores("_") == 1;
      if Plain(parts[0]) {
        PlainUnderscores(parts[0]);
      }
    }
  }

  lemma KeyInjective(collection: string, a: seq<string>, b: seq<string>)
    requires CacheKey(collection, a) == CacheKey(collection, b)
    ensures Join(a) == Join(b)
  {
    var p := "repo.cache." + collection + ".";
    assert (p + Join(a))[|p|..] == Join(a) && (p + Join(b))[|p|..] == Join(b);
  }

  /** A key written by `save` is never the key of a lookup. */
  lemma SaveKeyApart(collection: string, values: Printed, l: Lookup)
    requires IdOk(l.id)
    ensures CacheKey(collection, values) != CacheKey(collection, IdValues(l))
  {
    JoinUnderscores(values);
    JoinUnderscores(IdValues(l));
    if CacheKey(collection, values) == CacheKey(collection, IdValues(l)) {
      KeyInjective(collection, values, IdValues(l));
    }
  }

  lemma SplitAtUnderscore(a: string, b: string, c: string, d: string)
    requires Plain(a) && Plain(b) && Plain(c) && Plain(d)
    requires a + "_" + b == c + "_" + d
    ensures a == c && b == d
  {
    var s, t := a + "_" + b, c + "_" + d;
    assert s[|a|] == '_' && t[|c|] == '_';
    assert forall i :: 0 <= i < |c| ==> t[i] == c[i];
    assert forall i :: 0 <= i < |a| ==> s[i] == a[i];
    assert s[..|a|] == a && t[..|c|] == c;
    assert s[|a| + 1..] == b && t[|c| + 1..] == d;
  }

  /** Lookups with the same key are of the same id. */
  lemma LookupKeysIdentify(collection: string, l: Lookup, k: Lookup)
    requires IdOk(l.id) && IdOk(k.id)
    requires CacheKey(collection, IdValues(l)) == CacheKey(collection, IdValues(k))
    ensures l.id == k.id
  {
    var a, b := IdValues(l), IdValues(k);
    KeyInjective(collection, a, b);
    assert Join(a) == a[0] + "_" + a[1] && Join(b) == b[0] + "_" + b[1];
    SplitAtUnderscore(a[0], a[1], b[0], b[1]);
  }

  /* Runs. Times are in seconds. */

  const DEFAULT_TTL_SECS := 120

  /** `readAt`, the time the document was read from the collection, is history. */
  datatype Entry<P> = Entry(doc: Doc<P>, readAt: nat, expiresAt: nat)

  datatype Fill<P> = Fill(lookup: Lookup, doc: Doc<P>, readAt: nat)

  datatype Write<P> = Write(doc: Doc<P>, at: nat)

  /** An answer of findOne, whether it came from the cache, and how many writes came before it. */
  datatype Answer<P> = Answer(id: Id, result: Option<Doc<P>>, cached: bool, at: nat, writesBefore: nat)

  /**
   * Where the item handed to `save` comes from. What was read from the cache has been through JSON, which makes a
   * string of its `_id`; what was read from the collection has the `_id` as the database knows it.
   */
  datatype Origin = Created | FromCollection | FromCache

  datatype State<P> = State(
    now: nat, docs: map<Id, Doc<P>>, cache: map<string, Entry<P>>, fills: seq<Fill<P>>,
    writes: seq<Write<P>>, answers: seq<Answer<P>>)

  datatype Step<P> =
    | Find(lookup: Lookup, cacheUp: bool)
    | LandFill(k: nat, accepted: bool)
    | Save(doc: Doc<P>, origin: Origin, values: Printed, accepted: bool)
    | Tick(elapsed: nat)

  /** A repository: its collection's name, and how long a fill takes at most. */
  datatype Repository = Repository(collection: string, maxLatency: nat)

  function LookupKey(r: Repository, l: Lookup): string {
    CacheKey(r.collection, IdValues(l))
  }

  function CachedDoc<P>(r: Repository, s: State<P>, l: Lookup, cacheUp: bool): Option<Doc<P>> {
    var key := LookupKey(r, l);
    if cacheUp && key in s.cache && s.now < s.cache[key].expiresAt then Some(s.cache[key].doc) else None
  }

  function StoredDoc<P>(s: State<P>, id: Id): Option<Doc<P>> {
    if id in s.docs then Some(s.docs[id]) else None
  }

  function WithEntry<P>(s: State<P>, key: string, doc: Doc<P>, readAt: nat): State<P> {
    s.(cache := s.cache[key := Entry(doc, readAt, s.now + DEFAULT_TTL_SECS)])
  }

  function WithAnswer<P>(s: State<P>, id: Id, result: Option<Doc<P>>, cached: bool): State<P> {
    s.(answers := s.answers + [Answer(id, result, cached, s.now, |s.writes|)])
  }

  /** No fill would become later than it can be. */
  predicate MayPass<P>(r: Repository, s: State<P>, elapsed: nat) {
    forall i :: 0 <= i < |s.fills| ==> s.now + elapsed <= s.fills[i].readAt + r.maxLatency
  }

  /**
   * One step. The database refuses an update that would change the `_id` of a stored document, and a string is not
   * the `_id` it was made from: an item from the cache is never saved. `CachedIsStored` shows that there is a stored
   * document to refuse it for.
   */
  function Apply<P>(r: Repository, s: State<P>, step: Step<P>): State<P> {
    match step
    case Find(l, cacheUp) =>
      var cached := CachedDoc(r, s, l, cacheUp);
      if cached.Some? then WithAnswer(s, l.id, cached, true)
      else
        var stored := StoredDoc(s, l.id);
        var t := WithAnswer(s, l.id, stored, false);
        if stored.Some? then t.(fills := t.fills + [Fill(l, stored.value, t.now)]) else t
    case LandFill(k, accepted) =>
      if k < |s.fills| then
        var f := s.fills[k];
        var t := s.(fills := s.fills[..k] + s.fills[k + 1..]);
        if accepted then WithEntry(t, LookupKey(r, f.lookup), f.doc, f.readAt) else t
      else s
    case Save(doc, origin, values, accepted) =>
      if origin == FromCache then s
      else
        var t := s.(docs := s.docs[doc.id := doc], writes := s.writes + [Write(doc, s.now)]);
        if accepted then WithEntry(t, CacheKey(r.collection, values), doc, s.now) else t
    case Tick(elapsed) => if MayPass(r, s, elapsed) then s.(now := s.now + elapsed) else s
  }

  function Empty<P>(): State<P> {
    State(0, map[], map[], [], [], [])
  }

  function Run<P>(r: Repository, steps: seq<Step<P>>): State<P> {
    if steps == [] then Empty() else Apply(r, Run(r, steps[..|steps| - 1]), steps[|steps| - 1])
  }

  predicate LookupsOk<P>(steps: seq<Step<P>>) {
    forall i :: 0 <= i < |steps| ==> steps[i].Find? ==> IdOk(steps[i].lookup.id)
  }

  /** The collection held `doc` at time `at`: it was written by then and not replaced before. */
  ghost predicate HeldAt<P>(writes: seq<Write<P>>, doc: Doc<P>, at: nat) {
    exists k :: 0 <= k < |writes| && writes[k].doc == doc && writes[k].at <= at
             && forall j :: k < j < |writes| && writes[j].doc.id == doc.id ==> at <= writes[j].at
  }

  predicate Written<P>(writes: seq<Write<P>>, id: Id) {
    exists k :: 0 <= k < |writes| && writes[k].doc.id == id
  }

  ghost predicate EntryOk<P>(r: Repository, s: State<P>, l: Lookup, e: Entry<P>) {
    && e.doc.id == l.id && HeldAt(s.writes, e.doc, e.readAt) && e.readAt <= s.now
    && e.expiresAt <= e.readAt + r.maxLatency + DEFAULT_TTL_SECS
  }

  ghost predicate FillOk<P>(r: Repository, s: State<P>, f: Fill<P>) {
    && f.doc.id == f.lookup.id && IdOk(f.lookup.id) && HeldAt(s.writes, f.doc, f.readAt)
    && f.readAt <= s.now <= f.readAt + r.maxLatency
  }

  ghost predicate AnswerOk<P>(r: Repository, s: State<P>, a: Answer<P>) {
    && a.at <= s.now && a.writesBefore <= |s.writes|
    && (a.result.None? <==> !Written(s.writes[..a.writesBefore], a.id))
    && (a.result.Some? ==> a.result.value.id == a.id && Fresh(r, s.writes, a.result.value, a.at))
    && (a.result.Some? && !a.cached ==> HeldAt(s.writes, a.result.value, a.at))
  }

  /** `doc` was held less than a TTL and a fill's latency before `at`. */
  ghost predicate Fresh<P>(r: Repository, writes: seq<Write<P>>, doc: Doc<P>, at: nat) {
    exists t: nat :: t <= at < t + DEFAULT_TTL_SECS + r.maxLatency && HeldAt(writes, doc, t)
  }

  /** The last write of `id` wrote `doc`. */
  ghost predicate LastWritten<P>(writes: seq<Write<P>>, id: Id, doc: Doc<P>) {
    exists k :: 0 <= k < |writes| && writes[k].doc == doc && doc.id == id
             && forall j :: k < j < |writes| ==> writes[j].doc.id != id
  }

  ghost predicate StoreOk<P>(s: State<P>) {
    && (forall id :: id in s.docs <==> Written(s.writes, id))
    && (forall id :: id in s.docs ==> LastWritten(s.writes, id, s.docs[id]))
    && (forall k :: 0 <= k < |s.writes| ==> s.writes[k].at <= s.now)
  }

  ghost predicate CacheOk<P>(r: Repository, s: State<P>) {
    && (forall l: Lookup :: IdOk(l.id) && LookupKey(r, l) in s.cache ==> EntryOk(r, s, l, s.cache[LookupKey(r, l)]))
    && (forall i :: 0 <= i < |s.fills| ==> FillOk(r, s, s.fills[i]))
  }

  ghost predicate AnswersOk<P>(r: Repository, s: State<P>) {
    forall i :: 0 <= i < |s.answers| ==> AnswerOk(r, s, s.answers[i])
  }

  lemma HeldStays<P>(writes: seq<Write<P>>, doc: Doc<P>, at: nat, w: Write<P>)
    requires HeldAt(writes, doc, at) && at <= w.at
    ensures HeldAt(writes + [w], doc, at)
  {
    var k :| 0 <= k < |writes| && writes[k].doc == doc && writes[k].at <= at
          && forall j :: k < j < |writes| && writes[j].doc.id == doc.id ==> at <= writes[j].at;
    assert (writes + [w])[k].doc == doc;
  }

  lemma FreshStays<P>(r: Repository, writes: seq<Write<P>>, doc: Doc<P>, at: nat, w: Write<P>)
    requires Fresh(r, writes, doc, at) && at <= w.at
    ensures Fresh(r, writes + [w], doc, at)
  {
    var t: nat :| t <= at < t + DEFAULT_TTL_SECS + r.maxLatency && HeldAt(writes, doc, t);
    HeldStays(writes, doc, t, w);
  }

  lemma LastIsHeld<P>(s: State<P>, id: Id)
    requires StoreOk(s) && id in s.docs
    ensures s.docs[id].id == id && HeldAt(s.writes, s.docs[id], s.now)
  {
    var k :| 0 <= k < |s.writes| && s.writes[k].doc == s.docs[id] && s.docs[id].id == id
          && forall j :: k < j < |s.writes| ==> s.writes[j].doc.id != id;
  }

  lemma HeldIsWritten<P>(writes: seq<Write<P>>, doc: Doc<P>, at: nat)
    requires HeldAt(writes, doc, at)
    ensures Written(writes, doc.id)
  {
  }

  /** What findOne answers. */
  lemma AnswerIsOk<P>(r: Repository, s: State<P>, l: Lookup, cacheUp: bool)
    requires StoreOk(s) && CacheOk(r, s) && IdOk(l.id)
    ensures
      var cached := CachedDoc(r, s, l, cacheUp);
      AnswerOk(r, s, Answer(
        l.id, if cached.Some? then cached else StoredDoc(s, l.id), cached.Some?, s.now, |s.writes|))
  {
    assert s.writes[..|s.writes|] == s.writes;
    var cached := CachedDoc(r, s, l, cacheUp);
    if cached.Some? {
      var e := s.cache[LookupKey(r, l)];
      assert EntryOk(r, s, l, e);
      HeldIsWritten(s.writes, e.doc, e.readAt);
    } else if l.id in s.docs {
      LastIsHeld(s, l.id);
    }
  }

  lemma AnswersGrow<P>(r: Repository, s: State<P>, t: State<P>)
    requires AnswersOk(r, s) && s.now <= t.now && t.writes == s.writes
    requires t.answers == s.answers
      || (|t.answers| == |s.answers| + 1 && t.answers[..|s.answers|] == s.answers
          && AnswerOk(r, s, t.answers[|s.answers|]))
    ensures AnswersOk(r, t)
  {
    forall i | 0 <= i < |t.answers|
      ensures AnswerOk(r, t, t.answers[i])
    {
      if i < |s.answers| {
        assert t.answers[i] == s.answers[i] by {
          assert t.answers == s.answers || t.answers[..|s.answers|][i] == s.answers[i];
        }
        assert AnswerOk(r, s, s.answers[i]);
      }
    }
  }

  lemma FindKeeps<P>(r: Repository, s: State<P>, l: Lookup, cacheUp: bool)
    requires StoreOk(s) && CacheOk(r, s) && AnswersOk(r, s) && IdOk(l.id)
    ensures
      var t := Apply(r, s, Find(l, cacheUp));
      StoreOk(t) && CacheOk(r, t) && AnswersOk(r, t)
  {
    FindKeepsAnswers(r, s, l, cacheUp);
    FindKeepsCache(r, s, l, cacheUp);
  }

  lemma FindKeepsAnswers<P>(r: Repository, s: State<P>, l: Lookup, cacheUp: bool)
    requires StoreOk(s) && CacheOk(r, s) && AnswersOk(r, s) && IdOk(l.id)
    ensures AnswersOk(r, Apply(r, s, Find(l, cacheUp)))
  {
    AnswerIsOk(r, s, l, cacheUp);
    AnswersGrow(r, s, Apply(r, s, Find(l, cacheUp)));
  }

  lemma FindKeepsCache<P>(r: Repository, s: State<P>, l: Lookup, cacheUp: bool)
    requires StoreOk(s) && CacheOk(r, s) && IdOk(l.id)
    ensures CacheOk(r, Apply(r, s, Find(l, cacheUp)))
  {
    var t := Apply(r, s, Find(l, cacheUp));
    if l.id in s.docs {
      LastIsHeld(s, l.id);
    }
    forall k: Lookup | IdOk(k.id) && LookupKey(r, k) in t.cache
      ensures EntryOk(r, t, k, t.cache[LookupKey(r, k)])
    {
      assert EntryOk(r, s, k, s.cache[LookupKey(r, k)]);
    }
    forall i | 0 <= i < |t.fills|
      ensures FillOk(r, t, t.fills[i])
    {
      if i < |s.fills| {
        assert FillOk(r, s, s.fills[i]) && t.fills[i] == s.fills[i];
      }
    }
  }

  lemma LandFillKeeps<P>(r: Repository, s: State<P>, k: nat, accepted: bool)
    requires StoreOk(s) && CacheOk(r, s) && AnswersOk(r, s) && k < |s.fills|
    ensures
      var t := Apply(r, s, LandFill(k, accepted));
      StoreOk(t) && CacheOk(r, t) && AnswersOk(r, t)
  {
    var t := Apply(r, s, LandFill(k, accepted));
    AnswersGrow(r, s, t);
    var f := s.fills[k];
    assert FillOk(r, s, f);
    forall l: Lookup | IdOk(l.id) && LookupKey(r, l) in t.cache
      ensures EntryOk(r, t, l, t.cache[LookupKey(r, l)])
    {
      if accepted && LookupKey(r, l) == LookupKey(r, f.lookup) {
        LookupKeysIdentify(r.collection, l, f.lookup);
      } else {
        assert EntryOk(r, s, l, s.cache[LookupKey(r, l)]);
      }
    }
    forall i | 0 <= i < |t.fills|
      ensures FillOk(r, t, t.fills[i])
    {
      assert FillOk(r, s, s.fills[if i < k then i else i + 1]);
    }
  }

  lemma SaveKeepsStore<P>(r: Repository, s: State<P>, doc: Doc<P>, origin: Origin, values: Printed, accepted: bool)
    requires origin != FromCache && StoreOk(s)
    ensures StoreOk(Apply(r, s, Save(doc, origin, values, accepted)))
  {
    var t := Apply(r, s, Save(doc, origin, values, accepted));
    assert t.writes[|s.writes|].doc == doc;
    forall id | Written(t.writes, id) || id in t.docs
      ensures id in t.docs && Written(t.writes, id) && LastWritten(t.writes, id, t.docs[id])
    {
      if id != doc.id {
        if Written(t.writes, id) {
          var k :| 0 <= k < |t.writes| && t.writes[k].doc.id == id;
          assert s.writes[k].doc.id == id;
        }
        assert id in s.docs && LastWritten(s.writes, id, s.docs[id]);
        var k :| 0 <= k < |s.writes| && s.writes[k].doc == s.docs[id] && s.docs[id].id == id
              && forall j :: k < j < |s.writes| ==> s.writes[j].doc.id != id;
        assert t.writes[k].doc == t.docs[id];
      }
    }
  }

  lemma SaveKeepsCache<P>(r: Repository, s: State<P>, doc: Doc<P>, origin: Origin, values: Printed, accepted: bool)
    requires origin != FromCache && StoreOk(s) && CacheOk(r, s)
    ensures CacheOk(r, Apply(r, s, Save(doc, origin, values, accepted)))
  {
    var t := Apply(r, s, Save(doc, origin, values, accepted));
    var w := Write(doc, s.now);
    forall l: Lookup | IdOk(l.id) && LookupKey(r, l) in t.cache
      ensures EntryOk(r, t, l, t.cache[LookupKey(r, l)])
    {
      SaveKeyApart(r.collection, values, l);
      var e := s.cache[LookupKey(r, l)];
      assert EntryOk(r, s, l, e);
      HeldStays(s.writes, e.doc, e.readAt, w);
    }
    forall i | 0 <= i < |t.fills|
      ensures FillOk(r, t, t.fills[i])
    {
      assert FillOk(r, s, s.fills[i]);
      HeldStays(s.writes, s.fills[i].doc, s.fills[i].readAt, w);
    }
  }

  lemma SaveKeepsAnswers<P>(r: Repository, s: State<P>, doc: Doc<P>, origin: Origin, values: Printed, accepted: bool)
    requires origin != FromCache && AnswersOk(r, s)
    ensures AnswersOk(r, Apply(r, s, Save(doc, origin, values, accepted)))
  {
    var t := Apply(r, s, Save(doc, origin, values, accepted));
    forall i | 0 <= i < |t.answers|
      ensures AnswerOk(r, t, t.answers[i])
    {
      var a := s.answers[i];
      assert AnswerOk(r, s, a);
      assert t.writes[..a.writesBefore] == s.writes[..a.writesBefore];
      if a.result.Some? {
        FreshStays(r, s.writes, a.result.value, a.at, Write(doc, s.now));
        if !a.cached {
          HeldStays(s.writes, a.result.value, a.at, Write(doc, s.now));
        }
      }
    }
  }

  lemma TickKeeps<P>(r: Repository, s: State<P>, elapsed: nat)
    requires StoreOk(s) && CacheOk(r, s) && AnswersOk(r, s)
    ensures
      var t := Apply(r, s, Tick(elapsed));
      StoreOk(t) && CacheOk(r, t) && AnswersOk(r, t)
  {
    var t := Apply(r, s, Tick(elapsed));
    AnswersGrow(r, s, t);
    forall l: Lookup | IdOk(l.id) && LookupKey(r, l) in t.cache
      ensures EntryOk(r, t, l, t.cache[LookupKey(r, l)])
    {
      assert EntryOk(r, s, l, s.cache[LookupKey(r, l)]);
    }
    forall i | 0 <= i < |t.fills|
      ensures FillOk(r, t, t.fills[i])
    {
      assert FillOk(r, s, s.fills[i]);
    }
  }

  lemma {:induction false} RunKeeps<P>(r: Repository, steps: seq<Step<P>>)
    requires LookupsOk(steps)
    ensures StoreOk(Run(r, steps)) && CacheOk(r, Run(r, steps)) && AnswersOk(r, Run(r, steps))
  {
    if steps != [] {
      var before := steps[..|steps| - 1];
      RunKeeps(r, before);
      var s := Run(r, before);
      match steps[|steps| - 1]
      case Find(l, cacheUp) => FindKeeps(r, s, l, cacheUp);
      case LandFill(k, accepted) =>
        if k < |s.fills| {
          LandFillKeeps(r, s, k, accepted);
        }
      case Save(doc, origin, values, accepted) =>
        if origin != FromCache {
          SaveKeepsStore(r, s, doc, origin, values, accepted);
          SaveKeepsCache(r, s, doc, origin, values, accepted);
          SaveKeepsAnswers(r, s, doc, origin, values, accepted);
        }
      case Tick(elapsed) => TickKeeps(r, s, elapsed);
    }
  }

  /**
   * Bounded staleness: over every interleaving of reads, late or lost fills, saves and cache outages, a document
   * answered by findOne is one that the collection held for that id less than a TTL and a fill's latency
   * earlier, and at that very time if it did not come from the cache. And findOne answers undefined exactly for ids
   * never saved before.
   */
  lemma AnswersBoundedStale<P>(r: Repository, steps: seq<Step<P>>, i: nat)
    requires LookupsOk(steps) && i < |Run(r, steps).answers|
    ensures
      var s := Run(r, steps);
      var a := s.answers[i];
      && a.writesBefore <= |s.writes|
      && (a.result.None? <==> !Written(s.writes[..a.writesBefore], a.id))
      && (a.result.Some? ==> a.result.value.id == a.id)
      && (a.result.Some? ==> exists t: nat ::
            t <= a.at < t + DEFAULT_TTL_SECS + r.maxLatency && HeldAt(s.writes, a.result.value, t))
      && (a.result.Some? && !a.cached ==> HeldAt(s.writes, a.result.value, a.at))
  {
    RunKeeps(r, steps);
    assert AnswerOk(r, Run(r, steps), Run(r, steps).answers[i]);
  }

  /**
   * While the cache cannot be read, answers are current: they do not come from it, and are held by the collection at
   * the time they are given.
   */
  lemma {:induction false} OutageAnswersCurrent<P>(r: Repository, steps: seq<Step<P>>, l: Lookup)
    requires LookupsOk(steps) && IdOk(l.id)
    ensures
      var s, t := Run(r, steps), Run(r, steps + [Find(l, false)]);
      && t.answers[..|t.answers| - 1] == s.answers && |t.answers| == |s.answers| + 1
      && var a := t.answers[|s.answers|];
         && a.id == l.id && a.at == s.now && !a.cached
         && (a.result.None? <==> !Written(s.writes, l.id))
         && (a.result.Some? ==> a.result.value.id == l.id && HeldAt(s.writes, a.result.value, s.now))
  {
    var s := Run(r, steps);
    RunMore(r, steps, Find(l, false));
    RunKeeps(r, steps);
    AnswerIsOk(r, s, l, false);
    assert s.writes[..|s.writes|] == s.writes;
  }

  /** The keys of lookups. */
  lemma LookupKeysAre(r: Repository, id: Id)
    ensures LookupKey(r, Lookup(id, true)) == "repo.cache." + r.collection + "." + id.address + "_" + id.blockchain
    ensures LookupKey(r, Lookup(id, false)) == "repo.cache." + r.collection + "." + id.blockchain + "_" + id.address
  {
    assert Join([id.address, id.blockchain]) == id.address + "_" + id.blockchain;
    assert Join([id.blockchain, id.address]) == id.blockchain + "_" + id.address;
    var p := "repo.cache." + r.collection + ".";
    assert p + (id.address + "_" + id.blockchain) == p + id.address + "_" + id.blockchain;
    assert p + (id.blockchain + "_" + id.address) == p + id.blockchain + "_" + id.address;
  }

  /** The two orders in which an id can be written have keys of their own. */
  lemma OrdersApart(collection: string, id: Id)
    requires IdOk(id)
    ensures CacheKey(collection, IdValues(Lookup(id, true))) != CacheKey(collection, IdValues(Lookup(id, false)))
  {
    if CacheKey(collection, IdValues(Lookup(id, true))) == CacheKey(collection, IdValues(Lookup(id, false))) {
      KeyInjective(collection, [id.address, id.blockchain], [id.blockchain, id.address]);
      assert Join([id.address, id.blockchain]) == id.address + "_" + id.blockchain;
      assert Join([id.blockchain, id.address]) == id.blockchain + "_" + id.address;
      SplitAtUnderscore(id.address, id.blockchain, id.blockchain, id.address);
    }
  }

  /** Collections without a dot in their names do not share keys. */
  lemma CollectionsApart(c: string, d: string, v: seq<string>, w: seq<string>)
    requires '.' !in c && '.' !in d && CacheKey(c, v) == CacheKey(d, w)
    ensures c == d
  {
    var p := "repo.cache.";
    var x, y := c + ("." + Join(v)), d + ("." + Join(w));
    assert CacheKey(c, v) == p + x && CacheKey(d, w) == p + y;
    assert x == CacheKey(c, v)[|p|..] == CacheKey(d, w)[|p|..] == y;
    assert x[|c|] == '.' && y[|d|] == '.';
    assert forall i :: 0 <= i < |c| ==> x[i] == c[i];
    assert forall i :: 0 <= i < |d| ==> y[i] == d[i];
    assert |c| == |d|;
    assert x[..|c|] == c && y[..|d|] == d;
  }

  /** What is found in the cache is in the collection, so an item that came from the cache is an update. */
  lemma {:induction false} CachedIsStored<P>(r: Repository, steps: seq<Step<P>>, l: Lookup, cacheUp: bool)
    requires LookupsOk(steps) && IdOk(l.id) && CachedDoc(r, Run(r, steps), l, cacheUp).Some?
    ensures l.id in Run(r, steps).docs
  {
    RunKeeps(r, steps);
    var s := Run(r, steps);
    var e := s.cache[LookupKey(r, l)];
    assert EntryOk(r, s, l, e);
    HeldIsWritten(s.writes, e.doc, e.readAt);
  }

  lemma {:induction false} RunMore<P>(r: Repository, steps: seq<Step<P>>, step: Step<P>)
    ensures Run(r, steps + [step]) == Apply(r, Run(r, steps), step)
  {
    assert (steps + [step])[..|steps + [step]| - 1] == steps;
  }

  lemma SixSteps<P>(r: Repository, a: Step<P>, b: Step<P>, c: Step<P>, d: Step<P>, e: Step<P>, f: Step<P>)
    ensures Run(r, [a, b, c, d, e, f])
         == Apply(r, Apply(r, Apply(r, Apply(r, Apply(r, Apply(r, Empty(), a), b), c), d), e), f)
  {
    assert [] + [a] == [a] && [a] + [b] == [a, b] && [a, b] + [c] == [a, b, c];
    assert [a, b, c] + [d] == [a, b, c, d] && [a, b, c, d] + [e] == [a, b, c, d, e];
    assert [a, b, c, d, e] + [f] == [a, b, c, d, e, f];
    RunMore(r, [], a);
    RunMore(r, [a], b);
    RunMore(r, [a, b], c);
    RunMore(r, [a, b, c], d);
    RunMore(r, [a, b, c, d], e);
    RunMore(r, [a, b, c, d, e], f);
  }

  lemma FindOnlyReads<P>(r: Repository, s: State<P>, l: Lookup, cacheUp: bool, fillAccepted: bool)
    ensures FindAndFill(r, s, l, cacheUp, fillAccepted).docs == s.docs
    ensures FindAndFill(r, s, l, cacheUp, fillAccepted).now == s.now
  {
  }

  /** A missed lookup of a stored document whose fill lands leaves that document in the cache for a TTL. */
  lemma FindFills<P>(r: Repository, s: State<P>, l: Lookup, cacheUp: bool)
    requires CachedDoc(r, s, l, cacheUp).None? && l.id in s.docs
    ensures
      var t := FindAndFill(r, s, l, cacheUp, true);
      && t.docs == s.docs && t.fills == s.fills && t.now == s.now
      && t.cache == s.cache[LookupKey(r, l) := Entry(s.docs[l.id], s.now, s.now + DEFAULT_TTL_SECS)]
      && |t.answers| == |s.answers| + 1
  {
    var fills := s.fills + [Fill(l, s.docs[l.id], s.now)];
    assert fills[..|s.fills|] + fills[|s.fills| + 1..] == s.fills;
  }

  /** An update by way of a missed lookup leaves the old document in the cache and the new one in the collection. */
  lemma UpdateLeavesOld<P>(r: Repository, s: State<P>, l: Lookup, after: Doc<P>, w: Printed) returns (t: State<P>)
    requires IdOk(l.id) && after.id == l.id && l.id in s.docs && CachedDoc(r, s, l, true).None?
    ensures t == Apply(r, FindAndFill(r, s, l, true, true), Save(after, FromCollection, w, true))
    ensures t.now == s.now && t.fills == s.fills && |t.answers| == |s.answers| + 1
    ensures l.id in t.docs && t.docs[l.id] == after && LookupKey(r, l) in t.cache
    ensures t.cache[LookupKey(r, l)] == Entry(s.docs[l.id], s.now, s.now + DEFAULT_TTL_SECS)
  {
    FindFills(r, s, l, true);
    SaveKeyApart(r.collection, w, l);
    t := Apply(r, FindAndFill(r, s, l, true, true), Save(after, FromCollection, w, true));
  }

  lemma AnswerAfter<P>(r: Repository, s: State<P>, l: Lookup, elapsed: nat)
    requires l.id in s.docs && LookupKey(r, l) in s.cache && s.fills == []
    ensures
      var e := s.cache[LookupKey(r, l)];
      var t := Apply(r, Apply(r, s, Tick(elapsed)), Find(l, true));
      && |t.answers| == |s.answers| + 1
      && t.answers[|s.answers|].result == Some(if s.now + elapsed < e.expiresAt then e.doc else s.docs[l.id])
  {
  }

  /**
   * The TTL is really needed: an update that reads a document through a missed lookup and then replaces it leaves
   * the old one to be answered `elapsed` seconds later exactly while that is less than the TTL.
   */
  lemma StaleUntilExpiry<P>(
    r: Repository, l: Lookup, before: Doc<P>, after: Doc<P>, v: Printed, w: Printed, elapsed: nat)
    requires IdOk(l.id) && before.id == after.id == l.id
    ensures
      var steps := [Save(before, Created, v, false), Find(l, true), LandFill(0, true),
                    Save(after, FromCollection, w, true), Tick(elapsed), Find(l, true)];
      var answers := Run(r, steps).answers;
      |answers| == 2 && answers[1].result == Some(if elapsed < 120 then before else after)
  {
    SixSteps(r, Save(before, Created, v, false), Find(l, true), LandFill(0, true),
             Save(after, FromCollection, w, true), Tick(elapsed), Find(l, true));
    var s := Apply(r, Empty(), Save(before, Created, v, false));
    var t := UpdateLeavesOld(r, s, l, after, w);
    AnswerAfter(r, t, l, elapsed);
  }

  /** A lookup by a caller that waits for it: a fill lands, or is lost, before findOne returns. */
  function FindAndFill<P>(r: Repository, s: State<P>, l: Lookup, cacheUp: bool, fillAccepted: bool): State<P> {
    var asked := Apply(r, s, Find(l, cacheUp));
    if |asked.fills| > |s.fills| then Apply(r, asked, LandFill(|s.fills|, fillAccepted)) else asked
  }

  /** The repository as one caller sees it. */
  class Client<P> {
    const r: Repository
    var st: State<P>

    constructor (r: Repository)
      ensures this.r == r && st == Empty()
    {
      this.r, st := r, Empty();
    }

    /** `cached`: the result was rebuilt from a cache entry. */
    method FindOne(l: Lookup, cacheUp: bool, fillAccepted: bool) returns (res: Option<Doc<P>>, cached: bool)
      modifies this
      ensures st == FindAndFill(r, old(st), l, cacheUp, fillAccepted)
      ensures
        var key := LookupKey(r, l);
        && (cached <==> cacheUp && key in old(st.cache) && old(st.now) < old(st.cache)[key].expiresAt)
        && (cached ==> res == Some(old(st.cache)[key].doc))
        && (!cached ==> res == if l.id in old(st.docs) then Some(old(st.docs)[l.id]) else None)
        && st.cache == (if !cached && res.Some? && fillAccepted
                        then old(st.cache)[key := Entry(res.value, old(st.now), old(st.now) + 120)]
                        else old(st.cache))
      ensures st.docs == old(st.docs) && st.writes == old(st.writes) && st.fills == old(st.fills)
      ensures st.now == old(st.now)
      ensures st.answers == old(st.answers) + [Answer(l.id, res, cached, old(st.now), |old(st.writes)|)]
    {
      res := CachedDoc(r, st, l, cacheUp);
      cached := res.Some?;
      if cached {
        st := WithAnswer(st, l.id, res, true);
        return;
      }
      res := StoredDoc(st, l.id);
      if res.Some? {
        var n := |st.fills|;
        var fill := Fill(l, res.value, st.now);
        assert (st.fills + [fill])[..n] + (st.fills + [fill])[n + 1..] == st.fills;
        if fillAccepted {
          st := WithEntry(st, LookupKey(r, l), res.value, st.now);
        }
      }
      st := WithAnswer(st, l.id, res, false);
    }

    /** The cache is written only after the database, if it is up, has taken the update. */
    method SaveOne(doc: Doc<P>, origin: Origin, values: Printed, up: bool, accepted: bool) returns (ok: bool)
      modifies this
      ensures st == if up then Apply(r, old(st), Save(doc, origin, values, accepted)) else old(st)
      ensures ok == (up && origin != FromCache)
      ensures st.docs == if ok then old(st.docs)[doc.id := doc] else old(st.docs)
      ensures st.writes == if ok then old(st.writes) + [Write(doc, old(st.now))] else old(st.writes)
      ensures
        var key := CacheKey(r.collection, values);
        st.cache == if ok && accepted then old(st.cache)[key := Entry(doc, old(st.now), old(st.now) + 120)]
                    else old(st.cache)
      ensures st.answers == old(st.answers) && st.fills == old(st.fills) && st.now == old(st.now)
    {
      if !up || origin == FromCache {
        return false;
      }
      st := st.(docs := st.docs[doc.id := doc], writes := st.writes + [Write(doc, st.now)]);
      if accepted {
        st := WithEntry(st, CacheKey(r.collection, values), doc, st.now);
      }
      ok := true;
    }
  }
}
