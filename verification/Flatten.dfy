/** Flattening of nested objects: flattenObject of src/App/Utils/Misc.ts. */
module Flatten {
  import opened Options

  /**
   * A JavaScript value: null or undefined, or something with a `toString` text and own enumerable entries. What
   * counts as an object is decided by the text alone.
   */
  datatype Value = Null | Val(text: string, entries: Entries)
  datatype Entries = Nil | Cons(key: string, value: Value, rest: Entries)

  type Flat = map<string, Value>

  predicate IsObject(v: Value) {
    v.Val? && v.text == "[object Object]"
  }

  function Key(prefix: string, key: string): string {
    if prefix == "" then key else prefix + "." + key
  }

  /**
   * The reduction over the entries still to go: `obj` is the initial object, spread into the result at every nested
   * object, and `acc` the object built so far. None is the exception thrown at a null.
   */
  function Reduce(entries: Entries, prefix: string, obj: Flat, acc: Flat): Option<Flat> {
    match entries
    case Nil => Some(acc)
    case Cons(k, v, rest) =>
      var key := Key(prefix, k);
      if v.Null? then None
      else if IsObject(v) then
        match Reduce(v.entries, key, acc, acc)
        case None => None
        case Some(nested) => Reduce(rest, prefix, obj, obj + nested)
      else Reduce(rest, prefix, obj, acc[key := v])
  }

  function FlattenObject(entries: Entries, prefix: string, obj: Flat): Option<Flat> {
    Reduce(entries, prefix, obj, obj)
  }

  /* What it means. */

  /** No null is reached. */
  predicate NullFree(entries: Entries) {
    match entries
    case Nil => true
    case Cons(_, v, rest) => !v.Null? && (IsObject(v) ==> NullFree(v.entries)) && NullFree(rest)
  }

  /** The map from the dotted path of every leaf to the leaf; later entries win. */
  function Leaves(entries: Entries, prefix: string): Flat {
    match entries
    case Nil => map[]
    case Cons(k, v, rest) =>
      var key := Key(prefix, k);
      (if IsObject(v) then Leaves(v.entries, key) else map[key := v]) + Leaves(rest, prefix)
  }

  lemma OverlayTwice<K, V>(a: map<K, V>, b: map<K, V>, c: map<K, V>)
    ensures (a + b) + c == a + (b + c)
  {
  }

  lemma OverlayOne<K, V>(a: map<K, V>, k: K, v: V)
    ensures a[k := v] == a + map[k := v]
  {
  }

  lemma OverlayAbsorbs<K, V>(a: map<K, V>, b: map<K, V>)
    requires a.Keys <= b.Keys
    ensures a + b == b
  {
  }

  lemma {:induction false} ReduceOverlays(entries: Entries, prefix: string, obj: Flat, acc: Flat)
    requires obj.Keys <= acc.Keys
    ensures Reduce(entries, prefix, obj, acc)
         == if NullFree(entries) then Some(acc + Leaves(entries, prefix)) else None
  {
    match entries
    case Nil =>
      OverlayAbsorbs(map[], acc);
      assert acc + map[] == acc;
    case Cons(k, v, rest) =>
      var key := Key(prefix, k);
      if IsObject(v) {
        ReduceOverlays(v.entries, key, acc, acc);
        var nested := acc + Leaves(v.entries, key);
        OverlayAbsorbs(obj, nested);
        ReduceOverlays(rest, prefix, obj, nested);
        OverlayTwice(acc, Leaves(v.entries, key), Leaves(rest, prefix));
      } else if v.Val? {
        ReduceOverlays(rest, prefix, obj, acc[key := v]);
        OverlayOne(acc, key, v);
        OverlayTwice(acc, map[key := v], Leaves(rest, prefix));
      }
  }

  /**
   * Flattening overlays the initial object with the leaf map, in spite of the threaded accumulator and the repeated
   * spread; it throws exactly when it reaches a null.
   */
  lemma FlattenIsOverlay(entries: Entries, prefix: string, obj: Flat)
    ensures FlattenObject(entries, prefix, obj)
         == if NullFree(entries) then Some(obj + Leaves(entries, prefix)) else None
  {
    ReduceOverlays(entries, prefix, obj, obj);
  }

  /** Only values that print as "[object Object]" are taken apart; all others are kept whole, entries and all. */
  lemma TakenApartIff(v: Value, key: string, prefix: string)
    requires v.Val?
    ensures
      var flat := FlattenObject(Cons(key, v, Nil), prefix, map[]);
      if v.text == "[object Object]" then flat == FlattenObject(v.entries, Key(prefix, key), map[])
      else flat == Some(map[Key(prefix, key) := v])
  {
    var one := Cons(key, v, Nil);
    FlattenIsOverlay(one, prefix, map[]);
    if v.text == "[object Object]" {
      FlattenIsOverlay(v.entries, Key(prefix, key), map[]);
      assert Leaves(one, prefix) == Leaves(v.entries, Key(prefix, key));
    } else {
      assert Leaves(one, prefix) == map[Key(prefix, key) := v];
      OverlayAbsorbs(map[], Leaves(one, prefix));
    }
  }

  /** No value of the result is one that would be taken apart, and none is null. */
  lemma {:induction false} FlatValuesAreWhole(entries: Entries, prefix: string, key: string)
    requires NullFree(entries) && key in Leaves(entries, prefix)
    ensures FlattenObject(entries, prefix, map[]) == Some(Leaves(entries, prefix))
    ensures Leaves(entries, prefix)[key].Val? && Leaves(entries, prefix)[key].text != "[object Object]"
  {
    FlattenIsOverlay(entries, prefix, map[]);
    assert map[] + Leaves(entries, prefix) == Leaves(entries, prefix);
    var Cons(k, v, rest) := entries;
    if key in Leaves(rest, prefix) {
      FlatValuesAreWhole(rest, prefix, key);
    } else if IsObject(v) {
      FlatValuesAreWhole(v.entries, Key(prefix, k), key);
    }
  }

  /* Paths. */

  predicate DotFree(s: string) {
    forall i :: 0 <= i < |s| ==> s[i] != '.'
  }

  predicate HasKey(entries: Entries, key: string) {
    match entries
    case Nil => false
    case Cons(k, _, rest) => k == key || HasKey(rest, key)
  }

  /** Distinct, dot-free keys at every level. */
  predicate KeysOk(entries: Entries) {
    match entries
    case Nil => true
    case Cons(k, v, rest) =>
      && DotFree(k) && !HasKey(rest, k) && KeysOk(rest) && (IsObject(v) ==> KeysOk(v.entries))
  }

  /** `v` is the leaf at `path`. */
  predicate LeafAt(entries: Entries, path: seq<string>, v: Value) {
    match entries
    case Nil => false
    case Cons(k, w, rest) =>
      || (path != [] && path[0] == k
          && if IsObject(w) then LeafAt(w.entries, path[1..], v) else |path| == 1 && v == w)
      || LeafAt(rest, path, v)
  }

  function Dotted(path: seq<string>): string {
    if path == [] then "" else "." + path[0] + Dotted(path[1..])
  }

  predicate PathOk(path: seq<string>) {
    forall i :: 0 <= i < |path| ==> DotFree(path[i])
  }

  /** A dot-free beginning, up to a dot or the end, is determined. */
  lemma FirstKey(a: string, x: string, b: string, y: string)
    requires DotFree(a) && DotFree(b) && a + x == b + y
    requires (x == "" || x[0] == '.') && (y == "" || y[0] == '.')
    ensures a == b && x == y
  {
    var s, t := a + x, b + y;
    assert forall i :: 0 <= i < |a| ==> s[i] == a[i];
    assert forall i :: 0 <= i < |b| ==> t[i] == b[i];
    assert x != "" ==> s[|a|] == '.';
    assert y != "" ==> t[|b|] == '.';
    assert |a| == |b|;
    assert s[..|a|] == a && t[..|b|] == b && s[|a|..] == x && t[|b|..] == y;
  }

  lemma {:induction false} DottedInjective(a: seq<string>, b: seq<string>)
    requires PathOk(a) && PathOk(b) && Dotted(a) == Dotted(b)
    ensures a == b
  {
    if a != [] && b != [] {
      assert Dotted(a)[1..] == a[0] + Dotted(a[1..]);
      assert Dotted(b)[1..] == b[0] + Dotted(b[1..]);
      FirstKey(a[0], Dotted(a[1..]), b[0], Dotted(b[1..]));
      DottedInjective(a[1..], b[1..]);
      assert a == [a[0]] + a[1..] && b == [b[0]] + b[1..];
    }
  }

  /** Paths of leaves are made of the object's keys. */
  lemma {:induction false} LeafPath(entries: Entries, path: seq<string>, v: Value)
    requires KeysOk(entries) && LeafAt(entries, path, v)
    ensures path != [] && PathOk(path) && HasKey(entries, path[0])
  {
    var Cons(k, w, rest) := entries;
    if LeafAt(rest, path, v) {
      LeafPath(rest, path, v);
    } else if IsObject(w) {
      LeafPath(w.entries, path[1..], v);
      assert path == [path[0]] + path[1..];
    }
  }

  predicate HasLeaf(entries: Entries) {
    match entries
    case Nil => false
    case Cons(_, v, rest) => !IsObject(v) || HasLeaf(v.entries) || HasLeaf(rest)
  }

  /** An object with a leaf is kept under the empty key at the top level. */
  predicate LeafBelowEmpty(entries: Entries) {
    match entries
    case Nil => false
    case Cons(k, v, rest) => (k == "" && IsObject(v) && HasLeaf(v.entries)) || LeafBelowEmpty(rest)
  }

  /** The empty prefix takes an empty key for no key at all, unless it is a leaf's own. */
  predicate Nameable(entries: Entries, prefix: string) {
    prefix != "" || !LeafBelowEmpty(entries)
  }

  /** The prefix and the keys of the path, with dots between them. */
  function Joined(prefix: string, path: seq<string>): string {
    if prefix == "" && path != [] then path[0] + Dotted(path[1..]) else prefix + Dotted(path)
  }

  lemma JoinedInjective(prefix: string, a: seq<string>, b: seq<string>)
    requires PathOk(a) && PathOk(b) && a != [] && b != [] && Joined(prefix, a) == Joined(prefix, b)
    ensures a == b
  {
    if prefix == "" {
      FirstKey(a[0], Dotted(a[1..]), b[0], Dotted(b[1..]));
      DottedInjective(a[1..], b[1..]);
      assert a == [a[0]] + a[1..] && b == [b[0]] + b[1..];
    } else {
      assert Joined(prefix, a)[|prefix|..] == Dotted(a) && Joined(prefix, b)[|prefix|..] == Dotted(b);
      DottedInjective(a, b);
    }
  }

  lemma Regroup(a: string, b: string, c: string)
    ensures a + (b + c) == (a + b) + c
  {
  }

  lemma DottedStep(key: string, path: seq<string>)
    ensures Dotted([key] + path) == "." + key + Dotted(path)
  {
    assert ([key] + path)[1..] == path;
  }

  /** Joining step by step, as the nested calls do. */
  lemma JoinedStep(prefix: string, key: string, path: seq<string>)
    requires Key(prefix, key) != ""
    ensures Joined(prefix, [key] + path) == Key(prefix, key) + Dotted(path)
    ensures Joined(Key(prefix, key), path) == Key(prefix, key) + Dotted(path)
  {
    if prefix == "" {
      assert ([key] + path)[1..] == path;
    } else {
      DottedStep(key, path);
      Regroup(prefix, "." + key, Dotted(path));
      Regroup(prefix, ".", key);
    }
  }

  lemma {:induction false} NoLeafNoKey(entries: Entries, prefix: string)
    ensures !HasLeaf(entries) <==> Leaves(entries, prefix) == map[]
  {
    match entries
    case Nil =>
    case Cons(k, v, rest) =>
      NoLeafNoKey(rest, prefix);
      if IsObject(v) {
        NoLeafNoKey(v.entries, Key(prefix, k));
        var f, g := Leaves(v.entries, Key(prefix, k)), Leaves(rest, prefix);
        assert f + g == map[] ==> f == map[] && g == map[] by {
          assert (f + g).Keys == f.Keys + g.Keys;
        }
      } else {
        assert Key(prefix, k) in Leaves(entries, prefix);
      }
  }

  lemma {:induction false} LeafIsLeaf(entries: Entries, path: seq<string>, v: Value)
    requires LeafAt(entries, path, v)
    ensures HasLeaf(entries)
  {
    var Cons(k, w, rest) := entries;
    if LeafAt(rest, path, v) {
      LeafIsLeaf(rest, path, v);
    } else if IsObject(w) {
      LeafIsLeaf(w.entries, path[1..], v);
    }
  }

  /** Every key of the leaf map is the joined path of the leaf it maps to. */
  lemma {:induction false} MapIsLeaf(entries: Entries, prefix: string, key: string) returns (path: seq<string>)
    requires KeysOk(entries) && Nameable(entries, prefix) && key in Leaves(entries, prefix)
    ensures LeafAt(entries, path, Leaves(entries, prefix)[key]) && key == Joined(prefix, path)
  {
    var Cons(k, v, rest) := entries;
    if key in Leaves(rest, prefix) {
      path := MapIsLeaf(rest, prefix, key);
    } else if IsObject(v) {
      NoLeafNoKey(v.entries, Key(prefix, k));
      var tail := MapIsLeaf(v.entries, Key(prefix, k), key);
      path := [k] + tail;
      assert path[1..] == tail;
      JoinedStep(prefix, k, tail);
    } else {
      path := [k];
      assert path[1..] == [] && Dotted([]) == "";
      assert Dotted(path) == "." + k;
    }
  }

  /** Every leaf is in the leaf map under its joined path. */
  lemma {:induction false} LeafIsMapped(entries: Entries, prefix: string, path: seq<string>, v: Value)
    requires KeysOk(entries) && Nameable(entries, prefix) && LeafAt(entries, path, v)
    ensures Joined(prefix, path) in Leaves(entries, prefix)
    ensures Leaves(entries, prefix)[Joined(prefix, path)] == v
  {
    var Cons(k, w, rest) := entries;
    var key := Joined(prefix, path);
    if LeafAt(rest, path, v) {
      LeafIsMapped(rest, prefix, path, v);
    } else {
      LeafPath(entries, path, v);
      assert path == [k] + path[1..];
      if IsObject(w) {
        LeafIsLeaf(w.entries, path[1..], v);
        JoinedStep(prefix, k, path[1..]);
        LeafIsMapped(w.entries, Key(prefix, k), path[1..], v);
      } else {
        assert path[1..] == [] && Dotted([]) == "";
        assert Dotted(path) == "." + k;
        assert key == Key(prefix, k);
      }
      if key in Leaves(rest, prefix) {
        var other := MapIsLeaf(rest, prefix, key);
        LeafPath(rest, other, Leaves(rest, prefix)[key]);
        JoinedInjective(prefix, path, other);
      }
    }
  }

  /** The flattened object names every leaf by its joined path, and nothing else. */
  ghost predicate PathsKept(entries: Entries, prefix: string, flat: Flat) {
    && (forall key :: key in flat ==> exists path :: LeafAt(entries, path, flat[key]) && key == Joined(prefix, path))
    && (forall path, v :: LeafAt(entries, path, v) ==> Joined(prefix, path) in flat && flat[Joined(prefix, path)] == v)
  }

  lemma {:induction false} PrefixKept(entries: Entries, prefix: string, key: string)
    requires prefix != "" && key in Leaves(entries, prefix)
    ensures prefix <= key
  {
    var Cons(k, v, rest) := entries;
    if key in Leaves(rest, prefix) {
      PrefixKept(rest, prefix, key);
    } else if IsObject(v) {
      PrefixKept(v.entries, Key(prefix, k), key);
    }
  }

  lemma {:induction false} NoLeadingDot(entries: Entries, key: string)
    requires KeysOk(entries) && key in Leaves(entries, "")
    ensures key == "" || key[0] != '.'
  {
    var Cons(k, v, rest) := entries;
    if key in Leaves(rest, "") {
      NoLeadingDot(rest, key);
    } else if IsObject(v) && k == "" {
      NoLeadingDot(v.entries, key);
    } else if IsObject(v) {
      PrefixKept(v.entries, k, key);
      assert key[0] == k[0];
    }
  }

  lemma {:induction false} SomeLeaf(entries: Entries) returns (path: seq<string>, v: Value)
    requires HasLeaf(entries)
    ensures LeafAt(entries, path, v)
  {
    var Cons(k, w, rest) := entries;
    if !IsObject(w) {
      path, v := [k], w;
    } else if HasLeaf(w.entries) {
      path, v := SomeLeaf(w.entries);
      assert ([k] + path)[1..] == path;
      path := [k] + path;
    } else {
      path, v := SomeLeaf(rest);
    }
  }

  lemma {:induction false} LeafBelow(entries: Entries) returns (path: seq<string>, v: Value)
    requires LeafBelowEmpty(entries) && KeysOk(entries)
    ensures |path| > 1 && path[0] == "" && LeafAt(entries, path, v)
  {
    var Cons(k, w, rest) := entries;
    if LeafBelowEmpty(rest) {
      path, v := LeafBelow(rest);
    } else {
      path, v := SomeLeaf(w.entries);
      LeafPath(w.entries, path, v);
      assert ([""] + path)[1..] == path;
      path := [""] + path;
    }
  }

  /**
   * Leaves are named by their paths exactly when there is a prefix or no leaf lies below an empty key at the top
   * level: from there `{"": {"x": 1}}` yields "x" and not ".x".
   */
  lemma PathsKeptIff(entries: Entries, prefix: string)
    requires KeysOk(entries) && NullFree(entries)
    ensures
      var flat := FlattenObject(entries, prefix, map[]);
      flat.Some? && (PathsKept(entries, prefix, flat.value) <==> Nameable(entries, prefix))
  {
    FlattenIsOverlay(entries, prefix, map[]);
    var flat := Leaves(entries, prefix);
    OverlayAbsorbs(map[], flat);
    if Nameable(entries, prefix) {
      forall key | key in flat
        ensures exists path :: LeafAt(entries, path, flat[key]) && key == Joined(prefix, path)
      {
        var path := MapIsLeaf(entries, prefix, key);
      }
      forall path, v | LeafAt(entries, path, v)
        ensures Joined(prefix, path) in flat && flat[Joined(prefix, path)] == v
      {
        LeafIsMapped(entries, prefix, path, v);
      }
    } else {
      var path, v := LeafBelow(entries);
      var key := Joined(prefix, path);
      assert key[0] == '.';
      if key in flat {
        NoLeadingDot(entries, key);
      }
    }
  }

  ghost predicate SameLeaves(a: Entries, b: Entries) {
    forall path, v :: LeafAt(a, path, v) <==> LeafAt(b, path, v)
  }

  lemma SameMapSameLeaf(a: Entries, b: Entries, prefix: string, path: seq<string>, v: Value)
    requires KeysOk(a) && KeysOk(b) && Nameable(a, prefix) && Nameable(b, prefix)
    requires Leaves(a, prefix) == Leaves(b, prefix)
    ensures LeafAt(a, path, v) ==> LeafAt(b, path, v)
  {
    if LeafAt(a, path, v) {
      LeafIsMapped(a, prefix, path, v);
      LeafPath(a, path, v);
      var other := MapIsLeaf(b, prefix, Joined(prefix, path));
      LeafPath(b, other, v);
      JoinedInjective(prefix, path, other);
    }
  }

  lemma SameLeavesSameMap(a: Entries, b: Entries, prefix: string)
    requires KeysOk(a) && KeysOk(b) && Nameable(a, prefix) && Nameable(b, prefix) && SameLeaves(a, b)
    ensures Leaves(a, prefix) == Leaves(b, prefix)
  {
    var f, g := Leaves(a, prefix), Leaves(b, prefix);
    forall key | key in f
      ensures key in g && g[key] == f[key]
    {
      var path := MapIsLeaf(a, prefix, key);
      LeafIsMapped(b, prefix, path, f[key]);
    }
    forall key | key in g
      ensures key in f
    {
      var path := MapIsLeaf(b, prefix, key);
      LeafIsMapped(a, prefix, path, g[key]);
    }
  }

  ghost predicate FlattenAlike(a: Entries, b: Entries, prefix: string) {
    FlattenObject(a, prefix, map[]) == FlattenObject(b, prefix, map[])
  }

  lemma AlikeIsSameMap(a: Entries, b: Entries, prefix: string)
    requires NullFree(a) && NullFree(b)
    ensures FlattenAlike(a, b, prefix) <==> Leaves(a, prefix) == Leaves(b, prefix)
  {
    FlattenIsOverlay(a, prefix, map[]);
    FlattenIsOverlay(b, prefix, map[]);
    OverlayAbsorbs(map[], Leaves(a, prefix));
    OverlayAbsorbs(map[], Leaves(b, prefix));
  }

  /**
   * Nothing is confused: two objects flatten alike exactly when they have the same leaves at the same paths. Under
   * the empty prefix this holds of objects without a leaf below an empty key at the top level.
   */
  lemma FlattenInjective(a: Entries, b: Entries, prefix: string)
    requires KeysOk(a) && KeysOk(b) && NullFree(a) && NullFree(b)
    ensures Nameable(a, prefix) && Nameable(b, prefix) ==> (FlattenAlike(a, b, prefix) <==> SameLeaves(a, b))
  {
    AlikeIsSameMap(a, b, prefix);
    if Nameable(a, prefix) && Nameable(b, prefix) {
      if Leaves(a, prefix) == Leaves(b, prefix) {
        forall path, v
          ensures LeafAt(a, path, v) <==> LeafAt(b, path, v)
        {
          SameMapSameLeaf(a, b, prefix, path, v);
          SameMapSameLeaf(b, a, prefix, path, v);
        }
      } else if SameLeaves(a, b) {
        SameLeavesSameMap(a, b, prefix);
      }
    }
  }

  /* Recovery: an object up to the order of its entries. */

  datatype Tree = Leaf(value: Value) | Node(children: map<string, Tree>)

  function TreeOf(v: Value): Tree {
    if IsObject(v) then Node(Shape(v.entries)) else Leaf(v)
  }

  /** An object without the order of its entries. */
  function Shape(entries: Entries): map<string, Tree> {
    match entries
    case Nil => map[]
    case Cons(k, v, rest) => Shape(rest)[k := TreeOf(v)]
  }

  function Get(entries: Entries, key: string): Option<Value> {
    match entries
    case Nil => None
    case Cons(k, v, rest) => if k == key then Some(v) else Get(rest, key)
  }

  /** The object without its sub-objects that hold no leaf. */
  function Pruned(entries: Entries): Entries {
    match entries
    case Nil => Nil
    case Cons(k, v, rest) =>
      if !IsObject(v) then Cons(k, v, Pruned(rest))
      else if HasLeaf(v.entries) then Cons(k, v.(entries := Pruned(v.entries)), Pruned(rest))
      else Pruned(rest)
  }

  predicate NoEmptyObjects(entries: Entries) {
    match entries
    case Nil => true
    case Cons(_, v, rest) => (IsObject(v) ==> v.entries != Nil && NoEmptyObjects(v.entries)) && NoEmptyObjects(rest)
  }

  /** Every sub-object has a leaf. */
  predicate Leafy(entries: Entries) {
    match entries
    case Nil => true
    case Cons(_, v, rest) => (IsObject(v) ==> HasLeaf(v.entries) && Leafy(v.entries)) && Leafy(rest)
  }

  lemma {:induction false} NoEmptyIsLeafy(entries: Entries)
    requires NoEmptyObjects(entries)
    ensures Leafy(entries) && Pruned(entries) == entries && (entries != Nil ==> HasLeaf(entries))
  {
    if entries.Cons? {
      NoEmptyIsLeafy(entries.rest);
      if IsObject(entries.value) {
        NoEmptyIsLeafy(entries.value.entries);
      }
    }
  }

  lemma {:induction false} ShapeHas(entries: Entries, key: string)
    ensures HasKey(entries, key) <==> Get(entries, key).Some?
    ensures key in Shape(entries) <==> Get(entries, key).Some?
    ensures key in Shape(entries) ==> Shape(entries)[key] == TreeOf(Get(entries, key).value)
  {
    if entries.Cons? {
      ShapeHas(entries.rest, key);
    }
  }

  /** The leaf at a path is found by following its first key. */
  lemma {:induction false} LeafThrough(entries: Entries, path: seq<string>, v: Value)
    requires KeysOk(entries)
    ensures LeafAt(entries, path, v)
       <==> && path != [] && Get(entries, path[0]).Some?
            && var w := Get(entries, path[0]).value;
               if IsObject(w) then LeafAt(w.entries, path[1..], v) else |path| == 1 && v == w
  {
    if entries.Cons? {
      LeafThrough(entries.rest, path, v);
      if path != [] && path[0] == entries.key {
        ShapeHas(entries.rest, path[0]);
      }
    }
  }

  lemma {:induction false} GetKeepsOk(entries: Entries, key: string)
    requires KeysOk(entries) && Get(entries, key).Some? && IsObject(Get(entries, key).value)
    ensures KeysOk(Get(entries, key).value.entries)
    ensures Leafy(entries) ==> HasLeaf(Get(entries, key).value.entries) && Leafy(Get(entries, key).value.entries)
    ensures Get(entries, key).value.entries < entries
  {
    if entries.key != key {
      GetKeepsOk(entries.rest, key);
    }
  }

  /** The same leaves below every key. */
  lemma SameLeavesBelow(a: Entries, b: Entries, key: string)
    requires KeysOk(a) && KeysOk(b) && SameLeaves(a, b)
    requires Get(a, key).Some? && Get(b, key).Some? && IsObject(Get(a, key).value) && IsObject(Get(b, key).value)
    ensures SameLeaves(Get(a, key).value.entries, Get(b, key).value.entries)
  {
    forall path, v
      ensures LeafAt(Get(a, key).value.entries, path, v) <==> LeafAt(Get(b, key).value.entries, path, v)
    {
      assert ([key] + path)[1..] == path;
      LeafThrough(a, [key] + path, v);
      LeafThrough(b, [key] + path, v);
      assert LeafAt(a, [key] + path, v) <==> LeafAt(b, [key] + path, v);
    }
  }

  /** A leaf below `key`, as a path and its value. */
  lemma LeafUnder(entries: Entries, key: string) returns (path: seq<string>, v: Value)
    requires KeysOk(entries) && Leafy(entries) && Get(entries, key).Some?
    ensures LeafAt(entries, [key] + path, v)
    ensures path == [] <==> !IsObject(Get(entries, key).value)
  {
    var w := Get(entries, key).value;
    if IsObject(w) {
      GetKeepsOk(entries, key);
      path, v := SomeLeaf(w.entries);
      LeafPath(w.entries, path, v);
    } else {
      path, v := [], w;
    }
    assert ([key] + path)[1..] == path;
    LeafThrough(entries, [key] + path, v);
  }

  lemma {:induction false} SameLeavesSameTree(a: Entries, b: Entries, key: string)
    requires KeysOk(a) && KeysOk(b) && Leafy(a) && Leafy(b) && SameLeaves(a, b) && key in Shape(a)
    ensures key in Shape(b) && Shape(b)[key] == Shape(a)[key]
    decreases a, 0
  {
    ShapeHas(a, key);
    ShapeHas(b, key);
    var path, v := LeafUnder(a, key);
    assert LeafAt(b, [key] + path, v);
    assert ([key] + path)[1..] == path;
    LeafThrough(a, [key] + path, v);
    LeafThrough(b, [key] + path, v);
    var x, y := Get(a, key).value, Get(b, key).value;
    if IsObject(x) {
      if IsObject(y) {
        GetKeepsOk(a, key);
        GetKeepsOk(b, key);
        SameLeavesBelow(a, b, key);
        SameLeavesSameShape(x.entries, y.entries);
      }
    } else if IsObject(y) {
      GetKeepsOk(b, key);
      LeafPath(y.entries, path, v);
    }
  }

  lemma {:induction false} SameLeavesSameShape(a: Entries, b: Entries)
    requires KeysOk(a) && KeysOk(b) && Leafy(a) && Leafy(b) && SameLeaves(a, b)
    ensures Shape(a) == Shape(b)
    decreases a, 1
  {
    forall key | key in Shape(a)
      ensures key in Shape(b) && Shape(b)[key] == Shape(a)[key]
    {
      SameLeavesSameTree(a, b, key);
    }
    forall key | key in Shape(b)
      ensures key in Shape(a)
    {
      ShapeHas(a, key);
      ShapeHas(b, key);
      var path, v := LeafUnder(b, key);
      assert LeafAt(a, [key] + path, v);
      LeafThrough(a, [key] + path, v);
    }
  }

  lemma {:induction false} SameShapeSameLeaf(a: Entries, b: Entries, path: seq<string>, v: Value)
    requires KeysOk(a) && KeysOk(b) && Shape(a) == Shape(b) && LeafAt(a, path, v)
    ensures LeafAt(b, path, v)
  {
    LeafThrough(a, path, v);
    LeafThrough(b, path, v);
    ShapeHas(a, path[0]);
    ShapeHas(b, path[0]);
    var x, y := Get(a, path[0]).value, Get(b, path[0]).value;
    assert TreeOf(x) == TreeOf(y);
    if IsObject(x) {
      GetKeepsOk(a, path[0]);
      GetKeepsOk(b, path[0]);
      SameShapeSameLeaf(x.entries, y.entries, path[1..], v);
    }
  }

  lemma {:induction false} PrunedKeeps(entries: Entries)
    requires KeysOk(entries)
    ensures KeysOk(Pruned(entries)) && Leafy(Pruned(entries)) && (HasLeaf(Pruned(entries)) <==> HasLeaf(entries))
    ensures forall k :: HasKey(Pruned(entries), k) ==> HasKey(entries, k)
  {
    if entries.Cons? {
      PrunedKeeps(entries.rest);
      if IsObject(entries.value) {
        PrunedKeeps(entries.value.entries);
      }
    }
  }

  lemma {:induction false} PrunedLeaf(entries: Entries, path: seq<string>, v: Value)
    requires KeysOk(entries)
    ensures LeafAt(Pruned(entries), path, v) <==> LeafAt(entries, path, v)
  {
    if entries.Cons? {
      var w := entries.value;
      PrunedLeaf(entries.rest, path, v);
      if IsObject(w) && path != [] {
        PrunedLeaf(w.entries, path[1..], v);
        if LeafAt(w.entries, path[1..], v) {
          LeafIsLeaf(w.entries, path[1..], v);
        }
      }
    }
  }

  /**
   * What flattening keeps of an object is all of it but the order of the entries and the sub-objects without a leaf:
   * two objects flatten alike exactly when they are the same but for these.
   */
  lemma FlattenKeepsShape(a: Entries, b: Entries, prefix: string)
    requires KeysOk(a) && KeysOk(b) && NullFree(a) && NullFree(b) && Nameable(a, prefix) && Nameable(b, prefix)
    ensures FlattenAlike(a, b, prefix) <==> Shape(Pruned(a)) == Shape(Pruned(b))
  {
    FlattenInjective(a, b, prefix);
    PrunedKeeps(a);
    PrunedKeeps(b);
    forall path, v
      ensures LeafAt(Pruned(a), path, v) <==> LeafAt(a, path, v)
      ensures LeafAt(Pruned(b), path, v) <==> LeafAt(b, path, v)
    {
      PrunedLeaf(a, path, v);
      PrunedLeaf(b, path, v);
    }
    if SameLeaves(a, b) {
      SameLeavesSameShape(Pruned(a), Pruned(b));
    }
    if Shape(Pruned(a)) == Shape(Pruned(b)) {
      forall path, v
        ensures LeafAt(a, path, v) <==> LeafAt(b, path, v)
      {
        if LeafAt(a, path, v) {
          SameShapeSameLeaf(Pruned(a), Pruned(b), path, v);
        }
        if LeafAt(b, path, v) {
          SameShapeSameLeaf(Pruned(b), Pruned(a), path, v);
        }
      }
    }
  }

  /** Without empty sub-objects, the object can be recovered from its flattening, up to the order of entries. */
  lemma FlattenRecoverable(a: Entries, b: Entries, prefix: string)
    requires KeysOk(a) && KeysOk(b) && NullFree(a) && NullFree(b) && Nameable(a, prefix) && Nameable(b, prefix)
    requires NoEmptyObjects(a) && NoEmptyObjects(b)
    ensures FlattenAlike(a, b, prefix) <==> Shape(a) == Shape(b)
  {
    NoEmptyIsLeafy(a);
    NoEmptyIsLeafy(b);
    FlattenKeepsShape(a, b, prefix);
  }

  /** The object `{"": b}`. */
  function Wrapped(b: Entries): Entries {
    Cons("", Val("[object Object]", b), Nil)
  }

  lemma {:induction false} WrappedDiffers(b: Entries, path: seq<string>, v: Value)
    requires SameLeaves(Wrapped(b), b) && LeafAt(b, path, v)
    ensures false
  {
    assert LeafAt(Wrapped(b), path, v) && !LeafAt(Nil, path, v);
    WrappedDiffers(b, path[1..], v);
  }

  /** The failing input, of which there is one for every object with a leaf: to be kept under an empty key. */
  lemma EmptyKeyVanishes(b: Entries)
    requires KeysOk(b) && NullFree(b) && HasLeaf(b)
    ensures KeysOk(Wrapped(b)) && NullFree(Wrapped(b)) && LeafBelowEmpty(Wrapped(b))
    ensures FlattenAlike(Wrapped(b), b, "") && !SameLeaves(Wrapped(b), b)
  {
    AlikeIsSameMap(Wrapped(b), b, "");
    assert Leaves(Wrapped(b), "") == Leaves(b, "") + map[];
    if SameLeaves(Wrapped(b), b) {
      var path, v := SomeLeaf(b);
      WrappedDiffers(b, path, v);
    }
  }

  /** Among all objects, the flattening tells an object's leaves exactly when there is a prefix or no leaf at all. */
  lemma DeterminedIff(b: Entries, prefix: string)
    requires KeysOk(b) && NullFree(b)
    ensures (forall a :: KeysOk(a) && NullFree(a) && FlattenAlike(a, b, prefix) ==> SameLeaves(a, b))
       <==> prefix != "" || !HasLeaf(b)
  {
    if prefix != "" || !HasLeaf(b) {
      forall a | KeysOk(a) && NullFree(a) && FlattenAlike(a, b, prefix)
        ensures SameLeaves(a, b)
      {
        FlattenInjective(a, b, prefix);
        if prefix == "" {
          AlikeIsSameMap(a, b, prefix);
          NoLeafNoKey(a, prefix);
          NoLeafNoKey(b, prefix);
          forall path, v
            ensures LeafAt(a, path, v) <==> LeafAt(b, path, v)
          {
            if LeafAt(a, path, v) {
              LeafIsLeaf(a, path, v);
            }
            if LeafAt(b, path, v) {
              LeafIsLeaf(b, path, v);
            }
          }
        }
      }
    } else {
      EmptyKeyVanishes(b);
    }
  }
}
